/** Building the documents of a new cluster from the default template and a create request. */
module ClusterBuild {
  import opened Wrappers
  import opened GoStrings
  import opened Documents
  import opened Addons

  // ---------- the default cluster document ----------

  const TEMPLATE_ADDONS: seq<Value> := [
    Obj(map["name" := Str("kubeproxy"),
            "param" := Obj(map["clusterNetworkMode" := Str("calico")]),
            "version" := Str("v1.28.8")]),
    Obj(map["block" := Bool(true),
            "name" := Str("calico"),
            "param" := Obj(map["calicoMode" := Str("vxlan"),
                               "ipAutoDetectionMethod" := Str("skip-interface=nerdctl*")]),
            "version" := Str("v3.27.3")]),
    Obj(map["name" := Str("coredns"), "version" := Str("v1.10.1")]),
    Obj(map["name" := Str("bkeagent-deployer"),
            "version" := Str("latest"),
            "param" := Obj(map["tagVersion" := Str("latest")])]),
    Obj(map["name" := Str("openfuyao-system-controller"),
            "param" := Obj(map["helmRepo" := Str("https://helm.openfuyao.cn/_core"),
                               "tagVersion" := Str("latest")]),
            "version" := Str("latest")])
  ]

  const TEMPLATE_CLUSTER: Fields := map[
    "agentHealthPort" := Str("58080"),
    "apiServer" := Obj(map["extraArgs" := Obj(map[
      "max-mutating-requests-inflight" := Str("3000"),
      "max-requests-inflight" := Str("1000"),
      "watch-cache-sizes" := Str("node#1000,pod#5000")])]),
    "certificatesDir" := Str("/etc/kubernetes/pki"),
    "containerRuntime" := Obj(map[
      "cri" := Str("containerd"),
      "param" := Obj(map["data-root" := Str("/var/lib/containerd")]),
      "runtime" := Str("runc")]),
    "controllerManager" := Obj(map["extraArgs" := Obj(map[
      "kube-api-burst" := Str("1000"), "kube-api-qps" := Str("1000")])]),
    "etcd" := Obj(map["dataDir" := Str("/var/lib/etcd")]),
    "httpRepo" := Obj(map[
      "domain" := Str("http.bocloud.k8s"), "ip" := Str("192.168.100.20"),
      "port" := Str("40080"), "prefix" := Str("")]),
    "imageRepo" := Obj(map[
      "domain" := Str("default"), "ip" := Str(""), "port" := Str("443"), "prefix" := Str("")]),
    "kubelet" := Obj(map[
      "extraArgs" := Obj(map["kube-api-burst" := Str("2000"), "kube-api-qps" := Str("1000")]),
      "extraVolumes" := Arr([Obj(map["hostPath" := Str("/var/lib/kubelet"), "name" := Str("kubelet-root-dir")])])]),
    "kubernetesVersion" := Str("v1.28.8"),
    "openFuyaoVersion" := Str("v00.00"),
    "containerdVersion" := Str("v0.0.0"),
    "networking" := Obj(map[
      "dnsDomain" := Str("cluster.local"), "podSubnet" := Str("10.250.0.0/16"),
      "serviceSubnet" := Str("10.96.0.0/16")]),
    "ntpServer" := Str("cn.pool.ntp.org:123"),
    "scheduler" := Obj(map["extraArgs" := Obj(map["kube-api-qps" := Str("1000")])])
  ]

  const TEMPLATE_EXTRA: Fields := map[
    "chart_password" := Str("chart"),
    "chart_username" := Str("chart"),
    "chartRepoPort" := Str("38080"),
    "clusterapi" := Str("latest"),
    "containerd" := Str("containerd-v2.1.1-linux-{.arch}.tar.gz"),
    "domain" := Str("deploy.bocloud.k8s"),
    "host" := Str("192.168.201.85"),
    "imageRepoPort" := Str("40443"),
    "nfsserverpath" := Str("/"),
    "otherRepo" := Str("cr.openfuyao.cn/openfuyao/"),
    "otherRepoIp" := Str("119.3.216.97"),
    "otherSource" := Str(""),
    "yumRepoPort" := Str("40080")
  ]

  const TEMPLATE_CONFIG: Fields := map[
    "addons" := Arr(TEMPLATE_ADDONS), "cluster" := Obj(TEMPLATE_CLUSTER), "customExtra" := Obj(TEMPLATE_EXTRA)
  ]

  const TEMPLATE_METADATA: Fields := map[
    "creationTimestamp" := Null, "name" := Str("bke-cluster"), "namespace" := Str("bke-cluster")
  ]

  const TEMPLATE_SPEC: Fields := map[
    "clusterConfig" := Obj(TEMPLATE_CONFIG), "controlPlaneEndpoint" := Obj(map[]), "pause" := Bool(false)
  ]

  const TEMPLATE: Value := Obj(map[
    "apiVersion" := Str("bke.bocloud.com/v1beta1"),
    "kind" := Str("BKECluster"),
    "metadata" := Obj(TEMPLATE_METADATA),
    "spec" := Obj(TEMPLATE_SPEC),
    "status" := Obj(map["agentStatus" := Obj(map[]), "kubernetesVersion" := Str(""), "ready" := Bool(false)])
  ])

  // ---------- the paths that building may set ----------

  datatype Slot =
    | Name | Namespace | OpenFuyaoVersion | KubernetesVersion | RuntimeCri | AgentHealthPort
    | HttpRepoIp | ExtraHost | ImageRepoIp | ImageRepoDomain | ImageRepoPort | ImageRepoPrefix
    | ControlPlane | AddonList

  function PathOf(slot: Slot): Path {
    match slot
    case Name => ["metadata", "name"]
    case Namespace => ["metadata", "namespace"]
    case OpenFuyaoVersion => ["spec", "clusterConfig", "cluster", "openFuyaoVersion"]
    case KubernetesVersion => ["spec", "clusterConfig", "cluster", "kubernetesVersion"]
    case RuntimeCri => ["spec", "clusterConfig", "cluster", "containerRuntime", "cri"]
    case AgentHealthPort => ["spec", "clusterConfig", "cluster", "agentHealthPort"]
    case HttpRepoIp => ["spec", "clusterConfig", "cluster", "httpRepo", "ip"]
    case ExtraHost => ["spec", "clusterConfig", "customExtra", "host"]
    case ImageRepoIp => ["spec", "clusterConfig", "cluster", "imageRepo", "ip"]
    case ImageRepoDomain => ["spec", "clusterConfig", "cluster", "imageRepo", "domain"]
    case ImageRepoPort => ["spec", "clusterConfig", "cluster", "imageRepo", "port"]
    case ImageRepoPrefix => ["spec", "clusterConfig", "cluster", "imageRepo", "prefix"]
    case ControlPlane => ["spec", "controlPlaneEndpoint"]
    case AddonList => ["spec", "clusterConfig", "addons"]
  }

  predicate InCluster(slot: Slot) {
    !slot.Name? && !slot.Namespace? && !slot.ControlPlane? && !slot.ExtraHost? && !slot.AddonList?
  }

  // Where two slots' paths part.
  function PartAt(a: Slot, b: Slot): nat {
    if (a.Name? || a.Namespace?) != (b.Name? || b.Namespace?) then 0
    else if a.Name? || a.Namespace? || a.ControlPlane? || b.ControlPlane? then 1
    else if !InCluster(a) || !InCluster(b) then 2
    else if PathOf(a)[3] == PathOf(b)[3] then 4
    else 3
  }

  lemma SlotsAreApart(a: Slot, b: Slot)
    requires a != b
    ensures Apart(PathOf(a), PathOf(b))
  {
    ApartAt(PathOf(a), PathOf(b), PartAt(a, b));
  }

  // A path can be set when its rest can be set in the part it leads to.
  lemma PartIsSettable(root: Fields, part: string, path: Path)
    requires path != [] && path[0] == part
    requires path[1..] != [] ==> part in root && Set(root[part], path[1..], Null).Some?
    ensures Set(Obj(root), path, Null).Some?
  {
    SettableBelow(Obj(root), part, path[1..]);
    assert path == [part] + path[1..];
  }

  lemma ClusterSlotsAreSettable(cluster: Fields, slot: Slot)
    requires cluster == TEMPLATE_CLUSTER && InCluster(slot)
    ensures Set(Obj(cluster), PathOf(slot)[3..], Null).Some?
  {
    var path := PathOf(slot)[3..];
    if |path| > 1 {
      assert path[0] in cluster && cluster[path[0]].Obj?;
      PartIsSettable(cluster[path[0]].fields, path[1], path[1..]);
    }
    PartIsSettable(cluster, path[0], path);
  }

  // The parts of the template that hold slots.
  lemma ConfigParts(config: Fields)
    requires config == TEMPLATE_CONFIG
    ensures "cluster" in config && config["cluster"] == Obj(TEMPLATE_CLUSTER)
    ensures "customExtra" in config && config["customExtra"] == Obj(TEMPLATE_EXTRA)
  {
  }

  lemma SpecParts(spec: Fields)
    requires spec == TEMPLATE_SPEC
    ensures "clusterConfig" in spec && spec["clusterConfig"] == Obj(TEMPLATE_CONFIG)
  {
  }

  lemma TemplateParts(root: Value)
    requires root == TEMPLATE
    ensures root.Obj? && "metadata" in root.fields && "spec" in root.fields
    ensures root.fields["metadata"] == Obj(TEMPLATE_METADATA) && root.fields["spec"] == Obj(TEMPLATE_SPEC)
  {
  }

  lemma ConfigSlotsAreSettable(config: Fields, slot: Slot)
    requires config == TEMPLATE_CONFIG && (InCluster(slot) || slot.ExtraHost? || slot.AddonList?)
    ensures Set(Obj(config), PathOf(slot)[2..], Null).Some?
  {
    ConfigParts(config);
    var path := PathOf(slot)[2..];
    assert path[1..] == PathOf(slot)[3..];
    if slot.ExtraHost? {
      PartIsSettable(TEMPLATE_EXTRA, path[1], path[1..]);
    } else if InCluster(slot) {
      ClusterSlotsAreSettable(TEMPLATE_CLUSTER, slot);
    }
    PartIsSettable(config, path[0], path);
  }

  lemma SpecSlotsAreSettable(spec: Fields, slot: Slot)
    requires spec == TEMPLATE_SPEC && !slot.Name? && !slot.Namespace?
    ensures Set(Obj(spec), PathOf(slot)[1..], Null).Some?
  {
    SpecParts(spec);
    var path := PathOf(slot)[1..];
    if !slot.ControlPlane? {
      assert path[1..] == PathOf(slot)[2..];
      ConfigSlotsAreSettable(TEMPLATE_CONFIG, slot);
    }
    PartIsSettable(spec, path[0], path);
  }

  lemma SlotsAreSettable(root: Value, slot: Slot)
    requires root == TEMPLATE
    ensures Set(root, PathOf(slot), Null).Some?
  {
    TemplateParts(root);
    if slot.Name? || slot.Namespace? {
      PartIsSettable(TEMPLATE_METADATA, PathOf(slot)[1], PathOf(slot)[1..]);
    } else {
      SpecSlotsAreSettable(TEMPLATE_SPEC, slot);
    }
    PartIsSettable(root.fields, PathOf(slot)[0], PathOf(slot));
  }

  lemma AllSlotsAreSettable(root: Value)
    requires root == TEMPLATE
    ensures forall slot: Slot :: Set(root, PathOf(slot), Null).Some?
  {
    forall slot: Slot
      ensures Set(root, PathOf(slot), Null).Some?
    {
      SlotsAreSettable(root, slot);
    }
  }

  // ---------- requests ----------

  datatype NodeRequest = NodeRequest(
    hostname: string, ip: string, port: string, username: string, password: string, roles: seq<string>)

  datatype CreateRequest = CreateRequest(
    name: string, openFuyaoVersion: string, imageRepoUrl: string, imageRepoIp: string,
    controlPlaneEndpoint: string, addons: seq<RequestedAddon>, nodes: seq<NodeRequest>)

  datatype Defaults = Defaults(ip: string, kubernetesVersion: string, containerRuntime: string, agentHealthPort: string)

  function Text(s: string): Option<Value> {
    if s == "" then None else Some(Str(s))
  }

  // An image repository other than the public one.
  predicate PrivateRepo(req: CreateRequest) {
    var domain := TrimSpace(req.imageRepoUrl);
    domain != "" && !Contains(domain, "cr.openfuyao.cn")
  }

  // What a request and the defaults put into a slot; None leaves the template's value.
  function Choice(req: CreateRequest, d: Defaults, slot: Slot): Option<Value> {
    match slot
    case Name => Text(req.name)
    case Namespace => Text(req.name)
    case OpenFuyaoVersion => Text(req.openFuyaoVersion)
    case KubernetesVersion => Text(d.kubernetesVersion)
    case RuntimeCri => Text(d.containerRuntime)
    case AgentHealthPort => Text(d.agentHealthPort)
    case HttpRepoIp => Text(d.ip)
    case ExtraHost => Text(d.ip)
    case ImageRepoIp => Text(TrimSpace(req.imageRepoIp))
    case ImageRepoDomain => if PrivateRepo(req) then Text(TrimSpace(req.imageRepoUrl)) else None
    case ImageRepoPort => if PrivateRepo(req) then Some(Str("40443")) else None
    case ImageRepoPrefix => if PrivateRepo(req) then Some(Str("kubernetes")) else None
    case ControlPlane =>
      if Blank(req.controlPlaneEndpoint) then None
      else Some(Obj(map["host" := Str(req.controlPlaneEndpoint), "port" := Int(36443)]))
    case AddonList => None
  }

  function ChosenOrTemplate(req: CreateRequest, d: Defaults, slot: Slot): Lookup {
    if Choice(req, d, slot).Some? then Found(Choice(req, d, slot).value) else Get(TEMPLATE, PathOf(slot))
  }

  // ---------- setting slots ----------

  // The path leads neither to, nor above, nor below any slot.
  ghost predicate OffSlots(q: Path) {
    forall s: Slot :: Apart(PathOf(s), q)
  }

  function Put(v: Value, slot: Slot, choice: Option<Value>): Value {
    if choice.Some? && Set(v, PathOf(slot), choice.value).Some? then Set(v, PathOf(slot), choice.value).value else v
  }

  // The base document after the given slots have been dealt with, one after the other.
  function PutAll(base: Value, req: CreateRequest, d: Defaults, slots: seq<Slot>): Value {
    if slots == [] then base
    else
      var s := slots[|slots| - 1];
      Put(PutAll(base, req, d, slots[..|slots| - 1]), s, Choice(req, d, s))
  }

  lemma PutSnoc(base: Value, req: CreateRequest, d: Defaults, slots: seq<Slot>, slot: Slot)
    ensures PutAll(base, req, d, slots + [slot]) == Put(PutAll(base, req, d, slots), slot, Choice(req, d, slot))
  {
    assert (slots + [slot])[..|slots|] == slots;
  }

  lemma PutNone(base: Value, req: CreateRequest, d: Defaults, slots: seq<Slot>, slot: Slot)
    requires Choice(req, d, slot).None?
    ensures PutAll(base, req, d, slots + [slot]) == PutAll(base, req, d, slots)
  {
    PutSnoc(base, req, d, slots, slot);
  }

  lemma PutSlot(v: Value, slot: Slot, choice: Option<Value>, s: Slot)
    requires Set(v, PathOf(slot), Null).Some? && Set(v, PathOf(s), Null).Some?
    ensures Set(Put(v, slot, choice), PathOf(s), Null).Some?
    ensures Get(Put(v, slot, choice), PathOf(s))
         == if s == slot && choice.Some? then Found(choice.value) else Get(v, PathOf(s))
  {
    if choice.Some? {
      SetWhatever(v, PathOf(slot), choice.value, Null);
      if s == slot {
        GetSet(v, PathOf(slot), choice.value);
      } else {
        SlotsAreApart(slot, s);
        Frame(v, PathOf(slot), choice.value, PathOf(s));
      }
      StaysSettable(v, PathOf(slot), choice.value, PathOf(s));
    }
  }

  // A slot dealt with holds its choice; any other slot holds the base's value.
  lemma {:induction false} SlotHolds(base: Value, req: CreateRequest, d: Defaults, slots: seq<Slot>, s: Slot)
    requires forall slot: Slot :: Set(base, PathOf(slot), Null).Some?
    ensures Set(PutAll(base, req, d, slots), PathOf(s), Null).Some?
    ensures Get(PutAll(base, req, d, slots), PathOf(s))
         == if s in slots && Choice(req, d, s).Some? then Found(Choice(req, d, s).value) else Get(base, PathOf(s))
  {
    if slots != [] {
      var before, slot := slots[..|slots| - 1], slots[|slots| - 1];
      assert slots == before + [slot];
      SlotHolds(base, req, d, before, s);
      SlotHolds(base, req, d, before, slot);
      PutSlot(PutAll(base, req, d, before), slot, Choice(req, d, slot), s);
    }
  }

  lemma OffSlot(v: Value, slot: Slot, choice: Option<Value>, q: Path)
    requires OffSlots(q)
    ensures Get(Put(v, slot, choice), q) == Get(v, q)
  {
    if choice.Some? && Set(v, PathOf(slot), choice.value).Some? {
      assert Apart(PathOf(slot), q);
      Frame(v, PathOf(slot), choice.value, q);
    }
  }

  lemma {:induction false} OffSlotsStay(base: Value, req: CreateRequest, d: Defaults, slots: seq<Slot>, q: Path)
    requires OffSlots(q)
    ensures Get(PutAll(base, req, d, slots), q) == Get(base, q)
  {
    if slots != [] {
      OffSlotsStay(base, req, d, slots[..|slots| - 1], q);
      OffSlot(PutAll(base, req, d, slots[..|slots| - 1]), slots[|slots| - 1], Choice(req, d, slots[|slots| - 1]), q);
    }
  }

  method SetIfNotEmpty(obj: Document, value: string, slot: Slot,
                       ghost base: Value, ghost req: CreateRequest, ghost d: Defaults, ghost slots: seq<Slot>)
    requires obj.root == PutAll(base, req, d, slots) && Choice(req, d, slot) == Text(value)
    modifies obj
    ensures obj.root == PutAll(base, req, d, slots + [slot])
  {
    PutSnoc(base, req, d, slots, slot);
    if value == "" { return; }
    SetChosen(obj, Str(value), slot, base, req, d, slots);
  }

  // Two settings in a row.
  method SetBothIfNotEmpty(obj: Document, value: string, slot: Slot, value': string, slot': Slot,
                           ghost base: Value, ghost req: CreateRequest, ghost d: Defaults, ghost slots: seq<Slot>)
    requires obj.root == PutAll(base, req, d, slots)
    requires Choice(req, d, slot) == Text(value) && Choice(req, d, slot') == Text(value')
    modifies obj
    ensures obj.root == PutAll(base, req, d, slots + [slot] + [slot'])
  {
    SetIfNotEmpty(obj, value, slot, base, req, d, slots);
    SetIfNotEmpty(obj, value', slot', base, req, d, slots + [slot]);
  }

  // The errors of SetNestedField are ignored.
  method SetChosen(obj: Document, x: Value, slot: Slot,
                   ghost base: Value, ghost req: CreateRequest, ghost d: Defaults, ghost slots: seq<Slot>)
    requires obj.root == PutAll(base, req, d, slots) && Choice(req, d, slot) == Some(x)
    modifies obj
    ensures obj.root == PutAll(base, req, d, slots + [slot])
  {
    PutSnoc(base, req, d, slots, slot);
    var _ := obj.SetNestedField(x, PathOf(slot));
  }

  function RoleOf(role: string): string {
    if role == "master" then "master/node" else if role == "worker" then "node" else role
  }

  method NormalizeNodeRoles(roles: seq<string>) returns (result: seq<string>)
    ensures |result| == |roles|
    ensures forall i :: 0 <= i < |roles| ==>
              result[i] == match roles[i] case "master" => "master/node" case "worker" => "node" case other => other
    ensures forall i :: 0 <= i < |roles| ==> result[i] == RoleOf(roles[i])
  {
    result := [];
    for i := 0 to |roles|
      invariant |result| == i && forall j :: 0 <= j < i ==> result[j] == RoleOf(roles[j])
    {
      match roles[i]
      case "master" => result := result + ["master/node"];
      case "worker" => result := result + ["node"];
      case _ => result := result + [roles[i]];
    }
  }

  const CLUSTER_LABEL: string := "cluster.x-k8s.io/cluster-name"

  // The document of one node: under the cluster's name, with its own fields and a usable port.
  ghost predicate IsNodeDocument(doc: Value, cluster: string, node: NodeRequest) {
    && Get(doc, ["kind"]) == Found(Str("BKENode"))
    && Get(doc, ["metadata", "name"]) == Found(Str(node.hostname))
    && Get(doc, ["metadata", "namespace"]) == Found(Str(cluster))
    && Get(doc, ["metadata", "labels", CLUSTER_LABEL]) == Found(Str(cluster))
    && Get(doc, ["spec", "hostname"]) == Found(Str(node.hostname))
    && Get(doc, ["spec", "ip"]) == Found(Str(node.ip))
    && Get(doc, ["spec", "username"]) == Found(Str(node.username))
    && Get(doc, ["spec", "password"]) == Found(Str(node.password))
    && UsablePort(Get(doc, ["spec", "port"]), node.port)
    && HasRoles(Get(doc, ["spec", "role"]), node.roles)
  }

  // Never empty and never "0": the trimmed port of the request, or 22.
  ghost predicate UsablePort(found: Lookup, requested: string) {
    && found.Found? && found.value.Str? && found.value.s != "" && found.value.s != "0"
    && (found.value.s == TrimSpace(requested) || (found.value.s == "22" && TrimSpace(requested) in {"", "0"}))
  }

  ghost predicate HasRoles(found: Lookup, roles: seq<string>) {
    && found.Found? && found.value.Arr? && |found.value.items| == |roles|
    && forall i :: 0 <= i < |roles| ==> found.value.items[i] == Str(RoleOf(roles[i]))
  }

  lemma GetOne(f: Fields, k: string)
    requires k in f
    ensures Get(Obj(f), [k]) == Found(f[k])
  {
  }

  lemma GetTwo(f: Fields, k: string, l: string)
    requires k in f && f[k].Obj? && l in f[k].fields
    ensures Get(Obj(f), [k, l]) == Found(f[k].fields[l])
  {
    assert [k, l][1..] == [l];
    GetOne(f[k].fields, l);
  }

  lemma GetThree(f: Fields, k: string, l: string, m: string)
    requires k in f && f[k].Obj? && l in f[k].fields && f[k].fields[l].Obj? && m in f[k].fields[l].fields
    ensures Get(Obj(f), [k, l, m]) == Found(f[k].fields[l].fields[m])
  {
    assert [k, l, m][1..] == [l, m];
    GetTwo(f[k].fields, l, m);
  }

  method BuildNodeYaml(clusterName: string, node: NodeRequest) returns (doc: Value)
    ensures IsNodeDocument(doc, clusterName, node)
  {
    var port := TrimSpace(node.port);
    if port == "" || port == "0" { port := "22"; }
    var role := NormalizeNodeRoles(node.roles);
    var items := seq(|role|, i requires 0 <= i < |role| => Str(role[i]));
    var labels := map[CLUSTER_LABEL := Str(clusterName)];
    var metadata := map["name" := Str(node.hostname), "namespace" := Str(clusterName), "labels" := Obj(labels)];
    var spec := map[
      "hostname" := Str(node.hostname), "ip" := Str(node.ip), "port" := Str(port),
      "username" := Str(node.username), "password" := Str(node.password), "role" := Arr(items)];
    var f := map["apiVersion" := Str("bke.bocloud.com/v1beta1"), "kind" := Str("BKENode"),
                 "metadata" := Obj(metadata), "spec" := Obj(spec)];
    doc := Obj(f);
    GetOne(f, "kind");
    GetTwo(f, "metadata", "name");
    GetTwo(f, "metadata", "namespace");
    GetThree(f, "metadata", "labels", CLUSTER_LABEL);
    GetTwo(f, "spec", "hostname");
    GetTwo(f, "spec", "ip");
    GetTwo(f, "spec", "username");
    GetTwo(f, "spec", "password");
    GetTwo(f, "spec", "port");
    GetTwo(f, "spec", "role");
  }

  // ---------- the whole build ----------

  // The cluster document: every slot but the addon list holds what the request and the defaults choose for it, or
  // else the template's value, and everything off the slots is the template's.
  ghost predicate IsClusterDocument(root: Value, req: CreateRequest, d: Defaults) {
    && (forall s: Slot :: s != AddonList ==>
          Get(root, PathOf(s)) == ChosenOrTemplate(req, d, s))
    && (forall q :: OffSlots(q) ==> Get(root, q) == Get(TEMPLATE, q))
  }

  // Its addons are the given defaults, which are the template's, merged with the request's.
  ghost predicate AddonsMerged(root: Value, defaults: seq<Value>, req: CreateRequest) {
    var addons := Get(root, PathOf(AddonList));
    addons.Found? && addons.value.Arr? && exists order :: Merged(defaults, req.addons, order, addons.value.items)
  }

  // One document per node in the order of the request, and then the cluster.
  method BuildCreateClusterYaml(req: CreateRequest, d: Defaults)
    returns (r: Option<seq<Value>>)
    ensures r.None? <==> Blank(req.name)
    ensures r.Some? ==> |r.value| == |req.nodes| + 1
    ensures r.Some? ==> forall i :: 0 <= i < |req.nodes| ==> IsNodeDocument(r.value[i], req.name, req.nodes[i])
    ensures r.Some? ==> IsClusterDocument(r.value[|req.nodes|], req, d)
    ensures r.Some? ==> AddonsMerged(r.value[|req.nodes|], TEMPLATE_ADDONS, req)
  {
    if TrimSpace(req.name) == "" { return None; }
    var root := BuildCluster(req, d);
    var docs := BuildNodes(req.name, req.nodes);
    r := Some(docs + [root]);
  }

  method BuildNodes(cluster: string, nodes: seq<NodeRequest>) returns (docs: seq<Value>)
    ensures |docs| == |nodes| && forall i :: 0 <= i < |nodes| ==> IsNodeDocument(docs[i], cluster, nodes[i])
  {
    docs := [];
    for i := 0 to |nodes|
      invariant |docs| == i && forall j :: 0 <= j < i ==> IsNodeDocument(docs[j], cluster, nodes[j])
    {
      var doc := BuildNodeYaml(cluster, nodes[i]);
      docs := docs + [doc];
    }
  }

  const PLAIN: seq<Slot> := [Name, Namespace, OpenFuyaoVersion, KubernetesVersion, RuntimeCri, AgentHealthPort,
                             HttpRepoIp, ExtraHost]

  const REPO: seq<Slot> := [ImageRepoIp, ImageRepoDomain, ImageRepoPort, ImageRepoPrefix]

  // The settings made in the template, in the source's order; an empty value sets nothing.
  method FillTemplate(obj: Document, ghost base: Value, req: CreateRequest, d: Defaults)
    requires obj.root == PutAll(base, req, d, [])
    modifies obj
    ensures obj.root == PutAll(base, req, d, PLAIN)
  {
    FillRequest(obj, base, req, d);
    ghost var done := [] + [Name] + [Namespace] + [OpenFuyaoVersion] + [KubernetesVersion];
    FillDefaults(obj, base, req, d, done);
    assert done + [RuntimeCri] + [AgentHealthPort] + [HttpRepoIp] + [ExtraHost] == PLAIN;
  }

  method FillRequest(obj: Document, ghost base: Value, req: CreateRequest, d: Defaults)
    requires obj.root == PutAll(base, req, d, [])
    modifies obj
    ensures obj.root == PutAll(base, req, d, [] + [Name] + [Namespace] + [OpenFuyaoVersion] + [KubernetesVersion])
  {
    ghost var done: seq<Slot> := [];
    SetBothIfNotEmpty(obj, req.name, Name, req.name, Namespace, base, req, d, done);
    done := done + [Name] + [Namespace];
    SetBothIfNotEmpty(obj, req.openFuyaoVersion, OpenFuyaoVersion, d.kubernetesVersion, KubernetesVersion,
                      base, req, d, done);
  }

  method FillDefaults(obj: Document, ghost base: Value, req: CreateRequest, d: Defaults, ghost start: seq<Slot>)
    requires obj.root == PutAll(base, req, d, start)
    modifies obj
    ensures obj.root == PutAll(base, req, d, start + [RuntimeCri] + [AgentHealthPort] + [HttpRepoIp] + [ExtraHost])
  {
    SetBothIfNotEmpty(obj, d.containerRuntime, RuntimeCri, d.agentHealthPort, AgentHealthPort, base, req, d, start);
    ghost var done := start + [RuntimeCri] + [AgentHealthPort];
    SetBothIfNotEmpty(obj, d.ip, HttpRepoIp, d.ip, ExtraHost, base, req, d, done);
  }

  method FillImageRepo(obj: Document, ghost base: Value, req: CreateRequest, d: Defaults)
    requires obj.root == PutAll(base, req, d, PLAIN)
    modifies obj
    ensures obj.root == PutAll(base, req, d, PLAIN + REPO)
  {
    var imageRepoDomain, imageRepoIP := TrimSpace(req.imageRepoUrl), TrimSpace(req.imageRepoIp);
    SetIfNotEmpty(obj, imageRepoIP, ImageRepoIp, base, req, d, PLAIN);
    ghost var done := PLAIN + [ImageRepoIp];
    if imageRepoDomain != "" && !Contains(imageRepoDomain, "cr.openfuyao.cn") {
      PrivateChoices(req, d);
      FillPrivateRepo(obj, imageRepoDomain, base, req, d, done);
    } else {
      SkipPrivateRepo(base, req, d, done);
    }
    assert done + [ImageRepoDomain] + [ImageRepoPort] + [ImageRepoPrefix] == PLAIN + REPO;
  }

  lemma SkipPrivateRepo(base: Value, req: CreateRequest, d: Defaults, done: seq<Slot>)
    requires !PrivateRepo(req)
    ensures PutAll(base, req, d, done + [ImageRepoDomain] + [ImageRepoPort] + [ImageRepoPrefix])
         == PutAll(base, req, d, done)
  {
    var skipped := [ImageRepoDomain, ImageRepoPort, ImageRepoPrefix];
    assert done + [ImageRepoDomain] + [ImageRepoPort] + [ImageRepoPrefix] == done + skipped;
    SkipAll(base, req, d, done, skipped);
  }

  lemma {:induction false} SkipAll(base: Value, req: CreateRequest, d: Defaults, done: seq<Slot>, skipped: seq<Slot>)
    requires forall s :: s in skipped ==> Choice(req, d, s).None?
    ensures PutAll(base, req, d, done + skipped) == PutAll(base, req, d, done)
  {
    if skipped == [] {
      assert done + skipped == done;
    } else {
      var before, s := skipped[..|skipped| - 1], skipped[|skipped| - 1];
      SkipAll(base, req, d, done, before);
      PutNone(base, req, d, done + before, s);
      assert done + skipped == done + before + [s];
    }
  }

  lemma PrivateChoices(req: CreateRequest, d: Defaults)
    requires PrivateRepo(req)
    ensures Choice(req, d, ImageRepoDomain) == Text(TrimSpace(req.imageRepoUrl))
    ensures Choice(req, d, ImageRepoPort) == Text("40443") && Choice(req, d, ImageRepoPrefix) == Text("kubernetes")
  {
  }

  // The source also "sets" otherRepo and otherRepoIp to the empty string here, which sets nothing.
  method FillPrivateRepo(obj: Document, domain: string, ghost base: Value, ghost req: CreateRequest, ghost d: Defaults,
                         ghost done: seq<Slot>)
    requires obj.root == PutAll(base, req, d, done)
    requires Choice(req, d, ImageRepoDomain) == Text(domain)
    requires Choice(req, d, ImageRepoPort) == Text("40443") && Choice(req, d, ImageRepoPrefix) == Text("kubernetes")
    modifies obj
    ensures obj.root == PutAll(base, req, d, done + [ImageRepoDomain] + [ImageRepoPort] + [ImageRepoPrefix])
  {
    SetIfNotEmpty(obj, domain, ImageRepoDomain, base, req, d, done);
    SetBothIfNotEmpty(obj, "40443", ImageRepoPort, "kubernetes", ImageRepoPrefix,
                      base, req, d, done + [ImageRepoDomain]);
  }

  method FillControlPlane(obj: Document, ghost base: Value, req: CreateRequest, d: Defaults, ghost slots: seq<Slot>)
    requires obj.root == PutAll(base, req, d, slots)
    modifies obj
    ensures obj.root == PutAll(base, req, d, slots + [ControlPlane])
  {
    if TrimSpace(req.controlPlaneEndpoint) != "" {
      var endpoint := Obj(map["host" := Str(req.controlPlaneEndpoint), "port" := Int(36443)]);
      SetChosen(obj, endpoint, ControlPlane, base, req, d, slots);
    } else {
      PutNone(base, req, d, slots, ControlPlane);
    }
  }

  // The addon list is the base's, whatever other slots have been filled before.
  method FillAddons(obj: Document, ghost base: Value, req: CreateRequest, ghost d: Defaults, ghost slots: seq<Slot>,
                    ghost defaults: seq<Value>)
    requires forall slot: Slot :: Set(base, PathOf(slot), Null).Some?
    requires Get(base, PathOf(AddonList)) == Found(Arr(defaults))
    requires obj.root == PutAll(base, req, d, slots)
    modifies obj
    ensures exists order, merged ::
              && Merged(defaults, req.addons, order, merged)
              && Set(PutAll(base, req, d, slots), PathOf(AddonList), Arr(merged)) == Some(obj.root)
  {
    SlotHolds(base, req, d, slots, AddonList);
    var addonsRaw := Get(obj.root, PathOf(AddonList));
    var merged := MergeAddons(addonsRaw.value.items, req.addons);
    ghost var order :| Merged(defaults, req.addons, order, merged);
    SetWhatever(obj.root, PathOf(AddonList), Arr(merged), Null);
    var _ := obj.SetNestedField(Arr(merged), PathOf(AddonList));
  }

  method BuildCluster(req: CreateRequest, d: Defaults) returns (root: Value)
    ensures IsClusterDocument(root, req, d) && AddonsMerged(root, TEMPLATE_ADDONS, req)
  {
    var obj := new Document(TEMPLATE);
    ghost var base := TEMPLATE;
    FillTemplate(obj, base, req, d);
    FillImageRepo(obj, base, req, d);
    FillControlPlane(obj, base, req, d, PLAIN + REPO);
    AllSlotsAreSettable(base);
    TemplateAddons(base);
    FillAddons(obj, base, req, d, PLAIN + REPO + [ControlPlane], TEMPLATE_ADDONS);
    root := obj.root;
    BuiltFromTemplate(base, req, d, PLAIN + REPO + [ControlPlane], TEMPLATE_ADDONS, root);
  }

  lemma BuiltFromTemplate(base: Value, req: CreateRequest, d: Defaults, slots: seq<Slot>, defaults: seq<Value>,
                          root: Value)
    requires base == TEMPLATE && slots == PLAIN + REPO + [ControlPlane]
    requires exists order, merged ::
               && Merged(defaults, req.addons, order, merged)
               && Set(PutAll(base, req, d, slots), PathOf(AddonList), Arr(merged)) == Some(root)
    ensures IsClusterDocument(root, req, d) && AddonsMerged(root, defaults, req)
  {
    var order, merged :|
      && Merged(defaults, req.addons, order, merged)
      && Set(PutAll(base, req, d, slots), PathOf(AddonList), Arr(merged)) == Some(root);
    BuiltIsClusterDocument(base, req, d, slots, merged);
  }

  lemma BuiltIsClusterDocument(base: Value, req: CreateRequest, d: Defaults, slots: seq<Slot>, merged: seq<Value>)
    requires base == TEMPLATE && slots == PLAIN + REPO + [ControlPlane]
    ensures var r := Set(PutAll(base, req, d, slots), PathOf(AddonList), Arr(merged));
            && r.Some? && IsClusterDocument(r.value, req, d)
            && Get(r.value, PathOf(AddonList)) == Found(Arr(merged))
  {
    var v := PutAll(base, req, d, slots);
    AllSlotsAreSettable(base);
    SlotHolds(base, req, d, slots, AddonList);
    SetWhatever(v, PathOf(AddonList), Arr(merged), Null);
    var root := Put(v, AddonList, Some(Arr(merged)));
    PutSlot(v, AddonList, Some(Arr(merged)), AddonList);
    forall s: Slot | s != AddonList
      ensures Get(root, PathOf(s)) == ChosenOrTemplate(req, d, s)
    {
      AllSlots(slots, s);
      SlotHolds(base, req, d, slots, s);
      PutSlot(v, AddonList, Some(Arr(merged)), s);
    }
    forall q | OffSlots(q)
      ensures Get(root, q) == Get(TEMPLATE, q)
    {
      OffSlotsStay(base, req, d, slots, q);
      OffSlot(v, AddonList, Some(Arr(merged)), q);
    }
  }

  lemma AllSlots(slots: seq<Slot>, s: Slot)
    requires slots == PLAIN + REPO + [ControlPlane] && s != AddonList
    ensures s in slots
  {
    assert s in PLAIN || s in REPO || s == ControlPlane;
  }

  lemma TemplateAddons(base: Value)
    requires base == TEMPLATE
    ensures Get(base, PathOf(AddonList)) == Found(Arr(TEMPLATE_ADDONS))
  {
    assert PathOf(AddonList)[1..] == ["clusterConfig", "addons"];
    GetTwo(TEMPLATE_SPEC, "clusterConfig", "addons");
  }

  lemma TemplateNamesAreDistinct(defaults: seq<Value>)
    requires defaults == TEMPLATE_ADDONS
    ensures DistinctNames(defaults)
  {
    assert AddonName(defaults[0]) == Some("kubeproxy");
    assert AddonName(defaults[1]) == Some("calico");
    assert AddonName(defaults[2]) == Some("coredns");
    assert AddonName(defaults[3]) == Some("bkeagent-deployer");
    assert AddonName(defaults[4]) == Some("openfuyao-system-controller");
  }

  const NODES: Path := ["spec", "clusterConfig", "nodes"]

  lemma NodesAreOffSlots()
    ensures OffSlots(NODES)
  {
    forall s: Slot
      ensures Apart(PathOf(s), NODES)
    {
      ApartAt(PathOf(s), NODES, if s.Name? || s.Namespace? then 0 else if s.ControlPlane? then 1 else 2);
    }
  }

  lemma TemplateHasNoNodes()
    ensures Get(TEMPLATE, NODES) == Missing
  {
    GetTwo(TEMPLATE.fields, "spec", "clusterConfig");
    assert "nodes" !in TEMPLATE_CONFIG;
    assert NODES == ["spec", "clusterConfig"] + ["nodes"];
    GetAppend(TEMPLATE, ["spec", "clusterConfig"], "nodes");
  }

  lemma KindIsOffSlots()
    ensures OffSlots(["kind"]) && Get(TEMPLATE, ["kind"]) == Found(Str("BKECluster"))
  {
    forall s: Slot
      ensures Apart(PathOf(s), ["kind"])
    {
      ApartAt(PathOf(s), ["kind"], 0);
    }
    GetOne(TEMPLATE.fields, "kind");
  }

  // A built cluster is a BKECluster without a node list.
  lemma BuiltClusterHasNoNodes(root: Value, req: CreateRequest, d: Defaults)
    requires IsClusterDocument(root, req, d)
    ensures Get(root, NODES) == Missing && Get(root, ["kind"]) == Found(Str("BKECluster"))
  {
    NodesAreOffSlots();
    TemplateHasNoNodes();
    KindIsOffSlots();
  }
}
