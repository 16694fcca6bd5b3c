/** Patching a cluster document with what the patch store holds for its version, and the whole way of a
    document from the create request to the API server. */
module ClusterPatch {
  import opened Wrappers
  import opened GoStrings
  import opened Documents
  import opened ApiServer
  import opened PatchProtocol
  import opened PatchStore
  import opened PatchTheorems
  import opened Addons
  import ClusterBuild

  const CLUSTER: Path := ["spec", "clusterConfig", "cluster"]
  const VERSION: Path := ["spec", "clusterConfig", "cluster", "openFuyaoVersion"]
  const ADDONS: Path := ["spec", "clusterConfig", "addons"]
  const NODES: Path := ["spec", "clusterConfig", "nodes"]

  // getOpenFuyaoVersionFromUnstructured
  function VersionOf(root: Value): Option<string> {
    var found := Get(root, VERSION);
    if found.Found? && found.value.Str? && !Blank(found.value.s) then Some(found.value.s) else None
  }

  // unstructured.NestedSlice: None is its error, Some(None) a missing list.
  function Slice(root: Value, path: Path): Option<Option<seq<Value>>> {
    var found := Get(root, path);
    if found.Missing? then Some(None)
    else if found.Found? && found.value.Arr? then Some(Some(found.value.items))
    else None
  }

  // ---------- the version of a cluster ----------

  function WithVersions(cluster: Fields, info: PatchVersionInfo): Fields {
    cluster["openFuyaoVersion" := Str(info.openFuyaoVersion)]
           ["kubernetesVersion" := Str(info.kubernetesVersion)]
           ["containerdVersion" := Str(info.containerdVersion)]
           ["etcdVersion" := Str(info.etcdVersion)]
  }

  // The document with the four version fields of its cluster set.
  ghost predicate Versioned(root: Value, info: PatchVersionInfo, after: Value) {
    && Get(root, CLUSTER).Found? && Get(root, CLUSTER).value.Obj?
    && Set(root, CLUSTER, Obj(WithVersions(Get(root, CLUSTER).value.fields, info))) == Some(after)
  }

  lemma VersionIsInCluster(root: Value)
    requires VersionOf(root).Some?
    ensures Get(root, CLUSTER).Found? && Get(root, CLUSTER).value.Obj?
  {
    assert VERSION == CLUSTER + ["openFuyaoVersion"];
    GetAppend(root, CLUSTER, "openFuyaoVersion");
  }

  // What patching the version does, path by path: the four fields hold the patch's versions, every other field
  // of the cluster and every path apart from it is as it was.
  lemma VersionedPaths(root: Value, info: PatchVersionInfo, after: Value, key: string, q: Path)
    requires Versioned(root, info, after)
    ensures Get(after, CLUSTER + [key])
         == if key == "openFuyaoVersion" then Found(Str(info.openFuyaoVersion))
            else if key == "kubernetesVersion" then Found(Str(info.kubernetesVersion))
            else if key == "containerdVersion" then Found(Str(info.containerdVersion))
            else if key == "etcdVersion" then Found(Str(info.etcdVersion))
            else Get(root, CLUSTER + [key])
    ensures Apart(CLUSTER, q) ==> Get(after, q) == Get(root, q)
  {
    var cluster := Get(root, CLUSTER).value.fields;
    GetSet(root, CLUSTER, Obj(WithVersions(cluster, info)));
    GetAppend(root, CLUSTER, key);
    GetAppend(after, CLUSTER, key);
    if Apart(CLUSTER, q) {
      Frame(root, CLUSTER, Obj(WithVersions(cluster, info)), q);
    }
  }

  lemma VersionAfterPatch(root: Value, info: PatchVersionInfo, after: Value)
    requires Versioned(root, info, after) && ValidInfo(info)
    ensures VersionOf(after) == Some(info.openFuyaoVersion)
  {
    assert VERSION == CLUSTER + ["openFuyaoVersion"];
    VersionedPaths(root, info, after, "openFuyaoVersion", []);
  }

  lemma VersionedTwice(root: Value, info: PatchVersionInfo, once: Value)
    requires Versioned(root, info, once)
    ensures Versioned(once, info, once)
  {
    var cluster := Get(root, CLUSTER).value.fields;
    GetSet(root, CLUSTER, Obj(WithVersions(cluster, info)));
    assert WithVersions(WithVersions(cluster, info), info) == WithVersions(cluster, info);
    SetGet(once, CLUSTER);
  }

  // ---------- reading the patch ----------

  // Reading a patch starts with a version query, which online refreshes the store.
  ghost predicate Queryable(env: Env, remote: Remote, s: Store) {
    QueryWorks(env, remote, env.patchPath, s)
  }

  ghost function Queried(env: Env, remote: Remote, s: Store): Store {
    AfterQuery(env, remote, env.patchPath, s)
  }

  // The store after reading a patch, or failing to.
  ghost predicate QueriedOnce(env: Env, remote: Remote, s: Store, t: Store) {
    exists ok :: QueryOutcome(env, remote, env.patchPath, s, ok, t)
  }

  lemma NotQueried(env: Env, remote: Remote, s: Store)
    ensures QueriedOnce(env, remote, s, s)
  {
    NothingDone(env, remote, env.patchPath, s);
  }

  // The name of the ConfigMap with the patch that the document's version asks for.
  method GetPatchInfo(c: PatchClient, root: Value) returns (r: Option<string>)
    modifies c
    ensures QueriedOnce(c.env, c.remote, old(c.store), c.store)
    ensures r.Some? ==>
              && VersionOf(root).Some? && Queryable(c.env, c.remote, old(c.store))
              && c.store == Queried(c.env, c.remote, old(c.store))
              && r == LookupName(c.store, VersionOf(root).value)
    ensures old(c.NoFaults()) ==>
              r == if VersionOf(root).Some? && Queryable(c.env, c.remote, old(c.store))
                   then LookupName(Queried(c.env, c.remote, old(c.store)), VersionOf(root).value) else None
    ensures c.clock >= old(c.clock)
  {
    NotQueried(c.env, c.remote, c.store);
    var version := VersionOf(root);
    if version.None? { return None; }
    var versions := c.GetVersionsFromSource(true);
    assert QueryOutcome(c.env, c.remote, c.env.patchPath, old(c.store), versions.Some?, c.store);
    if versions.None? { return None; }
    AnswersAreIndexed(c.env, c.remote, c.env.patchPath, old(c.store), versions.value, version.value);
    if version.value !in versions.value { return None; }
    var reply := c.Read(GetConfig);
    if !reply.Object? { return None; }
    var key := KEY_PREFIX + version.value;
    if key !in reply.data || Blank(reply.data[key]) { return None; }
    r := Some(reply.data[key]);
  }

  method GetVersionFromPatchCM(c: PatchClient, name: string) returns (r: Option<PatchVersionInfo>)
    modifies c`clock
    ensures r.Some? ==> r == LookupInfo(c.env, c.store, name)
    ensures old(c.NoFaults()) ==> r == LookupInfo(c.env, c.store, name)
    ensures c.clock >= old(c.clock)
  {
    var reply := c.Read(GetPatch(name));
    if !reply.Object? { return None; }
    var version := TrimPrefix(name, VALUE_PREFIX);
    var content := Some(PatchVersionInfo("", "", "", ""));
    if version in reply.data {
      content := c.env.info(reply.data[version]);
      if content.None? { return None; }
    }
    if !ValidInfo(content.value) { return None; }
    r := content;
  }

  function LookupAddons(env: Env, s: Store, name: string): Option<seq<AddonInfo>> {
    var version := TrimPrefix(name, VALUE_PREFIX);
    if name in s.patches && version in s.patches[name] then env.addons(s.patches[name][version]) else None
  }

  method GetAddonsFromPatchCM(c: PatchClient, name: string) returns (r: Option<seq<AddonInfo>>)
    modifies c`clock
    ensures r.Some? ==> r == LookupAddons(c.env, c.store, name)
    ensures old(c.NoFaults()) ==> r == LookupAddons(c.env, c.store, name)
    ensures c.clock >= old(c.clock)
  {
    var reply := c.Read(GetPatch(name));
    if !reply.Object? { return None; }
    var version := TrimPrefix(name, VALUE_PREFIX);
    if version !in reply.data { return None; }
    r := c.env.addons(reply.data[version]);
  }

  // ---------- the three patch stages ----------

  // patchVersion, as a function of the store it reads; None is its error.
  ghost function VersionStage(env: Env, s: Store, root: Value): Option<PatchVersionInfo> {
    if VersionOf(root).None? || LookupName(s, VersionOf(root).value).None? then None
    else LookupInfo(env, s, LookupName(s, VersionOf(root).value).value)
  }

  predicate IsCluster(root: Value) {
    Get(root, ["kind"]) == Found(Str("BKECluster"))
  }

  // The cluster map is there whenever it is written: the version that led to the patch was read from it.
  method PatchVersion(c: PatchClient, obj: Document) returns (ok: bool)
    modifies c, obj
    ensures !ok ==> obj.root == old(obj.root)
    ensures !IsCluster(old(obj.root)) ==> ok && obj.root == old(obj.root) && c.store == old(c.store)
    ensures QueriedOnce(c.env, c.remote, old(c.store), c.store)
    ensures ok && IsCluster(old(obj.root)) ==>
              && Queryable(c.env, c.remote, old(c.store)) && c.store == Queried(c.env, c.remote, old(c.store))
              && exists info :: VersionStage(c.env, c.store, old(obj.root)) == Some(info)
                                && Versioned(old(obj.root), info, obj.root)
    ensures old(c.NoFaults()) && IsCluster(old(obj.root)) ==>
              (ok <==> Queryable(c.env, c.remote, old(c.store))
                       && VersionStage(c.env, Queried(c.env, c.remote, old(c.store)), old(obj.root)).Some?)
    ensures c.clock >= old(c.clock)
  {
    NotQueried(c.env, c.remote, c.store);
    if !IsCluster(obj.root) { return true; }
    var name := GetPatchInfo(c, obj.root);
    if name.None? { return false; }
    VersionIsInCluster(obj.root);
    var clusterInfo := Get(obj.root, CLUSTER).value.fields;
    var content := GetVersionFromPatchCM(c, name.value);
    if content.None? { return false; }
    clusterInfo := clusterInfo["openFuyaoVersion" := Str(content.value.openFuyaoVersion)];
    clusterInfo := clusterInfo["kubernetesVersion" := Str(content.value.kubernetesVersion)];
    clusterInfo := clusterInfo["containerdVersion" := Str(content.value.containerdVersion)];
    clusterInfo := clusterInfo["etcdVersion" := Str(content.value.etcdVersion)];
    SetGet(obj.root, CLUSTER);
    SetWhatever(obj.root, CLUSTER, Get(obj.root, CLUSTER).value, Obj(clusterInfo));
    ok := obj.SetNestedField(Obj(clusterInfo), CLUSTER);
    assert Versioned(old(obj.root), content.value, obj.root);
  }

  ghost function AddonStage(env: Env, s: Store, root: Value): Option<seq<AddonInfo>> {
    if VersionOf(root).None? || LookupName(s, VersionOf(root).value).None? then None
    else LookupAddons(env, s, LookupName(s, VersionOf(root).value).value)
  }

  ghost predicate AddonsPatched(root: Value, patch: seq<AddonInfo>, after: Value) {
    && Get(root, ADDONS).Found? && Get(root, ADDONS).value.Arr?
    && Set(root, ADDONS, Arr(PatchAll(Get(root, ADDONS).value.items, PatchMap(patch)))) == Some(after)
  }

  method PatchAddonsInfo(c: PatchClient, obj: Document) returns (ok: bool)
    modifies c, obj
    ensures !ok ==> obj.root == old(obj.root)
    ensures QueriedOnce(c.env, c.remote, old(c.store), c.store)
    ensures ok ==>
              && Queryable(c.env, c.remote, old(c.store)) && c.store == Queried(c.env, c.remote, old(c.store))
              && exists patch :: AddonStage(c.env, c.store, old(obj.root)) == Some(patch)
                                 && AddonsPatched(old(obj.root), patch, obj.root)
    ensures old(c.NoFaults()) ==>
              (ok <==> Queryable(c.env, c.remote, old(c.store))
                       && AddonStage(c.env, Queried(c.env, c.remote, old(c.store)), old(obj.root)).Some?
                       && Get(old(obj.root), ADDONS).Found? && Get(old(obj.root), ADDONS).value.Arr?)
    ensures c.clock >= old(c.clock)
  {
    var name := GetPatchInfo(c, obj.root);
    if name.None? { return false; }
    var patchAddons := GetAddonsFromPatchCM(c, name.value);
    if patchAddons.None? { return false; }
    var found := Get(obj.root, ADDONS);
    if !found.Found? || !found.value.Arr? { return false; }
    var items := found.value.items;
    var addonsRaw := new Value[|items|](i requires 0 <= i < |items| => items[i]);
    assert addonsRaw[..] == items;
    UpdateCRDAddonsWithPatch(addonsRaw, patchAddons.value);
    SetGet(obj.root, ADDONS);
    SetWhatever(obj.root, ADDONS, found.value, Arr(addonsRaw[..]));
    ok := obj.SetNestedField(Arr(addonsRaw[..]), ADDONS);
    assert AddonsPatched(old(obj.root), patchAddons.value, obj.root);
  }

  // Over an index that keeps the naming discipline, the addon stage reads the patch that the version stage read
  // exactly when that patch declares the version it is stored under.
  lemma SamePatchExactlyWhen(env: Env, s: Store, root: Value, info: PatchVersionInfo, after: Value)
    requires s.config.Some? && IndexNamed(s.config.value)
    requires VersionStage(env, s, root) == Some(info) && Versioned(root, info, after)
    ensures LookupName(s, VersionOf(root).value) == Some(NameOf(VersionOf(root).value))
    ensures VersionOf(after) == Some(info.openFuyaoVersion)
    ensures LookupName(s, VersionOf(after).value) == LookupName(s, VersionOf(root).value)
            <==> info.openFuyaoVersion == VersionOf(root).value
  {
    var v, w := VersionOf(root).value, info.openFuyaoVersion;
    VersionAfterPatch(root, info, after);
    KeysAndNames(v, w);
    KeysAndNames(w, v);
  }

  // Online the index is that of the refresh, whatever it was before, and keeps the discipline.
  lemma SamePatchAfterRefresh(env: Env, remote: Remote, s: Store, root: Value, info: PatchVersionInfo, after: Value)
    requires RefreshWorks(env, remote, env.patchPath, s)
    requires VersionStage(env, Refreshed(env, remote, env.patchPath, s), root) == Some(info)
    requires Versioned(root, info, after)
    ensures var t := Refreshed(env, remote, env.patchPath, s);
            && LookupName(t, VersionOf(root).value) == Some(NameOf(VersionOf(root).value))
            && VersionOf(after) == Some(info.openFuyaoVersion)
            && (LookupName(t, info.openFuyaoVersion) == LookupName(t, VersionOf(root).value)
                <==> info.openFuyaoVersion == VersionOf(root).value)
  {
    RefreshIsMirror(env, remote, env.patchPath, s);
    SamePatchExactlyWhen(env, Refreshed(env, remote, env.patchPath, s), root, info, after);
  }

  // Two uploads after which the stages read two different patches: the first declares the version of the second.
  lemma StagesReadTwoPatches(env: Env, s: Store, v: string, content: string, w: string, content': string, root: Value)
    returns (t: Store, info: PatchVersionInfo, after: Value)
    requires UploadWorks(env, s, content) && UploadWorks(env, s, content') && v != w && !Blank(v) && !Blank(w)
    requires env.info(content).value.openFuyaoVersion == w && VersionOf(root) == Some(v)
    ensures RunOps(env, s, [UploadOp(v, content), UploadOp(w, content')]) == Some(t)
    ensures VersionStage(env, t, root) == Some(info) && Versioned(root, info, after)
    ensures LookupName(t, VersionOf(root).value) == Some(NameOf(v))
    ensures VersionOf(after) == Some(w) && LookupName(t, w) == Some(NameOf(w)) && NameOf(v) != NameOf(w)
  {
    var ops := [UploadOp(v, content), UploadOp(w, content')];
    t := TwoUploads(env, s, ops);
    LookupFindsLastUpload(env, s, ops, 0, v, content);
    LookupFindsLastUpload(env, s, ops, 1, w, content');
    info := env.info(content).value;
    VersionIsInCluster(root);
    var cluster := Get(root, CLUSTER).value;
    SetGet(root, CLUSTER);
    SetWhatever(root, CLUSTER, cluster, Obj(WithVersions(cluster.fields, info)));
    after := Set(root, CLUSTER, Obj(WithVersions(cluster.fields, info))).value;
    VersionAfterPatch(root, info, after);
    KeysAndNames(v, w);
  }

  lemma TwoUploads(env: Env, s: Store, ops: seq<Op>) returns (t: Store)
    requires |ops| == 2 && ops[0].UploadOp? && ops[1].UploadOp?
    requires UploadWorks(env, s, ops[0].content) && UploadWorks(env, s, ops[1].content)
    ensures RunOps(env, s, ops) == Some(t)
  {
    var first := Indexed(s, ops[0].version, ops[0].content);
    UploadStores(env, s, ops[0].version, ops[0].content);
    assert ops[..1][..0] == [] && RunOps(env, s, []) == Some(s);
    assert RunOps(env, s, ops[..1]) == Some(first);
    t := Indexed(first, ops[1].version, ops[1].content);
  }

  function Nested(version: string): Value {
    Obj(map["spec" := Obj(map["clusterConfig" := Obj(map["cluster" := Obj(map["openFuyaoVersion" := Str(version)])])])])
  }

  lemma VersionOfNested(version: string)
    requires !Blank(version)
    ensures VersionOf(Nested(version)) == Some(version)
  {
    var cluster := Obj(map["openFuyaoVersion" := Str(version)]);
    var config := Obj(map["cluster" := cluster]);
    var spec := Obj(map["clusterConfig" := config]);
    assert Get(cluster, VERSION[3..]) == Found(Str(version));
    assert VERSION[2..][1..] == VERSION[3..] && Get(config, VERSION[2..]) == Get(cluster, VERSION[3..]);
    assert VERSION[1..][1..] == VERSION[2..] && Get(spec, VERSION[1..]) == Get(config, VERSION[2..]);
    assert Get(Nested(version), VERSION) == Get(spec, VERSION[1..]);
  }

  // This happens, at a concrete store and concrete contents.
  lemma StagesDoDiffer() returns (env: Env, s: Store, t: Store, info: PatchVersionInfo, after: Value)
    ensures RunOps(env, s, [UploadOp("1", "one"), UploadOp("2", "two")]) == Some(t)
    ensures VersionStage(env, t, Nested("1")) == Some(info) && Versioned(Nested("1"), info, after)
    ensures LookupName(t, "1") == Some(NameOf("1"))
    ensures VersionOf(after) == Some("2") && LookupName(t, "2") == Some(NameOf("2")) && NameOf("1") != NameOf("2")
  {
    info := PatchVersionInfo("2", "2", "2", "2");
    var declared := info;
    env := Env(_ => Some(declared), _ => None, _ => None, "deploy/", "patch/");
    s := Store(Some(map["otherRepo" := "", "onlineImage" := ""]), true, map[]);
    OnlySettings("", "");
    NotBlank("1");
    NotBlank("2");
    VersionOfNested("1");
    assert "1"[0] != "2"[0];
    t, info, after := StagesReadTwoPatches(env, s, "1", "one", "2", "two", Nested("1"));
  }

  // Then patching the version again changes nothing.
  lemma VersionStageIsIdempotent(env: Env, s: Store, root: Value, info: PatchVersionInfo, once: Value)
    requires VersionStage(env, s, root) == Some(info) && Versioned(root, info, once)
    requires info.openFuyaoVersion == VersionOf(root).value
    ensures VersionStage(env, s, once) == Some(info)
    ensures forall twice :: Versioned(once, info, twice) <==> twice == once
  {
    VersionAfterPatch(root, info, once);
    VersionedTwice(root, info, once);
  }

  lemma VersionedOver(root: Value, info: PatchVersionInfo, once: Value, other: PatchVersionInfo, twice: Value)
    requires Versioned(root, info, once)
    ensures Versioned(once, other, twice) <==> Versioned(root, other, twice)
  {
    var cluster := Get(root, CLUSTER).value.fields;
    var x, y := Obj(WithVersions(cluster, info)), Obj(WithVersions(cluster, other));
    GetSet(root, CLUSTER, x);
    SetSet(root, CLUSTER, x, y);
    assert WithVersions(WithVersions(cluster, info), other) == WithVersions(cluster, other);
  }

  lemma VersionedDiffers(root: Value, info: PatchVersionInfo, once: Value, other: PatchVersionInfo)
    requires Versioned(root, info, once) && Versioned(root, other, once)
    ensures other == info
  {
    VersionedPaths(root, info, once, "openFuyaoVersion", []);
    VersionedPaths(root, other, once, "openFuyaoVersion", []);
    VersionedPaths(root, info, once, "kubernetesVersion", []);
    VersionedPaths(root, other, once, "kubernetesVersion", []);
    VersionedPaths(root, info, once, "containerdVersion", []);
    VersionedPaths(root, other, once, "containerdVersion", []);
    VersionedPaths(root, info, once, "etcdVersion", []);
    VersionedPaths(root, other, once, "etcdVersion", []);
  }

  // Whatever version the patch declares: patching the version again reads the patch of the declared version, fails
  // when that is not indexed or not valid, and otherwise writes that patch's versions over those of the first
  // pass, as if it alone had been read; the document stays exactly when the two patches agree.
  lemma SecondVersionStage(env: Env, s: Store, root: Value, info: PatchVersionInfo, once: Value)
    requires s.config.Some? && IndexNamed(s.config.value)
    requires VersionStage(env, s, root) == Some(info) && Versioned(root, info, once)
    ensures VersionStage(env, s, once)
         == if KeyOf(info.openFuyaoVersion) in s.config.value then LookupInfo(env, s, NameOf(info.openFuyaoVersion))
            else None
    ensures forall other, twice :: Versioned(once, other, twice) <==> Versioned(root, other, twice)
    ensures forall other :: Versioned(once, other, once) <==> other == info
  {
    VersionAfterPatch(root, info, once);
    KeysAndNames(info.openFuyaoVersion, info.openFuyaoVersion);
    NamesAreNotBlank(info.openFuyaoVersion);
    VersionedTwice(root, info, once);
    forall other, twice
      ensures Versioned(once, other, twice) <==> Versioned(root, other, twice)
    {
      VersionedOver(root, info, once, other, twice);
    }
    forall other | Versioned(once, other, once)
      ensures other == info
    {
      VersionedDiffers(root, info, once, other);
    }
  }

  // ---------- CoreDNS ----------

  predicate IsCoreDNS(v: Value) {
    AddonName(v) == Some("coredns")
  }

  function Affine(addon: Fields, nodes: nat): Value {
    Obj(addon["param" := Obj(ParamMap(addon)["EnableAntiAffinity" := Str(if nodes > 1 then "true" else "false")])])
  }

  // The addons with the parameter set on the first CoreDNS among them.
  function WithAntiAffinity(addons: seq<Value>, nodes: nat): seq<Value> {
    if addons == [] then []
    else if IsCoreDNS(addons[0]) then [Affine(addons[0].fields, nodes)] + addons[1..]
    else [addons[0]] + WithAntiAffinity(addons[1..], nodes)
  }

  lemma {:induction false} AntiAffinityAt(addons: seq<Value>, nodes: nat, i: nat)
    requires i < |addons| && IsCoreDNS(addons[i])
    requires forall j :: 0 <= j < i ==> !IsCoreDNS(addons[j])
    ensures WithAntiAffinity(addons, nodes) == addons[i := Affine(addons[i].fields, nodes)]
  {
    if i > 0 {
      AntiAffinityAt(addons[1..], nodes, i - 1);
    }
  }

  // With a node list, the first addon named coredns gets EnableAntiAffinity: "true" for more than one node, else
  // "false"; its other parameters and every other addon stay.
  lemma CoreDNSIsSpread(root: Value, after: Value, nodes: seq<Value>, addons: seq<Value>, i: nat)
    requires Get(root, ["spec", "clusterConfig", "nodes"]) == Found(Arr(nodes)) && nodes != []
    requires Get(root, ["spec", "clusterConfig", "addons"]) == Found(Arr(addons)) && i < |addons|
    requires AddonName(addons[i]) == Some("coredns")
    requires forall j :: 0 <= j < i ==> AddonName(addons[j]) != Some("coredns")
    requires AntiAffinityStage(root) == Some(after)
    ensures exists x ::
              && Get(after, ["spec", "clusterConfig", "addons"]) == Found(Arr(addons[i := x]))
              && Get(x, ["param", "EnableAntiAffinity"]) == Found(Str(if |nodes| > 1 then "true" else "false"))
              && forall k :: k != "param" && k in addons[i].fields ==> Get(x, [k]) == Found(addons[i].fields[k])
  {
    AntiAffinityAt(addons, |nodes|, i);
    var x := Affine(addons[i].fields, |nodes|);
    GetSet(root, ADDONS, Arr(addons[i := x]));
    AffineRead(addons[i].fields, |nodes|);
  }

  lemma AffineRead(addon: Fields, nodes: nat)
    ensures var x := Affine(addon, nodes);
            && Get(x, ["param", "EnableAntiAffinity"]) == Found(Str(if nodes > 1 then "true" else "false"))
            && forall k :: k != "param" && k in addon ==> Get(x, [k]) == Found(addon[k])
  {
    var x := Affine(addon, nodes);
    GetPair(x.fields, "param", "EnableAntiAffinity");
    GetKey(x.fields["param"].fields, "EnableAntiAffinity");
    forall k | k != "param" && k in addon
      ensures Get(x, [k]) == Found(addon[k])
    {
      GetKey(x.fields, k);
    }
  }

  lemma {:induction false} NoAntiAffinity(addons: seq<Value>, nodes: nat)
    requires forall j :: 0 <= j < |addons| ==> !IsCoreDNS(addons[j])
    ensures WithAntiAffinity(addons, nodes) == addons
  {
    if addons != [] {
      NoAntiAffinity(addons[1..], nodes);
    }
  }

  // patchCoreDNSAntiAffinity as a function of the document; None is its error.
  ghost function AntiAffinityStage(root: Value): Option<Value> {
    match Slice(root, NODES)
    case None => None
    case Some(nodes) =>
      if nodes.None? || nodes.value == [] then Some(root)
      else match Slice(root, ADDONS)
        case None => None
        case Some(addons) =>
          if addons.None? then Some(root)
          else Set(root, ADDONS, Arr(WithAntiAffinity(addons.value, |nodes.value|)))
  }

  method PatchCoreDNSAntiAffinity(obj: Document) returns (ok: bool)
    modifies obj
    ensures ok <==> AntiAffinityStage(old(obj.root)).Some?
    ensures obj.root == if ok then AntiAffinityStage(old(obj.root)).value else old(obj.root)
  {
    var nodes := Slice(obj.root, NODES);
    if nodes.None? { return false; }
    if nodes.value.None? || |nodes.value.value| == 0 { return true; }
    var nodeCount := |nodes.value.value|;
    var enable := "false";
    if nodeCount > 1 { enable := "true"; }
    var addons := Slice(obj.root, ADDONS);
    if addons.None? { return false; }
    if addons.value.None? { return true; }
    var items := addons.value.value;
    SetGet(obj.root, ADDONS);
    for i := 0 to |items|
      invariant obj.root == old(obj.root)
      invariant forall j :: 0 <= j < i ==> !IsCoreDNS(items[j])
    {
      if !IsCoreDNS(items[i]) { continue; }
      var param := ParamMap(items[i].fields)["EnableAntiAffinity" := Str(enable)];
      var addon := items[i].fields["param" := Obj(param)];
      AntiAffinityAt(items, nodeCount, i);
      SetWhatever(obj.root, ADDONS, Arr(items), Arr(items[i := Obj(addon)]));
      ok := obj.SetNestedField(Arr(items[i := Obj(addon)]), ADDONS);
      return true;
    }
    NoAntiAffinity(items, nodeCount);
    ok := true;
  }

  // ---------- from the request to the API server ----------

  // What CreateCluster does to a cluster document before submitting it: both stages read the store s.
  ghost predicate Prepared(env: Env, s: Store, root: Value, info: PatchVersionInfo, patch: seq<AddonInfo>,
                           after: Value) {
    exists versioned, patched :: PreparedVia(env, s, root, info, patch, versioned, patched, after)
  }

  ghost predicate PreparedVia(env: Env, s: Store, root: Value, info: PatchVersionInfo, patch: seq<AddonInfo>,
                              versioned: Value, patched: Value, after: Value) {
    && VersionStage(env, s, root) == Some(info) && Versioned(root, info, versioned)
    && AddonStage(env, s, versioned) == Some(patch) && AddonsPatched(versioned, patch, patched)
    && AntiAffinityStage(patched) == Some(after)
  }

  ghost predicate Preparable(env: Env, s: Store, root: Value) {
    exists info, patch, after :: Prepared(env, s, root, info, patch, after)
  }

  // The stages of a preparation are determined by the document and the store.
  lemma PreparableStages(env: Env, s: Store, root: Value)
    requires Preparable(env, s, root)
    ensures VersionStage(env, s, root).Some?
    ensures forall info, versioned :: VersionStage(env, s, root) == Some(info) && Versioned(root, info, versioned) ==>
              && AddonStage(env, s, versioned).Some?
              && Get(versioned, ADDONS).Found? && Get(versioned, ADDONS).value.Arr?
              && forall patch, patched :: AddonStage(env, s, versioned) == Some(patch)
                                          && AddonsPatched(versioned, patch, patched) ==>
                   AntiAffinityStage(patched).Some?
  {
    var info, patch, after :| Prepared(env, s, root, info, patch, after);
    var versioned, patched :| PreparedVia(env, s, root, info, patch, versioned, patched, after);
  }

  // Online each stage refreshes the store; the second refresh changes nothing, so both stages read the store that
  // the first refresh left.
  method PrepareCluster(c: PatchClient, obj: Document) returns (ok: bool)
    requires IsCluster(obj.root)
    modifies c, obj
    ensures ok ==>
              && Queryable(c.env, c.remote, old(c.store)) && c.store == Queried(c.env, c.remote, old(c.store))
              && exists info, patch :: Prepared(c.env, c.store, old(obj.root), info, patch, obj.root)
    ensures old(c.NoFaults()) ==>
              (ok <==> Queryable(c.env, c.remote, old(c.store))
                       && Preparable(c.env, Queried(c.env, c.remote, old(c.store)), old(obj.root)))
  {
    ghost var root, start := obj.root, c.store;
    ghost var s := Queried(c.env, c.remote, start);
    if Preparable(c.env, s, root) { PreparableStages(c.env, s, root); }
    ok := PatchVersion(c, obj);
    if !ok { return; }
    ghost var versioned := obj.root;
    ghost var info :| VersionStage(c.env, s, root) == Some(info) && Versioned(root, info, versioned);
    QueryIsIdempotent(c.env, c.remote, c.env.patchPath, start);
    ok := PatchAddonsInfo(c, obj);
    if !ok { return; }
    ghost var patched := obj.root;
    ghost var patch :| AddonStage(c.env, s, versioned) == Some(patch) && AddonsPatched(versioned, patch, patched);
    ok := PatchCoreDNSAntiAffinity(obj);
    if ok {
      assert PreparedVia(c.env, s, root, info, patch, versioned, patched, obj.root);
      assert Prepared(c.env, s, root, info, patch, obj.root);
    }
  }

  lemma StagePathsAreApart()
    ensures Apart(CLUSTER, ADDONS) && Apart(CLUSTER, NODES) && Apart(ADDONS, NODES) && Apart(ADDONS, CLUSTER)
  {
    ApartAt(CLUSTER, ADDONS, 2);
    ApartAt(CLUSTER, NODES, 2);
    ApartAt(ADDONS, NODES, 2);
    ApartAt(ADDONS, CLUSTER, 2);
  }

  lemma AddonsPatchedPaths(root: Value, patch: seq<AddonInfo>, after: Value, q: Path)
    requires AddonsPatched(root, patch, after)
    ensures Get(after, ADDONS) == Found(Arr(PatchAll(Get(root, ADDONS).value.items, PatchMap(patch))))
    ensures Apart(ADDONS, q) ==> Get(after, q) == Get(root, q)
  {
    var x := Arr(PatchAll(Get(root, ADDONS).value.items, PatchMap(patch)));
    GetSet(root, ADDONS, x);
    if Apart(ADDONS, q) {
      Frame(root, ADDONS, x, q);
    }
  }

  // The CoreDNS stage does nothing to a built cluster, which has no node list.
  lemma PreparedStages(env: Env, s: Store, req: ClusterBuild.CreateRequest, d: ClusterBuild.Defaults,
                       root: Value, info: PatchVersionInfo, patch: seq<AddonInfo>, after: Value)
    returns (versioned: Value)
    requires ClusterBuild.IsClusterDocument(root, req, d)
    requires Prepared(env, s, root, info, patch, after)
    ensures ValidInfo(info)
    ensures Versioned(root, info, versioned) && AddonsPatched(versioned, patch, after)
  {
    var patched;
    versioned, patched :| PreparedVia(env, s, root, info, patch, versioned, patched, after);
    StagePathsAreApart();
    AddonsPatchedPaths(versioned, patch, patched, NODES);
    VersionedPaths(root, info, versioned, "", NODES);
    ClusterBuild.BuiltClusterHasNoNodes(root, req, d);
  }

  // A field of the cluster is the same before and after the addon stage.
  lemma AddonStageKeepsCluster(versioned: Value, patch: seq<AddonInfo>, after: Value, key: string)
    requires AddonsPatched(versioned, patch, after)
    requires Get(versioned, CLUSTER).Found? && Get(versioned, CLUSTER).value.Obj?
    ensures Get(after, CLUSTER + [key]) == Get(versioned, CLUSTER + [key])
  {
    StagePathsAreApart();
    AddonsPatchedPaths(versioned, patch, after, CLUSTER);
    GetAppend(after, CLUSTER, key);
    GetAppend(versioned, CLUSTER, key);
  }

  // What the submitted document of a created cluster holds, given the one that was built: the versions of the
  // patch, every other field of the cluster as built, the addons of the build, patched, and every path apart
  // from these as built.
  lemma PreparedVersions(env: Env, s: Store, req: ClusterBuild.CreateRequest, d: ClusterBuild.Defaults,
                         root: Value, info: PatchVersionInfo, patch: seq<AddonInfo>, after: Value, key: string)
    requires ClusterBuild.IsClusterDocument(root, req, d)
    requires Prepared(env, s, root, info, patch, after)
    ensures Get(after, CLUSTER + [key])
         == if key == "openFuyaoVersion" then Found(Str(info.openFuyaoVersion))
            else if key == "kubernetesVersion" then Found(Str(info.kubernetesVersion))
            else if key == "containerdVersion" then Found(Str(info.containerdVersion))
            else if key == "etcdVersion" then Found(Str(info.etcdVersion))
            else Get(root, CLUSTER + [key])
  {
    var versioned := PreparedStages(env, s, req, d, root, info, patch, after);
    VersionedPaths(root, info, versioned, key, []);
    GetSet(root, CLUSTER, Obj(WithVersions(Get(root, CLUSTER).value.fields, info)));
    AddonStageKeepsCluster(versioned, patch, after, key);
  }

  lemma PreparedKeepsTheRest(env: Env, s: Store, req: ClusterBuild.CreateRequest, d: ClusterBuild.Defaults,
                             root: Value, info: PatchVersionInfo, patch: seq<AddonInfo>, after: Value, q: Path)
    requires ClusterBuild.IsClusterDocument(root, req, d)
    requires Prepared(env, s, root, info, patch, after)
    ensures Get(root, ADDONS).Found? && Get(root, ADDONS).value.Arr?
    ensures Get(after, ADDONS) == Found(Arr(PatchAll(Get(root, ADDONS).value.items, PatchMap(patch))))
    ensures Apart(CLUSTER, q) && Apart(ADDONS, q) ==> Get(after, q) == Get(root, q)
  {
    var versioned := PreparedStages(env, s, req, d, root, info, patch, after);
    StagePathsAreApart();
    assert ADDONS == ClusterBuild.PathOf(ClusterBuild.AddonList);
    VersionedPaths(root, info, versioned, "", ADDONS);
    VersionedPaths(root, info, versioned, "", q);
    AddonsPatchedPaths(versioned, patch, after, q);
  }

  lemma PreparedAddons(env: Env, s: Store, req: ClusterBuild.CreateRequest, d: ClusterBuild.Defaults, root: Value,
                       info: PatchVersionInfo, patch: seq<AddonInfo>, after: Value,
                       built: seq<Value>, final: seq<Value>)
    requires ClusterBuild.IsClusterDocument(root, req, d) && Prepared(env, s, root, info, patch, after)
    requires Get(root, ADDONS) == Found(Arr(built)) && Get(after, ADDONS) == Found(Arr(final))
    ensures final == PatchAll(built, PatchMap(patch))
  {
    PreparedKeepsTheRest(env, s, req, d, root, info, patch, after, []);
  }

  // Across the whole way, each addon of a created cluster takes its parameters from the patch if that defines
  // them, else from the request, else from the defaults it was built with, which are the template's; and its
  // version and block from the patch or the default.
  lemma CreatedAddons(env: Env, s: Store, req: ClusterBuild.CreateRequest, d: ClusterBuild.Defaults,
                      root: Value, info: PatchVersionInfo, patch: seq<AddonInfo>, after: Value,
                      defaults: seq<Value>, order: seq<string>, built: seq<Value>, final: seq<Value>)
    requires ClusterBuild.IsClusterDocument(root, req, d) && Prepared(env, s, root, info, patch, after)
    requires Get(root, ADDONS) == Found(Arr(built)) && Get(after, ADDONS) == Found(Arr(final))
    requires DistinctNames(defaults) && NamedRequests(req.addons) && Merged(defaults, req.addons, order, built)
    ensures |final| == |built|
    ensures forall i :: 0 <= i < |final| ==>
              && AddonName(final[i]) == AddonName(built[i])
              && InPrecedence(defaults, RequestMap(req.addons), PatchMap(patch), final[i])
  {
    PreparedAddons(env, s, req, d, root, info, patch, after, built, final);
    AllInPrecedence(defaults, req.addons, order, built, patch);
  }

  lemma BuiltAddons(root: Value, defaults: seq<Value>, req: ClusterBuild.CreateRequest)
    returns (order: seq<string>, built: seq<Value>)
    requires ClusterBuild.AddonsMerged(root, defaults, req)
    ensures Get(root, ADDONS) == Found(Arr(built)) && Merged(defaults, req.addons, order, built)
  {
    assert ADDONS == ClusterBuild.PathOf(ClusterBuild.AddonList);
    built := Get(root, ADDONS).value.items;
    order :| Merged(defaults, req.addons, order, built);
  }

  lemma SubmittedAddons(env: Env, s: Store, req: ClusterBuild.CreateRequest, d: ClusterBuild.Defaults, root: Value,
                        info: PatchVersionInfo, patch: seq<AddonInfo>, after: Value) returns (final: seq<Value>)
    requires ClusterBuild.IsClusterDocument(root, req, d) && Prepared(env, s, root, info, patch, after)
    ensures Get(after, ADDONS) == Found(Arr(final))
  {
    PreparedKeepsTheRest(env, s, req, d, root, info, patch, after, []);
    final := Get(after, ADDONS).value.items;
  }

  // So it is for every cluster built from the template, between the addons built and the addons submitted.
  lemma CreatedFromTemplate(env: Env, s: Store, req: ClusterBuild.CreateRequest, d: ClusterBuild.Defaults, root: Value,
                            info: PatchVersionInfo, patch: seq<AddonInfo>, after: Value, defaults: seq<Value>)
    returns (built: seq<Value>, final: seq<Value>)
    requires defaults == ClusterBuild.TEMPLATE_ADDONS && NamedRequests(req.addons)
    requires ClusterBuild.IsClusterDocument(root, req, d) && ClusterBuild.AddonsMerged(root, defaults, req)
    requires Prepared(env, s, root, info, patch, after)
    ensures Get(root, ADDONS) == Found(Arr(built)) && Get(after, ADDONS) == Found(Arr(final)) && |final| == |built|
    ensures forall i :: 0 <= i < |final| ==>
              && AddonName(final[i]) == AddonName(built[i])
              && InPrecedence(defaults, RequestMap(req.addons), PatchMap(patch), final[i])
  {
    ClusterBuild.TemplateNamesAreDistinct(defaults);
    built, final := FromDistinctDefaults(env, s, req, d, root, info, patch, after, defaults);
  }

  lemma FromDistinctDefaults(env: Env, s: Store, req: ClusterBuild.CreateRequest, d: ClusterBuild.Defaults, root: Value,
                             info: PatchVersionInfo, patch: seq<AddonInfo>, after: Value, defaults: seq<Value>)
    returns (built: seq<Value>, final: seq<Value>)
    requires DistinctNames(defaults) && NamedRequests(req.addons)
    requires ClusterBuild.IsClusterDocument(root, req, d) && ClusterBuild.AddonsMerged(root, defaults, req)
    requires Prepared(env, s, root, info, patch, after)
    ensures Get(root, ADDONS) == Found(Arr(built)) && Get(after, ADDONS) == Found(Arr(final)) && |final| == |built|
    ensures forall i :: 0 <= i < |final| ==>
              && AddonName(final[i]) == AddonName(built[i])
              && InPrecedence(defaults, RequestMap(req.addons), PatchMap(patch), final[i])
  {
    var order;
    order, built := BuiltAddons(root, defaults, req);
    final := SubmittedAddons(env, s, req, d, root, info, patch, after);
    CreatedAddons(env, s, req, d, root, info, patch, after, defaults, order, built, final);
  }
}
