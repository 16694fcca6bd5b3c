/** Creating a cluster from end to end: what the built document holds at each path, and which stored patch reaches
    the cluster that is submitted. */
module ClusterCreation {
  import opened Wrappers
  import opened GoStrings
  import opened Documents
  import opened ApiServer
  import opened Newlines
  import opened PatchProtocol
  import opened PatchStore
  import opened PatchTheorems
  import opened PatchContents
  import opened Addons
  import opened ClusterBuild
  import opened ClusterPatch

  // ---------- the built document, path by path ----------

  ghost predicate TextAt(root: Value, path: Path, text: string) {
    Get(root, path) == Found(Str(text))
  }

  function Either(text: string, fallback: string): string {
    if text == "" then fallback else text
  }

  // Going down one object.
  lemma Down(fields: Fields, key: string, path: Path)
    requires key in fields && path != [] && path[0] == key
    ensures Get(Obj(fields), path) == Get(fields[key], path[1..])
  {
  }

  lemma TemplateCluster(template: Value, path: Path)
    requires template == TEMPLATE && |path| > 3
    requires path[0] == "spec" && path[1] == "clusterConfig" && path[2] == "cluster"
    ensures Get(template, path) == Get(Obj(TEMPLATE_CLUSTER), path[3..])
  {
    TemplateParts(template);
    Down(template.fields, "spec", path);
    SpecParts(TEMPLATE_SPEC);
    Down(TEMPLATE_SPEC, "clusterConfig", path[1..]);
    ConfigParts(TEMPLATE_CONFIG);
    assert path[1..][1..] == path[2..];
    Down(TEMPLATE_CONFIG, "cluster", path[2..]);
    assert path[2..][1..] == path[3..];
  }

  lemma TemplateClusterField(template: Value, cluster: Fields, key: string, text: string, path: Path)
    requires template == TEMPLATE && cluster == TEMPLATE_CLUSTER && key in cluster && cluster[key] == Str(text)
    requires path == ["spec", "clusterConfig", "cluster", key]
    ensures TextAt(template, path, text)
  {
    TemplateCluster(template, path);
    Down(cluster, key, path[3..]);
    assert path[3..][1..] == [];
  }

  lemma TemplateClusterInner(template: Value, cluster: Fields, part: string, key: string, text: string, path: Path)
    requires template == TEMPLATE && cluster == TEMPLATE_CLUSTER && part in cluster && cluster[part].Obj?
    requires key in cluster[part].fields && cluster[part].fields[key] == Str(text)
    requires path == ["spec", "clusterConfig", "cluster", part, key]
    ensures TextAt(template, path, text)
  {
    TemplateCluster(template, path);
    Down(cluster, part, path[3..]);
    assert path[3..][1..] == [key];
    Down(cluster[part].fields, key, [key]);
  }

  // A slot holds its text, or else what the template has at its path.
  lemma SlotText(root: Value, req: CreateRequest, d: Defaults, slot: Slot, path: Path, text: string, fallback: string)
    requires IsClusterDocument(root, req, d) && slot != AddonList && path == PathOf(slot)
    requires Choice(req, d, slot) == Text(text) && TextAt(TEMPLATE, path, fallback)
    ensures TextAt(root, path, Either(text, fallback))
  {
    assert Get(root, PathOf(slot)) == ChosenOrTemplate(req, d, slot);
  }

  lemma BuiltNames(root: Value, req: CreateRequest, d: Defaults)
    requires IsClusterDocument(root, req, d)
    ensures TextAt(root, ["metadata", "name"], Either(req.name, "bke-cluster"))
    ensures TextAt(root, ["metadata", "namespace"], Either(req.name, "bke-cluster"))
  {
    var template := TEMPLATE;
    TemplateParts(template);
    Down(template.fields, "metadata", ["metadata", "name"]);
    Down(template.fields, "metadata", ["metadata", "namespace"]);
    assert TextAt(template, ["metadata", "name"], "bke-cluster");
    assert TextAt(template, ["metadata", "namespace"], "bke-cluster");
    SlotText(root, req, d, Name, ["metadata", "name"], req.name, "bke-cluster");
    SlotText(root, req, d, Namespace, ["metadata", "namespace"], req.name, "bke-cluster");
  }

  lemma FieldSlot(root: Value, cluster: Fields, req: CreateRequest, d: Defaults, slot: Slot, key: string, text: string,
                  fallback: string, path: Path)
    requires IsClusterDocument(root, req, d) && slot != AddonList && path == PathOf(slot)
    requires path == ["spec", "clusterConfig", "cluster", key] && Choice(req, d, slot) == Text(text)
    requires cluster == TEMPLATE_CLUSTER && key in cluster && cluster[key] == Str(fallback)
    ensures TextAt(root, path, Either(text, fallback))
  {
    TemplateClusterField(TEMPLATE, cluster, key, fallback, path);
    SlotText(root, req, d, slot, path, text, fallback);
  }

  lemma InnerSlot(root: Value, cluster: Fields, req: CreateRequest, d: Defaults, slot: Slot, part: string, key: string,
                  text: string, fallback: string, path: Path)
    requires IsClusterDocument(root, req, d) && slot != AddonList && path == PathOf(slot)
    requires path == ["spec", "clusterConfig", "cluster", part, key] && Choice(req, d, slot) == Text(text)
    requires cluster == TEMPLATE_CLUSTER && part in cluster && cluster[part].Obj?
    requires key in cluster[part].fields && cluster[part].fields[key] == Str(fallback)
    ensures TextAt(root, path, Either(text, fallback))
  {
    TemplateClusterInner(TEMPLATE, cluster, part, key, fallback, path);
    SlotText(root, req, d, slot, path, text, fallback);
  }

  // The texts of the template's cluster that a request or a default may replace.
  lemma ClusterTexts(cluster: Fields)
    requires cluster == TEMPLATE_CLUSTER
    ensures {"openFuyaoVersion", "kubernetesVersion", "agentHealthPort"} <= cluster.Keys
    ensures cluster["openFuyaoVersion"] == Str("v00.00") && cluster["kubernetesVersion"] == Str("v1.28.8")
    ensures cluster["agentHealthPort"] == Str("58080")
  {
  }

  lemma ClusterParts(cluster: Fields)
    requires cluster == TEMPLATE_CLUSTER
    ensures {"containerRuntime", "httpRepo", "imageRepo"} <= cluster.Keys
    ensures cluster["containerRuntime"].Obj? && "cri" in cluster["containerRuntime"].fields
            && cluster["containerRuntime"].fields["cri"] == Str("containerd")
    ensures cluster["httpRepo"].Obj? && "ip" in cluster["httpRepo"].fields
            && cluster["httpRepo"].fields["ip"] == Str("192.168.100.20")
    ensures cluster["imageRepo"] == Obj(map["domain" := Str("default"), "ip" := Str(""), "port" := Str("443"),
                                            "prefix" := Str("")])
  {
  }

  // What the template has in its image repository.
  function RepoText(key: string): string {
    if key == "domain" then "default" else if key == "port" then "443" else ""
  }

  lemma RepoTexts(cluster: Fields, key: string)
    requires cluster == TEMPLATE_CLUSTER && key in {"domain", "ip", "port", "prefix"}
    ensures "imageRepo" in cluster && cluster["imageRepo"].Obj? && key in cluster["imageRepo"].fields
    ensures cluster["imageRepo"].fields[key] == Str(RepoText(key))
  {
    ClusterParts(cluster);
    assert "domain"[0] == 'd' && "ip"[0] == 'i' && "port"[1] == 'o' && "prefix"[1] == 'r' && "port"[0] == 'p';
  }

  lemma BuiltOpenFuyaoVersion(root: Value, req: CreateRequest, d: Defaults)
    requires IsClusterDocument(root, req, d)
    ensures TextAt(root, ["spec", "clusterConfig", "cluster", "openFuyaoVersion"],
                   Either(req.openFuyaoVersion, "v00.00"))
  {
    ClusterTexts(TEMPLATE_CLUSTER);
    FieldSlot(root, TEMPLATE_CLUSTER, req, d, OpenFuyaoVersion, "openFuyaoVersion", req.openFuyaoVersion, "v00.00",
              PathOf(OpenFuyaoVersion));
  }

  lemma BuiltKubernetesVersion(root: Value, req: CreateRequest, d: Defaults)
    requires IsClusterDocument(root, req, d)
    ensures TextAt(root, ["spec", "clusterConfig", "cluster", "kubernetesVersion"],
                   Either(d.kubernetesVersion, "v1.28.8"))
  {
    ClusterTexts(TEMPLATE_CLUSTER);
    FieldSlot(root, TEMPLATE_CLUSTER, req, d, KubernetesVersion, "kubernetesVersion", d.kubernetesVersion, "v1.28.8",
              PathOf(KubernetesVersion));
  }

  lemma BuiltRuntime(root: Value, req: CreateRequest, d: Defaults)
    requires IsClusterDocument(root, req, d)
    ensures TextAt(root, ["spec", "clusterConfig", "cluster", "containerRuntime", "cri"],
                   Either(d.containerRuntime, "containerd"))
  {
    ClusterParts(TEMPLATE_CLUSTER);
    InnerSlot(root, TEMPLATE_CLUSTER, req, d, RuntimeCri, "containerRuntime", "cri", d.containerRuntime, "containerd",
              PathOf(RuntimeCri));
  }

  lemma BuiltAgentPort(root: Value, req: CreateRequest, d: Defaults)
    requires IsClusterDocument(root, req, d)
    ensures TextAt(root, ["spec", "clusterConfig", "cluster", "agentHealthPort"], Either(d.agentHealthPort, "58080"))
  {
    ClusterTexts(TEMPLATE_CLUSTER);
    FieldSlot(root, TEMPLATE_CLUSTER, req, d, AgentHealthPort, "agentHealthPort", d.agentHealthPort, "58080",
              PathOf(AgentHealthPort));
  }

  lemma BuiltHttpRepo(root: Value, req: CreateRequest, d: Defaults)
    requires IsClusterDocument(root, req, d)
    ensures TextAt(root, ["spec", "clusterConfig", "cluster", "httpRepo", "ip"], Either(d.ip, "192.168.100.20"))
  {
    ClusterParts(TEMPLATE_CLUSTER);
    InnerSlot(root, TEMPLATE_CLUSTER, req, d, HttpRepoIp, "httpRepo", "ip", d.ip, "192.168.100.20",
              PathOf(HttpRepoIp));
  }

  lemma TemplateExtra(template: Value, path: Path)
    requires template == TEMPLATE && path == ["spec", "clusterConfig", "customExtra", "host"]
    ensures TextAt(template, path, "192.168.201.85")
  {
    TemplateParts(template);
    Down(template.fields, "spec", path);
    SpecParts(TEMPLATE_SPEC);
    Down(TEMPLATE_SPEC, "clusterConfig", path[1..]);
    ConfigParts(TEMPLATE_CONFIG);
    assert path[1..][1..] == path[2..];
    Down(TEMPLATE_CONFIG, "customExtra", path[2..]);
    assert path[2..][1..] == ["host"];
    Down(TEMPLATE_EXTRA, "host", ["host"]);
  }

  lemma BuiltHost(root: Value, req: CreateRequest, d: Defaults)
    requires IsClusterDocument(root, req, d)
    ensures TextAt(root, ["spec", "clusterConfig", "customExtra", "host"], Either(d.ip, "192.168.201.85"))
  {
    TemplateExtra(TEMPLATE, PathOf(ExtraHost));
    SlotText(root, req, d, ExtraHost, PathOf(ExtraHost), d.ip, "192.168.201.85");
  }

  // A repository of one's own: an address that is not blank and does not mention the public one.
  lemma PrivateExactly(req: CreateRequest)
    ensures PrivateRepo(req) <==>
              && !Spaces(req.imageRepoUrl)
              && forall i :: 0 <= i <= |TrimSpace(req.imageRepoUrl)| ==>
                   !("cr.openfuyao.cn" <= TrimSpace(req.imageRepoUrl)[i..])
  {
    BlankExactly(req.imageRepoUrl);
    ContainsExactly(TrimSpace(req.imageRepoUrl), "cr.openfuyao.cn");
  }

  lemma RepoSlot(root: Value, cluster: Fields, req: CreateRequest, d: Defaults, slot: Slot, key: string, text: string,
                 path: Path)
    requires cluster == TEMPLATE_CLUSTER
    requires IsClusterDocument(root, req, d) && slot != AddonList && path == PathOf(slot)
    requires path == ["spec", "clusterConfig", "cluster", "imageRepo", key] && Choice(req, d, slot) == Text(text)
    requires key in {"domain", "ip", "port", "prefix"}
    ensures TextAt(root, path, Either(text, RepoText(key)))
  {
    RepoTexts(cluster, key);
    InnerSlot(root, cluster, req, d, slot, "imageRepo", key, text, RepoText(key), path);
  }

  lemma BuiltRepoIp(root: Value, req: CreateRequest, d: Defaults)
    requires IsClusterDocument(root, req, d)
    ensures TextAt(root, ["spec", "clusterConfig", "cluster", "imageRepo", "ip"], TrimSpace(req.imageRepoIp))
  {
    RepoSlot(root, TEMPLATE_CLUSTER, req, d, ImageRepoIp, "ip", TrimSpace(req.imageRepoIp), PathOf(ImageRepoIp));
  }

  lemma BuiltRepoDomain(root: Value, req: CreateRequest, d: Defaults)
    requires IsClusterDocument(root, req, d)
    ensures TextAt(root, ["spec", "clusterConfig", "cluster", "imageRepo", "domain"],
                   if PrivateRepo(req) then TrimSpace(req.imageRepoUrl) else "default")
  {
    RepoSlot(root, TEMPLATE_CLUSTER, req, d, ImageRepoDomain, "domain",
             if PrivateRepo(req) then TrimSpace(req.imageRepoUrl) else "", PathOf(ImageRepoDomain));
  }

  lemma BuiltRepoPort(root: Value, req: CreateRequest, d: Defaults)
    requires IsClusterDocument(root, req, d)
    ensures TextAt(root, ["spec", "clusterConfig", "cluster", "imageRepo", "port"],
                   if PrivateRepo(req) then "40443" else "443")
  {
    RepoSlot(root, TEMPLATE_CLUSTER, req, d, ImageRepoPort, "port", if PrivateRepo(req) then "40443" else "",
             PathOf(ImageRepoPort));
  }

  lemma BuiltRepoPrefix(root: Value, req: CreateRequest, d: Defaults)
    requires IsClusterDocument(root, req, d)
    ensures TextAt(root, ["spec", "clusterConfig", "cluster", "imageRepo", "prefix"],
                   if PrivateRepo(req) then "kubernetes" else "")
  {
    RepoSlot(root, TEMPLATE_CLUSTER, req, d, ImageRepoPrefix, "prefix", if PrivateRepo(req) then "kubernetes" else "",
             PathOf(ImageRepoPrefix));
  }

  lemma TemplateEndpoint(template: Value, path: Path)
    requires template == TEMPLATE && path == ["spec", "controlPlaneEndpoint"]
    ensures Get(template, path) == Found(Obj(map[]))
  {
    TemplateParts(template);
    Down(template.fields, "spec", path);
    assert path[1..] == ["controlPlaneEndpoint"];
    Down(TEMPLATE_SPEC, "controlPlaneEndpoint", path[1..]);
  }

  // The control plane is the requested host with its fixed port, or as empty as in the template.
  lemma BuiltControlPlane(root: Value, req: CreateRequest, d: Defaults)
    requires IsClusterDocument(root, req, d)
    ensures Get(root, ["spec", "controlPlaneEndpoint"])
         == Found(Obj(if Spaces(req.controlPlaneEndpoint) then map[]
                      else map["host" := Str(req.controlPlaneEndpoint), "port" := Int(36443)]))
  {
    BlankExactly(req.controlPlaneEndpoint);
    TemplateEndpoint(TEMPLATE, PathOf(ControlPlane));
    assert Get(root, PathOf(ControlPlane)) == ChosenOrTemplate(req, d, ControlPlane);
  }

  // ---------- from the build to the patch ----------

  // The version stage patches every built document, and asks for the version of the request.
  lemma BuiltAsksForVersion(root: Value, req: CreateRequest, d: Defaults)
    requires IsClusterDocument(root, req, d)
    ensures IsCluster(root)
    ensures !Blank(req.openFuyaoVersion) ==> VersionOf(root) == Some(req.openFuyaoVersion)
  {
    BuiltClusterHasNoNodes(root, req, d);
    BuiltOpenFuyaoVersion(root, req, d);
    BlankExactly(req.openFuyaoVersion);
  }

  // The store has this content for this version, and its index leads there.
  ghost predicate HoldsContent(t: Store, version: string, content: string) {
    && t.config.Some? && "patch." + version in t.config.value && t.config.value["patch." + version] == "cm." + version
    && "cm." + version in t.patches && t.patches["cm." + version] == map[version := content]
  }

  // What the stages read for a document that asks for the version.
  lemma StagesReadContent(env: Env, t: Store, root: Value, version: string, content: string)
    requires HoldsContent(t, version, content) && VersionOf(root) == Some(version)
    ensures VersionStage(env, t, root)
         == if env.info(content).Some? && ValidInfo(env.info(content).value) then env.info(content) else None
    ensures AddonStage(env, t, root) == env.addons(content)
  {
    KeysAndNames(version, version);
    NamesAreNotBlank(version);
    assert VersionOf(root).Some? ==> !Blank(VersionOf(root).value);
  }

  // Preparing a built cluster takes its versions from the content for the requested version, and its addons from
  // the content for the version that one declares.
  lemma PreparedFromContents(env: Env, t: Store, req: CreateRequest, d: Defaults, root: Value, info: PatchVersionInfo,
                             patch: seq<AddonInfo>, after: Value, content: string, declared: string)
    requires IsClusterDocument(root, req, d) && !Blank(req.openFuyaoVersion)
    requires Prepared(env, t, root, info, patch, after) && HoldsContent(t, req.openFuyaoVersion, content)
    ensures env.info(content) == Some(info)
    ensures HoldsContent(t, info.openFuyaoVersion, declared) ==> env.addons(declared) == Some(patch)
  {
    var versioned, patched :| PreparedVia(env, t, root, info, patch, versioned, patched, after);
    BuiltAsksForVersion(root, req, d);
    StagesReadContent(env, t, root, req.openFuyaoVersion, content);
    VersionAfterPatch(root, info, versioned);
    if HoldsContent(t, info.openFuyaoVersion, declared) {
      StagesReadContent(env, t, versioned, info.openFuyaoVersion, declared);
    }
  }

  lemma LastUploadIsHeld(env: Env, s: Store, ops: seq<Op>, i: nat, version: string, content: string)
    requires RunOps(env, s, ops).Some? && LastUpload(ops, i, version, content)
    ensures HoldsContent(RunOps(env, s, ops).value, version, content)
  {
    UploadIsStored(env, s, ops, i, version, content);
  }

  // After any run of successful uploads and queries offline: a cluster built for version v and prepared has the
  // versions of the patch last uploaded for v, and its addons are those of the template, merged with the request
  // and patched with the addons that the last upload for the declared version lists.
  lemma CreatedFromUploads(env: Env, s: Store, ops: seq<Op>, i: nat, content: string, j: nat, declared: string,
                           req: CreateRequest, d: Defaults, root: Value, info: PatchVersionInfo, patch: seq<AddonInfo>,
                           after: Value, defaults: seq<Value>)
    returns (built: seq<Value>, final: seq<Value>)
    requires RunOps(env, s, ops).Some? && !Blank(req.openFuyaoVersion)
    requires LastUpload(ops, i, req.openFuyaoVersion, content) && LastUpload(ops, j, info.openFuyaoVersion, declared)
    requires defaults == TEMPLATE_ADDONS && NamedRequests(req.addons)
    requires IsClusterDocument(root, req, d) && AddonsMerged(root, defaults, req)
    requires Prepared(env, RunOps(env, s, ops).value, root, info, patch, after)
    ensures env.info(content) == Some(info) && env.addons(declared) == Some(patch)
    ensures Get(root, ADDONS) == Found(Arr(built)) && Get(after, ADDONS) == Found(Arr(final)) && |final| == |built|
    ensures forall k :: 0 <= k < |final| ==>
              && AddonName(final[k]) == AddonName(built[k])
              && InPrecedence(defaults, RequestMap(req.addons), PatchMap(env.addons(declared).value), final[k])
  {
    var t := RunOps(env, s, ops).value;
    LastUploadIsHeld(env, s, ops, i, req.openFuyaoVersion, content);
    LastUploadIsHeld(env, s, ops, j, info.openFuyaoVersion, declared);
    PreparedFromContents(env, t, req, d, root, info, patch, after, content, declared);
    built, final := CreatedFromTemplate(env, t, req, d, root, info, patch, after, defaults);
  }

  // The last item of this version in a remote index, and its file's body, normalised.
  ghost predicate LastRemote(items: seq<map<string, string>>, remote: Remote, path: string, i: nat, f: string,
                             version: string, content: string) {
    && IsLastItem(items, i) && items[i]["openFuyaoVersion"] == version && NamesFile(items[i], f)
    && remote(path + f).Some? && content == Normalise(remote(path + f).value)
  }

  lemma LastRemoteIsHeld(env: Env, remote: Remote, s: Store, items: seq<map<string, string>>, i: nat, f: string,
                         version: string, content: string)
    requires RefreshWorks(env, remote, env.patchPath, s) && Serves(env, remote, env.patchPath, items)
    requires LastRemote(items, remote, env.patchPath, i, f, version, content)
    ensures HoldsContent(Refreshed(env, remote, env.patchPath, s), version, content)
  {
    RefreshStoresItems(env, remote, env.patchPath, s, items, i, f);
  }

  // The same online, of the files that the remote index lists last for the two versions.
  lemma CreatedFromRemote(env: Env, remote: Remote, s: Store, items: seq<map<string, string>>, i: nat, f: string,
                          content: string, j: nat, g: string, declared: string, req: CreateRequest, d: Defaults,
                          root: Value, info: PatchVersionInfo, patch: seq<AddonInfo>, after: Value,
                          defaults: seq<Value>)
    returns (built: seq<Value>, final: seq<Value>)
    requires RefreshWorks(env, remote, env.patchPath, s) && Serves(env, remote, env.patchPath, items)
    requires !Blank(req.openFuyaoVersion)
    requires LastRemote(items, remote, env.patchPath, i, f, req.openFuyaoVersion, content)
    requires LastRemote(items, remote, env.patchPath, j, g, info.openFuyaoVersion, declared)
    requires defaults == TEMPLATE_ADDONS && NamedRequests(req.addons)
    requires IsClusterDocument(root, req, d) && AddonsMerged(root, defaults, req)
    requires Prepared(env, Refreshed(env, remote, env.patchPath, s), root, info, patch, after)
    ensures env.info(content) == Some(info) && env.addons(declared) == Some(patch)
    ensures Get(root, ADDONS) == Found(Arr(built)) && Get(after, ADDONS) == Found(Arr(final)) && |final| == |built|
    ensures forall k :: 0 <= k < |final| ==>
              && AddonName(final[k]) == AddonName(built[k])
              && InPrecedence(defaults, RequestMap(req.addons), PatchMap(env.addons(declared).value), final[k])
  {
    var t := Refreshed(env, remote, env.patchPath, s);
    LastRemoteIsHeld(env, remote, s, items, i, f, req.openFuyaoVersion, content);
    LastRemoteIsHeld(env, remote, s, items, j, g, info.openFuyaoVersion, declared);
    PreparedFromContents(env, t, req, d, root, info, patch, after, content, declared);
    built, final := CreatedFromTemplate(env, t, req, d, root, info, patch, after, defaults);
  }
}
