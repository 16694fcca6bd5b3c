/** Cluster extraction from a request path, and the request information built around it. */
module RequestPath {
  import opened GoStrings

  function SplitPath(path: string): (parts: seq<string>) {
    var trimmed := Trim(path, '/');
    if trimmed == "" then [] else Split(trimmed, '/')
  }

  datatype Extracted = Extracted(cluster: string, path: string, ok: bool)

  function ExtractCluster(prefixes: set<string>, pathname: string): Extracted {
    var parts := SplitPath(pathname);
    if |parts| < 3 || parts[0] !in prefixes then Extracted("", pathname, false)
    else
      var rest := parts[1..];
      if rest[0] != "clusters" then Extracted("", pathname, false)
      else
        var cluster := if |rest| > 1 then rest[1] else "";
        var kept := if |rest| > 2 then rest[2..] else rest;
        Extracted(cluster, Join([parts[0], Join(kept, '/')], '/'), true)
  }

  // ---------- what a path means ----------

  predicate Segment(s: string) {
    '/' !in s
  }

  predicate Segments(parts: seq<string>) {
    forall i :: 0 <= i < |parts| ==> Segment(parts[i])
  }

  lemma {:induction false} JoinEnds(parts: seq<string>)
    requires parts != [] && Segments(parts) && parts[0] != "" && parts[|parts| - 1] != ""
    ensures Join(parts, '/') != ""
    ensures Join(parts, '/')[0] == parts[0][0]
    ensures var last := parts[|parts| - 1]; Join(parts, '/')[|Join(parts, '/')| - 1] == last[|last| - 1]
  {
    if |parts| > 1 {
      JoinLast(parts[1..]);
    }
  }

  lemma {:induction false} JoinLast(parts: seq<string>)
    requires parts != [] && parts[|parts| - 1] != ""
    ensures Join(parts, '/') != ""
    ensures var last := parts[|parts| - 1]; Join(parts, '/')[|Join(parts, '/')| - 1] == last[|last| - 1]
  {
    if |parts| > 1 {
      JoinLast(parts[1..]);
    }
  }

  // Splitting a joined path gives its segments back, with or without a leading slash.
  lemma SplitPathJoin(parts: seq<string>)
    requires parts != [] && Segments(parts) && parts[0] != "" && parts[|parts| - 1] != ""
    ensures SplitPath(Join(parts, '/')) == parts
    ensures SplitPath("/" + Join(parts, '/')) == parts
  {
    var path := Join(parts, '/');
    JoinEnds(parts);
    assert parts[0][0] in parts[0] && path[0] != '/';
    assert path[|path| - 1] != '/';
    assert ("/" + path)[1..] == path;
    assert TrimLeft("/" + path, '/') == TrimLeft(path, '/') == path;
    SplitJoin(parts, '/');
  }

  lemma JoinPair(p: string, rest: seq<string>)
    requires rest != []
    ensures Join([p, Join(rest, '/')], '/') == Join([p] + rest, '/')
  {
    assert ([p] + rest)[1..] == rest;
    assert [p, Join(rest, '/')][1..] == [Join(rest, '/')];
  }

  // A path of four or more segments under a listed prefix and "clusters" is extracted from its parts.
  lemma ExtractedFromParts(prefixes: set<string>, path: string, p: string, k: string, c: string, rest: seq<string>)
    requires p in prefixes && k == "clusters" && rest != []
    requires SplitPath(path) == [p, k, c] + rest
    ensures ExtractCluster(prefixes, path) == Extracted(c, Join([p] + rest, '/'), true)
  {
    var parts := [p, k, c] + rest;
    assert parts[0] == p && parts[1..][0] == k && parts[1..][1] == c;
    assert parts[1..][2..] == rest;
    JoinPair(p, rest);
  }

  // /p/clusters/c/rest... names cluster c and is dispatched as p/rest..., which splits back into p and rest.
  lemma ClusterPathIsExtracted(prefixes: set<string>, p: string, c: string, rest: seq<string>,
                               parts: seq<string>, dispatched: seq<string>)
    requires p in prefixes && p != "" && Segment(p) && Segment(c)
    requires rest != [] && Segments(rest) && rest[|rest| - 1] != ""
    requires parts == [p, "clusters", c] + rest && dispatched == [p] + rest
    ensures ExtractCluster(prefixes, "/" + Join(parts, '/')) == Extracted(c, Join(dispatched, '/'), true)
    ensures SplitPath(Join(dispatched, '/')) == dispatched
  {
    SplitPathJoin(parts);
    ExtractedFromParts(prefixes, "/" + Join(parts, '/'), p, parts[1], c, rest);
    SplitPathJoin(dispatched);
  }

  // Splitting loses only the outer slashes of a path.
  lemma JoinSplitPath(path: string)
    requires SplitPath(path) != []
    ensures Join(SplitPath(path), '/') == Trim(path, '/')
  {
    JoinSplit(Trim(path, '/'), '/');
  }

  // Exactly the paths of three or more segments that start with a listed prefix and "clusters" are accepted. One
  // of exactly three segments names its cluster but keeps it: only its outer slashes go. A longer one loses its
  // second and third segment. A rejected path is left alone.
  lemma ExtractedExactlyWhen(prefixes: set<string>, pathname: string)
    ensures var parts := SplitPath(pathname); var r := ExtractCluster(prefixes, pathname);
            && (r.ok <==> |parts| >= 3 && parts[0] in prefixes && parts[1] == "clusters")
            && (r.ok ==> r.cluster == parts[2])
            && (r.ok && |parts| == 3 ==> r.path == Trim(pathname, '/'))
            && (r.ok && |parts| > 3 ==> r.path == Join([parts[0]] + parts[3..], '/'))
            && (!r.ok ==> r.path == pathname && r.cluster == "")
  {
    var parts := SplitPath(pathname);
    if |parts| >= 3 {
      JoinSplitPath(pathname);
      JoinPair(parts[0], parts[1..]);
      assert [parts[0]] + parts[1..] == parts;
      if |parts| > 3 {
        assert parts[1..][2..] == parts[3..];
        JoinPair(parts[0], parts[3..]);
      }
    }
  }

  // ---------- the request information ----------

  // The fields of the Kubernetes request information that this service reads.
  datatype K8sInfo = K8sInfo(path: string, apiPrefix: string, apiGroup: string, resource: string, namespace: string)

  datatype GroupResource = GroupResource(group: string, resource: string)

  datatype Scope = Global | ClusterWide | Namespaced

  datatype RequestInfo = RequestInfo(info: K8sInfo, isK8sRequest: bool, cluster: string, scope: Scope)

  class HttpRequest {
    var path: string

    constructor (path: string)
      ensures this.path == path
    {
      this.path := path;
    }
  }

  predicate IsK8sRequest(info: K8sInfo) {
    var parts := SplitPath(info.path);
    var prefix := if info.apiPrefix == "" && parts != [] then parts[0] else info.apiPrefix;
    prefix in {"api", "apis"}
  }

  // A request is for the Kubernetes API exactly when its prefix is "api" or "apis": the prefix that the resolver
  // found, or else the first segment of the path.
  lemma K8sRequestExactly(info: K8sInfo, parts: seq<string>)
    requires parts != [] && Segments(parts) && parts[0] != "" && parts[|parts| - 1] != ""
    ensures info.apiPrefix != "" ==> (IsK8sRequest(info) <==> info.apiPrefix == "api" || info.apiPrefix == "apis")
    ensures info.apiPrefix == "" && info.path == "/" + Join(parts, '/') ==>
              (IsK8sRequest(info) <==> parts[0] == "api" || parts[0] == "apis")
    ensures info.apiPrefix == "" && SplitPath(info.path) == [] ==> !IsK8sRequest(info)
  {
    SplitPathJoin(parts);
  }

  class RequestInfoFactory {
    const apiPrefixes: set<string>
    const globalResources: seq<GroupResource>
    // k8s.io/apiserver's own resolver, which is not part of this model
    const resolve: string -> (K8sInfo, bool)

    constructor (apiPrefixes: set<string>, globalResources: seq<GroupResource>, resolve: string -> (K8sInfo, bool)) {
      this.apiPrefixes, this.globalResources, this.resolve := apiPrefixes, globalResources, resolve;
    }

    method ResolveResourceScope(info: K8sInfo) returns (scope: Scope)
      ensures scope == Global <==> GroupResource(info.apiGroup, info.resource) in globalResources
      ensures scope == Namespaced ==> info.namespace != ""
      ensures scope == ClusterWide ==> info.namespace == ""
    {
      for i := 0 to |globalResources|
        invariant GroupResource(info.apiGroup, info.resource) !in globalResources[..i]
      {
        if globalResources[i] == GroupResource(info.apiGroup, info.resource) {
          return Global;
        }
      }
      return if info.namespace != "" then Namespaced else ClusterWide;
    }

    // The request's own path is rewritten only while the Kubernetes resolver looks at it.
    method NewRequestInfo(req: HttpRequest) returns (r: RequestInfo, ok: bool)
      modifies req
      ensures req.path == old(req.path)
      ensures var e := ExtractCluster(apiPrefixes, old(req.path));
              r.cluster == e.cluster && (r.info, ok) == resolve(e.path)
      ensures r.isK8sRequest <==> IsK8sRequest(r.info)
      ensures r.scope == Global <==> GroupResource(r.info.apiGroup, r.info.resource) in globalResources
      ensures r.scope == Namespaced ==> r.info.namespace != ""
      ensures r.scope == ClusterWide ==> r.info.namespace == ""
    {
      var original := req.path;
      var cluster := "";
      var e := ExtractCluster(apiPrefixes, req.path);
      if e.ok {
        cluster := e.cluster;
        req.path := e.path;
      }
      var (info, fine) := resolve(req.path);
      var scope := ResolveResourceScope(info);
      req.path := original;
      r, ok := RequestInfo(info, IsK8sRequest(info), cluster, scope), fine;
    }
  }
}
