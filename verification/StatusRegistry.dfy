/** The registry of status processors, one per cluster, and the status that is reported for a cluster. */
module StatusRegistry {

  // The two state fields of a cluster's status.
  datatype Status = Status(health: string, cluster: string)

  datatype Cluster = Cluster(name: string, status: Status)

  // A list request; an empty field filters nothing.
  datatype ListRequest = ListRequest(name: string, status: string)

  // ---------- the reported status ----------

  const SPECIAL: set<string> := {"ScalingWorkerNodesUp", "ScalingWorkerNodesDown", "ScaleFailed", "DeleteFailed"}

  datatype Row = Row(health: string, cluster: string, text: string)

  // A row applies when either state matches; the first one that applies decides.
  const COMBINED: seq<Row> := [
    Row("Deploying", "Initializing", "Deploying"),
    Row("DeployFailed", "InitializationFailed", "DeployFailed"),
    Row("Managing", "Managing", "Healthy"),
    Row("ManageFailed", "ManageFailed", "Healthy"),
    Row("Upgrading", "Upgrading", "Upgrading"),
    Row("UpgradeFailed", "UpgradeFailed", "UpgradeFailed"),
    Row("Deleting", "Deleting", "Deleting")
  ]

  function FirstRow(rows: seq<Row>, s: Status): string {
    if rows == [] then ""
    else if s.health == rows[0].health || s.cluster == rows[0].cluster then rows[0].text
    else FirstRow(rows[1..], s)
  }

  // The reference for what is reported: a function of the current status alone.
  function StatusText(s: Status): string {
    if s.cluster in SPECIAL then s.cluster
    else if FirstRow(COMBINED, s) != "" then FirstRow(COMBINED, s)
    else if s.health in {"Healthy", "Unhealthy"} then s.health
    else "null"
  }

  lemma CombinedRows(s: Status)
    ensures FirstRow(COMBINED, s)
         == if s.health == "Deploying" || s.cluster == "Initializing" then "Deploying"
            else if s.health == "DeployFailed" || s.cluster == "InitializationFailed" then "DeployFailed"
            else if s.health == "Managing" || s.cluster == "Managing" then "Healthy"
            else if s.health == "ManageFailed" || s.cluster == "ManageFailed" then "Healthy"
            else FirstRow(COMBINED[4..], s)
    ensures FirstRow(COMBINED[4..], s)
         == if s.health == "Upgrading" || s.cluster == "Upgrading" then "Upgrading"
            else if s.health == "UpgradeFailed" || s.cluster == "UpgradeFailed" then "UpgradeFailed"
            else if s.health == "Deleting" || s.cluster == "Deleting" then "Deleting"
            else ""
  {
    assert COMBINED[0..] == COMBINED;
    RowAt(0, s);
    RowAt(1, s);
    RowAt(2, s);
    RowAt(3, s);
    RowAt(4, s);
    RowAt(5, s);
    RowAt(6, s);
    assert FirstRow(COMBINED[7..], s) == "";
  }

  lemma RowAt(i: nat, s: Status)
    requires i < |COMBINED|
    ensures FirstRow(COMBINED[i..], s)
         == if s.health == COMBINED[i].health || s.cluster == COMBINED[i].cluster then COMBINED[i].text
            else FirstRow(COMBINED[i + 1..], s)
  {
    assert COMBINED[i..][0] == COMBINED[i] && COMBINED[i..][1..] == COMBINED[i + 1..];
  }

  // What is reported, state by state: the special states first, then the first of the pairs that applies in either
  // state, then plain health.
  lemma StatusTable(s: Status)
    ensures StatusText(s)
         == if s.cluster == "ScalingWorkerNodesUp" then "ScalingWorkerNodesUp"
            else if s.cluster == "ScalingWorkerNodesDown" then "ScalingWorkerNodesDown"
            else if s.cluster == "ScaleFailed" then "ScaleFailed"
            else if s.cluster == "DeleteFailed" then "DeleteFailed"
            else if s.health == "Deploying" || s.cluster == "Initializing" then "Deploying"
            else if s.health == "DeployFailed" || s.cluster == "InitializationFailed" then "DeployFailed"
            else if s.health == "Managing" || s.cluster == "Managing" then "Healthy"
            else if s.health == "ManageFailed" || s.cluster == "ManageFailed" then "Healthy"
            else if s.health == "Upgrading" || s.cluster == "Upgrading" then "Upgrading"
            else if s.health == "UpgradeFailed" || s.cluster == "UpgradeFailed" then "UpgradeFailed"
            else if s.health == "Deleting" || s.cluster == "Deleting" then "Deleting"
            else if s.health == "Healthy" then "Healthy"
            else if s.health == "Unhealthy" then "Unhealthy"
            else "null"
  {
    CombinedRows(s);
  }

  // ---------- processors ----------

  class StatusProcessor {
    var hasBeenHealthy: bool
    ghost var reported: seq<string>  // what getStatus has returned so far

    ghost predicate Valid()
      reads this
    {
      hasBeenHealthy <==> "Healthy" in reported
    }

    constructor ()
      ensures Valid() && reported == []
    {
      hasBeenHealthy, reported := false, [];
    }

    method GetStatus(status: Status) returns (r: string)
      requires Valid()
      modifies this
      ensures Valid()
      ensures r == StatusText(status) && reported == old(reported) + [r]
    {
      r := CheckSpecialStatus(status.cluster);
      if r == "" {
        CombinedRows(status);
        r := CheckCombinedStatus(status);
      }
      if r == "" {
        r := HandleHealthStatus(status.health);
      }
      reported := reported + [r];
    }

    static method CheckSpecialStatus(status: string) returns (r: string)
      ensures r == if status in SPECIAL then status else ""
    {
      match status
      case "ScalingWorkerNodesUp" => r := "ScalingWorkerNodesUp";
      case "ScalingWorkerNodesDown" => r := "ScalingWorkerNodesDown";
      case "ScaleFailed" => r := "ScaleFailed";
      case "DeleteFailed" => r := "DeleteFailed";
      case _ => r := "";
    }

    method CheckCombinedStatus(status: Status) returns (r: string)
      modifies this`hasBeenHealthy
      ensures r == FirstRow(COMBINED, status)
      ensures hasBeenHealthy == (old(hasBeenHealthy) || r == "Healthy")
    {
      CombinedRows(status);
      if status.health == "Deploying" || status.cluster == "Initializing" { return "Deploying"; }
      if status.health == "DeployFailed" || status.cluster == "InitializationFailed" { return "DeployFailed"; }
      if status.health == "Managing" || status.cluster == "Managing" {
        hasBeenHealthy := true;
        return "Healthy";
      }
      if status.health == "ManageFailed" || status.cluster == "ManageFailed" {
        hasBeenHealthy := true;
        return "Healthy";
      }
      if status.health == "Upgrading" || status.cluster == "Upgrading" { return "Upgrading"; }
      if status.health == "UpgradeFailed" || status.cluster == "UpgradeFailed" { return "UpgradeFailed"; }
      if status.health == "Deleting" || status.cluster == "Deleting" { return "Deleting"; }
      return "";
    }

    method HandleHealthStatus(health: string) returns (r: string)
      modifies this`hasBeenHealthy
      ensures r == if health in {"Healthy", "Unhealthy"} then health else "null"
      ensures hasBeenHealthy == (old(hasBeenHealthy) || r == "Healthy")
    {
      match health
      case "Healthy" =>
        hasBeenHealthy := true;
        r := "Healthy";
      case "Unhealthy" => r := "Unhealthy";
      case _ => r := "null";
    }
  }

  // ---------- what the calls do to the histories ----------

  // What has been reported through each cluster's current processor.
  type Histories = map<string, seq<string>>

  function Report(h: Histories, c: Cluster): Histories {
    h[c.name := (if c.name in h then h[c.name] else []) + [StatusText(c.status)]]
  }

  predicate Passes(req: ListRequest, c: Cluster) {
    (req.name == "" || c.name == req.name) && (req.status == "" || c.status.health == req.status)
  }

  // Without filters every cluster is listed; a name lists the clusters of that name, a status those of that health.
  lemma PassesExactly(name: string, status: string, c: Cluster)
    ensures Passes(ListRequest("", ""), c)
    ensures name != "" ==> (Passes(ListRequest(name, ""), c) <==> c.name == name)
    ensures status != "" ==> (Passes(ListRequest("", status), c) <==> c.status.health == status)
    ensures Passes(ListRequest(name, status), c)
            <==> Passes(ListRequest(name, ""), c) && Passes(ListRequest("", status), c)
  {
  }

  function Listed(h: Histories, clusters: seq<Cluster>, req: ListRequest): Histories {
    if clusters == [] then h
    else
      var before, c := Listed(h, clusters[..|clusters| - 1], req), clusters[|clusters| - 1];
      if Passes(req, c) then Report(before, c) else before
  }

  // The statuses of the clusters that pass, in their order.
  function Statuses(clusters: seq<Cluster>, req: ListRequest): seq<string> {
    if clusters == [] then []
    else
      var c := clusters[|clusters| - 1];
      Statuses(clusters[..|clusters| - 1], req) + (if Passes(req, c) then [StatusText(c.status)] else [])
  }

  function ClusterNames(clusters: seq<Cluster>): set<string> {
    set c | c in clusters :: c.name
  }

  function Existing(h: Histories, clusters: seq<Cluster>): Histories {
    map n | n in h && n in ClusterNames(clusters) :: h[n]
  }

  // ---------- the registry ----------

  class Registry {
    var processors: map<string, StatusProcessor>

    ghost predicate Valid()
      reads this, processors.Values
    {
      && (forall n :: n in processors ==> processors[n].Valid())
      && (forall m, n :: m in processors && n in processors && m != n ==> processors[m] != processors[n])
    }

    ghost function Contents(): Histories
      reads this, processors.Values
    {
      map n | n in processors :: processors[n].reported
    }

    constructor ()
      ensures Valid() && Contents() == map[]
    {
      processors := map[];
    }

    // LoadOrStore with a new processor.
    method Processor(name: string) returns (p: StatusProcessor)
      requires Valid()
      modifies this
      ensures Valid() && name in processors && processors[name] == p
      ensures processors.Values <= old(processors.Values) + {p}
      ensures p in old(processors.Values) || fresh(p)
      ensures Contents() == if name in old(Contents()) then old(Contents()) else old(Contents())[name := []]
    {
      if name in processors { return processors[name]; }
      p := new StatusProcessor();
      processors := processors[name := p];
      assert forall n :: n in processors && n != name ==> processors[n] in old(processors.Values);
    }

    // One getStatus through the cluster's processor, as in a detail call and in each turn of a list call.
    method ReportStatus(c: Cluster) returns (r: string)
      requires Valid()
      modifies this, processors.Values
      ensures Valid() && fresh(processors.Values - old(processors.Values))
      ensures r == StatusText(c.status) && Contents() == Report(old(Contents()), c)
    {
      var p := Processor(c.name);
      ghost var h := Contents();
      assert forall n :: n in processors && n != c.name ==> processors[n] != p;
      r := p.GetStatus(c.status);
      assert Contents() == h[c.name := h[c.name] + [r]];
    }

    // cleanupStatusProcessors
    method Cleanup(clusters: seq<Cluster>)
      requires Valid()
      modifies this
      ensures Valid() && processors.Values <= old(processors.Values)
      ensures Contents() == Existing(old(Contents()), clusters)
    {
      var existing: set<string> := {};
      for i := 0 to |clusters|
        invariant existing == ClusterNames(clusters[..i])
      {
        assert clusters[..i + 1] == clusters[..i] + [clusters[i]];
        existing := existing + {clusters[i].name};
      }
      assert clusters[..|clusters|] == clusters;
      var start := processors;
      var todo := processors.Keys;
      while todo != {}
        invariant todo <= start.Keys
        invariant processors == map n | n in start && (n in todo || n in existing) :: start[n]
        decreases todo
      {
        var name :| name in todo;
        if name !in existing {
          processors := processors - {name};
        }
        todo := todo - {name};
      }
    }

    // GetClustersByQuery, once the clusters have been listed.
    method GetClustersByQuery(clusters: seq<Cluster>, req: ListRequest) returns (statuses: seq<string>)
      requires Valid()
      modifies this, processors.Values
      ensures Valid() && fresh(processors.Values - old(processors.Values))
      ensures Contents() == Listed(Existing(old(Contents()), clusters), clusters, req)
      ensures statuses == Statuses(clusters, req)
    {
      Cleanup(clusters);
      ghost var start := Contents();
      statuses := [];
      for i := 0 to |clusters|
        invariant Valid() && fresh(processors.Values - old(processors.Values))
        invariant Contents() == Listed(start, clusters[..i], req)
        invariant statuses == Statuses(clusters[..i], req)
      {
        var c := clusters[i];
        assert clusters[..i + 1][..i] == clusters[..i];
        if req.name != "" && c.name != req.name { continue; }
        if req.status != "" && c.status.health != req.status { continue; }
        var r := ReportStatus(c);
        statuses := statuses + [r];
      }
      assert clusters[..|clusters|] == clusters;
    }

    // The tail of DeleteCluster, once the cluster has been marked for deletion.
    method Forget(name: string)
      requires Valid()
      modifies this
      ensures Valid() && processors.Values <= old(processors.Values)
      ensures Contents() == old(Contents()) - {name}
    {
      processors := processors - {name};
    }

    // A run of calls, one after the other, on a new registry.
    method Replay(events: seq<Event>)
      requires Valid() && processors == map[]
      modifies this
      ensures Valid() && Contents() == Run(events)
      ensures forall n :: n in processors ==>
                (processors[n].hasBeenHealthy <==> exists i: nat :: HealthySince(events, n, i))
    {
      for i := 0 to |events|
        invariant Valid() && fresh(processors.Values)
        invariant Contents() == Run(events[..i])
      {
        assert events[..i + 1][..i] == events[..i];
        Serve(events[i]);
      }
      assert events[..|events|] == events;
      forall n | n in processors
        ensures processors[n].hasBeenHealthy <==> exists i: nat :: HealthySince(events, n, i)
      {
        HealthyExactlyWhen(events, n);
        assert Contents()[n] == processors[n].reported;
      }
    }

    method Serve(e: Event)
      requires Valid()
      modifies this, processors.Values
      ensures Valid() && fresh(processors.Values - old(processors.Values))
      ensures Contents() == Apply(old(Contents()), e)
    {
      match e
      case ListCall(clusters, req) =>
        var _ := GetClustersByQuery(clusters, req);
      case DetailCall(c) =>
        var _ := ReportStatus(c);
      case DeleteCall(name) =>
        Forget(name);
    }
  }

  // ---------- runs of calls ----------

  datatype Event =
    | ListCall(clusters: seq<Cluster>, req: ListRequest)
    | DetailCall(cluster: Cluster)
    | DeleteCall(name: string)

  function Apply(h: Histories, e: Event): Histories {
    match e
    case ListCall(clusters, req) => Listed(Existing(h, clusters), clusters, req)
    case DetailCall(c) => Report(h, c)
    case DeleteCall(name) => h - {name}
  }

  function Run(events: seq<Event>): Histories {
    if events == [] then map[] else Apply(Run(events[..|events| - 1]), events[|events| - 1])
  }

  // The call reports "Healthy" for this cluster.
  ghost predicate ReportsHealthy(e: Event, name: string) {
    match e
    case ListCall(clusters, req) =>
      exists c :: c in clusters && Passes(req, c) && c.name == name && StatusText(c.status) == "Healthy"
    case DetailCall(c) => c.name == name && StatusText(c.status) == "Healthy"
    case DeleteCall(_) => false
  }

  // The call drops this cluster's processor.
  ghost predicate Drops(e: Event, name: string) {
    match e
    case ListCall(clusters, _) => name !in ClusterNames(clusters)
    case DetailCall(_) => false
    case DeleteCall(n) => n == name
  }

  lemma {:induction false} ListedHealthy(h: Histories, clusters: seq<Cluster>, req: ListRequest, name: string)
    ensures HasHealthy(Listed(h, clusters, req), name) <==>
              || HasHealthy(h, name)
              || exists c :: c in clusters && Passes(req, c) && c.name == name && StatusText(c.status) == "Healthy"
  {
    if clusters != [] {
      var before, c := clusters[..|clusters| - 1], clusters[|clusters| - 1];
      ListedHealthy(h, before, req, name);
      assert clusters == before + [c];
    }
  }

  ghost predicate HasHealthy(h: Histories, name: string) {
    name in h && "Healthy" in h[name]
  }

  lemma StepHealthy(h: Histories, e: Event, name: string)
    ensures HasHealthy(Apply(h, e), name) <==> ReportsHealthy(e, name) || (HasHealthy(h, name) && !Drops(e, name))
  {
    match e
    case ListCall(clusters, req) => ListedHealthy(Existing(h, clusters), clusters, req, name);
    case DetailCall(_) =>
    case DeleteCall(_) =>
  }

  // Call i reports "Healthy" for the cluster, and no later call drops its processor.
  ghost predicate HealthySince(events: seq<Event>, name: string, i: nat) {
    i < |events| && ReportsHealthy(events[i], name) && forall j :: i < j < |events| ==> !Drops(events[j], name)
  }

  lemma SinceSnoc(events: seq<Event>, e: Event, name: string, i: nat)
    requires i < |events|
    ensures HealthySince(events + [e], name, i) <==> HealthySince(events, name, i) && !Drops(e, name)
  {
    var all := events + [e];
    assert all[|events|] == e && forall j :: 0 <= j < |events| ==> all[j] == events[j];
  }

  // Over every run, a cluster's current processor has reported "Healthy" exactly when some call did and no later
  // call dropped the processor. Replay says the same of the processor's flag.
  lemma {:induction false} HealthyExactlyWhen(events: seq<Event>, name: string)
    ensures HasHealthy(Run(events), name) <==> exists i: nat :: HealthySince(events, name, i)
  {
    if events != [] {
      var n := |events| - 1;
      var before, e := events[..n], events[n];
      assert events == before + [e];
      HealthyExactlyWhen(before, name);
      StepHealthy(Run(before), e, name);
      forall i: nat | i < n
        ensures HealthySince(events, name, i) <==> HealthySince(before, name, i) && !Drops(e, name)
      {
        SinceSnoc(before, e, name, i);
      }
      assert HealthySince(events, name, n) <==> ReportsHealthy(e, name);
    }
  }

  lemma {:induction false} ListedKeys(h: Histories, clusters: seq<Cluster>, req: ListRequest)
    requires req == ListRequest("", "")
    ensures Listed(h, clusters, req).Keys == h.Keys + ClusterNames(clusters)
  {
    if clusters != [] {
      var before, c := clusters[..|clusters| - 1], clusters[|clusters| - 1];
      ListedKeys(h, before, req);
      assert clusters == before + [c];
    }
  }

  // After an unfiltered list call the registry holds exactly the existing clusters.
  lemma UnfilteredListTracksClusters(h: Histories, clusters: seq<Cluster>, req: ListRequest)
    requires req == ListRequest("", "")
    ensures Apply(h, ListCall(clusters, req)).Keys == ClusterNames(clusters)
  {
    ListedKeys(Existing(h, clusters), clusters, req);
  }
}
