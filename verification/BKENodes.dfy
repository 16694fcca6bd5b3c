/** Creating and deleting the BKENode objects of a cluster, under calls that fail. */
module BKENodes {
  import opened Wrappers
  import opened GoStrings

  datatype ClusterNode = ClusterNode(
    hostname: string, ip: string, port: string, username: string, password: string, role: seq<string>)

  // The stored object: its namespace also labels it with its cluster.
  datatype NodeObject = NodeObject(clusterLabel: string, spec: ClusterNode)

  // By namespace and name.
  type Store = map<(string, string), NodeObject>

  // A refused call has no effect; a lost reply hides a call that was carried out.
  datatype Fate = Served | Refused | ReplyLost

  // Failed names the call that failed for a reason of its own.
  datatype Error = AlreadyExists | NotFound | Invalid | Failed(call: nat)

  // The host name, or else the IP with its dots replaced.
  function NodeName(n: ClusterNode): string {
    if n.hostname == "" then ReplaceAll(n.ip, ".", "-") else n.hostname
  }

  // ---------- the API server ----------

  // An object needs a name.
  function Create(s: Store, ns: string, name: string, obj: NodeObject): (Store, Option<Error>) {
    if name == "" then (s, Some(Invalid))
    else if (ns, name) in s then (s, Some(AlreadyExists))
    else (s[(ns, name) := obj], None)
  }

  function Delete(s: Store, ns: string, name: string): (Store, Option<Error>) {
    if (ns, name) in s then (s - {(ns, name)}, None) else (s, Some(NotFound))
  }

  // ---------- what the operations come to ----------

  // One uninterrupted run of createBKENodes, which stops at a node without a name.
  function CreateRun(s: Store, ns: string, nodes: seq<ClusterNode>): Store
    decreases nodes
  {
    if nodes == [] || NodeName(nodes[0]) == "" then s
    else CreateRun(Create(s, ns, NodeName(nodes[0]), NodeObject(ns, nodes[0])).0, ns, nodes[1..])
  }

  predicate AllNamed(nodes: seq<ClusterNode>) {
    forall i :: 0 <= i < |nodes| ==> NodeName(nodes[i]) != ""
  }

  lemma {:induction false} CreateRunSnoc(s: Store, ns: string, nodes: seq<ClusterNode>, n: ClusterNode)
    ensures AllNamed(nodes) ==>
              CreateRun(s, ns, nodes + [n]) == Create(CreateRun(s, ns, nodes), ns, NodeName(n), NodeObject(ns, n)).0
    ensures !AllNamed(nodes) ==> CreateRun(s, ns, nodes + [n]) == CreateRun(s, ns, nodes)
    decreases nodes
  {
    if nodes == [] {
      assert ([] + [n])[1..] == [];
    } else {
      assert (nodes + [n])[1..] == nodes[1..] + [n];
      if NodeName(nodes[0]) != "" {
        CreateRunSnoc(Create(s, ns, NodeName(nodes[0]), NodeObject(ns, nodes[0])).0, ns, nodes[1..], n);
        assert AllNamed(nodes) <==> AllNamed(nodes[1..]);
      }
    }
  }

  lemma {:induction false} CreateRunStops(s: Store, ns: string, nodes: seq<ClusterNode>, i: nat)
    requires i < |nodes| && NodeName(nodes[i]) == ""
    ensures CreateRun(s, ns, nodes) == CreateRun(s, ns, nodes[..i])
    decreases nodes
  {
    if i > 0 {
      assert nodes[..i][1..] == nodes[1..][..i - 1];
      CreateRunStops(Create(s, ns, NodeName(nodes[0]), NodeObject(ns, nodes[0])).0, ns, nodes[1..], i - 1);
    }
  }

  lemma {:induction false} CreateRunKeeps(s: Store, ns: string, nodes: seq<ClusterNode>, key: (string, string))
    requires key in s
    ensures key in CreateRun(s, ns, nodes) && CreateRun(s, ns, nodes)[key] == s[key]
    decreases nodes
  {
    if nodes != [] && NodeName(nodes[0]) != "" {
      CreateRunKeeps(Create(s, ns, NodeName(nodes[0]), NodeObject(ns, nodes[0])).0, ns, nodes[1..], key);
    }
  }

  // Running again after an interrupted run comes to the same as one uninterrupted run.
  lemma {:induction false} RerunConverges(s: Store, ns: string, nodes: seq<ClusterNode>, k: nat)
    requires k <= |nodes|
    ensures CreateRun(CreateRun(s, ns, nodes[..k]), ns, nodes) == CreateRun(s, ns, nodes)
    decreases nodes
  {
    if k > 0 && NodeName(nodes[0]) != "" {
      var s1 := Create(s, ns, NodeName(nodes[0]), NodeObject(ns, nodes[0])).0;
      assert nodes[..k][1..] == nodes[1..][..k - 1];
      CreateRunKeeps(s1, ns, nodes[1..][..k - 1], (ns, NodeName(nodes[0])));
      RerunConverges(s1, ns, nodes[1..], k - 1);
    }
  }

  // The store after attempts that were interrupted after ks[0], ks[1], ... nodes.
  function Attempts(s: Store, ns: string, nodes: seq<ClusterNode>, ks: seq<nat>): Store
    requires forall i :: 0 <= i < |ks| ==> ks[i] <= |nodes|
    decreases ks
  {
    if ks == [] then s else Attempts(CreateRun(s, ns, nodes[..ks[0]]), ns, nodes, ks[1..])
  }

  // However many attempts failed, and wherever they did, a last complete one leaves the store of a single run.
  lemma {:induction false} RetriesConverge(s: Store, ns: string, nodes: seq<ClusterNode>, ks: seq<nat>)
    requires forall i :: 0 <= i < |ks| ==> ks[i] <= |nodes|
    ensures CreateRun(Attempts(s, ns, nodes, ks), ns, nodes) == CreateRun(s, ns, nodes)
    decreases ks
  {
    if ks != [] {
      RetriesConverge(CreateRun(s, ns, nodes[..ks[0]]), ns, nodes, ks[1..]);
      RerunConverges(s, ns, nodes, ks[0]);
    }
  }

  function Keys(ns: string, names: seq<string>): set<(string, string)> {
    set n | n in names && n != "" :: (ns, n)
  }

  // How many calls deleting these names takes: one for each that is not empty.
  function Calls(names: seq<string>): nat {
    if names == [] then 0 else Calls(names[..|names| - 1]) + (if names[|names| - 1] == "" then 0 else 1)
  }

  function Names(nodes: seq<ClusterNode>): seq<string> {
    seq(|nodes|, i requires 0 <= i < |nodes| => NodeName(nodes[i]))
  }

  lemma {:induction false} CreateRunAdds(s: Store, ns: string, nodes: seq<ClusterNode>)
    ensures CreateRun(s, ns, nodes) - Keys(ns, Names(nodes)) == s - Keys(ns, Names(nodes))
    decreases nodes
  {
    if nodes != [] && NodeName(nodes[0]) != "" {
      var s1 := Create(s, ns, NodeName(nodes[0]), NodeObject(ns, nodes[0])).0;
      CreateRunAdds(s1, ns, nodes[1..]);
      assert Names(nodes) == [NodeName(nodes[0])] + Names(nodes[1..]);
      assert Keys(ns, Names(nodes)) == {(ns, NodeName(nodes[0]))} + Keys(ns, Names(nodes[1..]));
      var t := CreateRun(s, ns, nodes);
      assert t - Keys(ns, Names(nodes)) == t - Keys(ns, Names(nodes[1..])) - {(ns, NodeName(nodes[0]))};
      assert s1 - Keys(ns, Names(nodes)) == s1 - Keys(ns, Names(nodes[1..])) - {(ns, NodeName(nodes[0]))};
    }
  }

  // Creating nodes of fresh names and deleting them again restores the store.
  lemma CreateThenDelete(s: Store, ns: string, nodes: seq<ClusterNode>)
    requires Keys(ns, Names(nodes)) !! s.Keys
    ensures CreateRun(s, ns, nodes) - Keys(ns, Names(nodes)) == s
  {
    CreateRunAdds(s, ns, nodes);
  }

  lemma {:induction false} DashedExactly(ip: string)
    ensures var name := ReplaceAll(ip, ".", "-");
            |name| == |ip| && forall k :: 0 <= k < |ip| ==> name[k] == if ip[k] == '.' then '-' else ip[k]
  {
    if ip != "" {
      DotsReplaced(ip);
      DashedExactly(ip[1..]);
    }
  }

  // name is the node's host name, or without one its IP with dashes for dots.
  ghost predicate IsNameOf(n: ClusterNode, name: string) {
    if n.hostname != "" then name == n.hostname
    else |name| == |n.ip| && forall k :: 0 <= k < |name| ==> name[k] == if n.ip[k] == '.' then '-' else n.ip[k]
  }

  lemma NameExactly(n: ClusterNode, name: string)
    ensures IsNameOf(n, name) <==> name == NodeName(n)
  {
    DashedExactly(n.ip);
    if IsNameOf(n, name) && n.hostname == "" {
      assert forall k :: 0 <= k < |name| ==> name[k] == NodeName(n)[k];
    }
  }

  // A complete run has created the object of each node: under the cluster's namespace and label, by the node's
  // name, with the node's own fields, unless the name was there before or belongs to an earlier node.
  lemma {:induction false} CreatedObjects(s: Store, ns: string, nodes: seq<ClusterNode>, i: nat, name: string)
    requires i < |nodes| && AllNamed(nodes) && IsNameOf(nodes[i], name) && (ns, name) !in s
    requires forall j :: 0 <= j < i ==> !IsNameOf(nodes[j], name)
    ensures (ns, name) in CreateRun(s, ns, nodes)
    ensures CreateRun(s, ns, nodes)[(ns, name)] == NodeObject(ns, nodes[i])
    decreases nodes
  {
    NameExactly(nodes[0], name);
    var t := Create(s, ns, NodeName(nodes[0]), NodeObject(ns, nodes[0])).0;
    if i == 0 {
      CreateRunKeeps(t, ns, nodes[1..], (ns, name));
    } else {
      assert !IsNameOf(nodes[0], name);
      CreatedObjects(t, ns, nodes[1..], i - 1, name);
    }
  }

  // Distinct IPs without hyphens get distinct fallback names.
  lemma {:induction false} FallbackNameInjective(a: string, b: string)
    requires '-' !in a && '-' !in b
    requires ReplaceAll(a, ".", "-") == ReplaceAll(b, ".", "-")
    ensures a == b
  {
    DotsReplaced(a);
    DotsReplaced(b);
    if a != "" {
      assert ReplaceAll(a, ".", "-")[1..] == ReplaceAll(a[1..], ".", "-");
      assert ReplaceAll(b, ".", "-")[1..] == ReplaceAll(b[1..], ".", "-");
      FallbackNameInjective(a[1..], b[1..]);
      assert a == [a[0]] + a[1..] && b == [b[0]] + b[1..];
    }
  }

  // Dots are replaced one by one.
  lemma DotsReplaced(s: string)
    ensures s != "" ==> ReplaceAll(s, ".", "-") == [if s[0] == '.' then '-' else s[0]] + ReplaceAll(s[1..], ".", "-")
  {
    if s != "" {
      assert "." <= s <==> s[0] == '.';
    }
  }

  // ---------- the client ----------

  class NodeClient {
    const fate: nat -> Fate
    var store: Store
    var clock: nat

    constructor (fate: nat -> Fate, store: Store)
      ensures this.fate == fate && this.store == store && clock == 0
    {
      this.fate, this.store, this.clock := fate, store, 0;
    }

    ghost predicate AllServed()
      reads this
    {
      forall n :: n >= clock ==> fate(n) == Served
    }

    method CallCreate(ns: string, name: string, obj: NodeObject) returns (err: Option<Error>)
      modifies this
      ensures clock == old(clock) + 1
      ensures store == if fate(old(clock)) == Refused then old(store) else Create(old(store), ns, name, obj).0
      ensures err == if fate(old(clock)) == Served then Create(old(store), ns, name, obj).1
                     else Some(Failed(old(clock)))
    {
      var (after, answer) := Create(store, ns, name, obj);
      if fate(clock) != Refused { store := after; }
      err := if fate(clock) == Served then answer else Some(Failed(clock));
      clock := clock + 1;
    }

    method CallDelete(ns: string, name: string) returns (err: Option<Error>)
      modifies this
      ensures clock == old(clock) + 1
      ensures store == if fate(old(clock)) == Refused then old(store) else Delete(old(store), ns, name).0
      ensures err == if fate(old(clock)) == Served then Delete(old(store), ns, name).1 else Some(Failed(old(clock)))
    {
      var (after, answer) := Delete(store, ns, name);
      if fate(clock) != Refused { store := after; }
      err := if fate(clock) == Served then answer else Some(Failed(clock));
      clock := clock + 1;
    }

    // Wherever it stops, the store is that of an uninterrupted run over a prefix of the nodes.
    method CreateBKENodes(ns: string, nodes: seq<ClusterNode>) returns (err: Option<Error>)
      modifies this
      ensures exists k: nat :: k <= |nodes| && store == CreateRun(old(store), ns, nodes[..k])
      ensures err.None? ==> AllNamed(nodes) && store == CreateRun(old(store), ns, nodes)
      ensures old(AllServed()) ==> store == CreateRun(old(store), ns, nodes) && (err.None? <==> AllNamed(nodes))
    {
      for i := 0 to |nodes|
        invariant AllNamed(nodes[..i]) && store == CreateRun(old(store), ns, nodes[..i])
        invariant clock >= old(clock)
      {
        var n := nodes[i];
        var name := n.hostname;
        if name == "" {
          name := ReplaceAll(n.ip, ".", "-");
        }
        assert nodes[..i + 1] == nodes[..i] + [n];
        CreateRunSnoc(old(store), ns, nodes[..i], n);
        err := CallCreate(ns, name, NodeObject(ns, n));
        if err.Some? && err.value != AlreadyExists {
          if name == "" { CreateRunStops(old(store), ns, nodes, i); }
          assert store == CreateRun(old(store), ns, nodes[..i]) || store == CreateRun(old(store), ns, nodes[..i + 1]);
          return;
        }
      }
      assert nodes[..|nodes|] == nodes;
      err := None;
    }

    // Every name that is not empty is attempted, whatever failed before: exactly the objects whose own call took
    // effect are gone. The first failure other than "not found" is reported.
    method DeleteBKENodes(ns: string, nodeNames: seq<string>) returns (firstErr: Option<Error>)
      modifies this
      ensures clock == old(clock) + Calls(nodeNames)
      ensures store == old(store) - Reached(fate, old(clock), ns, nodeNames)
      ensures forall j: nat :: TakesEffect(fate, old(clock), nodeNames, j) ==> (ns, nodeNames[j]) !in store
      ensures FirstFailure(fate, old(clock), clock, firstErr)
      ensures firstErr.None? ==> store == old(store) - Keys(ns, nodeNames)
      ensures DeletedAtMost(old(store), Keys(ns, nodeNames), store)
      ensures old(AllServed()) ==> firstErr.None?
    {
      firstErr := None;
      for i := 0 to |nodeNames|
        invariant DeletedSoFar(fate, old(clock), old(store), ns, nodeNames[..i], clock, firstErr, store)
      {
        var name := nodeNames[i];
        assert nodeNames[..i + 1] == nodeNames[..i] + [name];
        if name == "" {
          DeletedSkips(fate, old(clock), old(store), ns, nodeNames[..i], clock, firstErr, store);
          continue;
        }
        DeletedNext(fate, old(clock), old(store), ns, nodeNames[..i], clock, firstErr, store, name);
        var err := CallDelete(ns, name);
        if err.Some? {
          if err.value == NotFound { continue; }
          if firstErr.None? { firstErr := err; }
        }
      }
      assert nodeNames[..|nodeNames|] == nodeNames;
      ReachedKeys(fate, old(clock), ns, nodeNames);
      AllReachedAreGone(fate, old(clock), ns, nodeNames, old(store));
    }
  }

  // Name j is attempted by its own call, which comes after those for the names before it, and takes effect.
  ghost predicate TakesEffect(fate: nat -> Fate, start: nat, names: seq<string>, j: nat) {
    j < |names| && names[j] != "" && fate(start + Calls(names[..j])) != Refused
  }

  ghost function Reached(fate: nat -> Fate, start: nat, ns: string, names: seq<string>): set<(string, string)> {
    if names == [] then {}
    else
      var last := |names| - 1;
      Reached(fate, start, ns, names[..last])
      + (if TakesEffect(fate, start, names, last) then {(ns, names[last])} else {})
  }

  // The objects reached are exactly those whose own call took effect.
  lemma {:induction false} ReachedExactly(fate: nat -> Fate, start: nat, ns: string, names: seq<string>,
                                          key: (string, string))
    ensures key in Reached(fate, start, ns, names)
            <==> exists j: nat :: TakesEffect(fate, start, names, j) && key == (ns, names[j])
  {
    if names != [] {
      var before := names[..|names| - 1];
      ReachedExactly(fate, start, ns, before, key);
      forall j: nat | j < |before|
        ensures TakesEffect(fate, start, before, j) <==> TakesEffect(fate, start, names, j)
      {
        assert before[..j] == names[..j];
      }
      if key in Reached(fate, start, ns, before) {
        var j: nat :| TakesEffect(fate, start, before, j) && key == (ns, before[j]);
        assert TakesEffect(fate, start, names, j);
      }
    }
  }

  // The first failing call of a stretch, if any.
  ghost predicate FirstFailure(fate: nat -> Fate, start: nat, end: nat, err: Option<Error>) {
    match err
    case None => forall c :: start <= c < end ==> fate(c) == Served
    case Some(e) => && e.Failed? && start <= e.call < end && fate(e.call) != Served
                    && forall c :: start <= c < e.call ==> fate(c) == Served
  }

  // t is s without some of the keys.
  ghost predicate DeletedAtMost(s: Store, keys: set<(string, string)>, t: Store) {
    t.Keys <= s.Keys && forall key :: key in s ==> (key in t && t[key] == s[key]) || (key !in t && key in keys)
  }

  // After the calls for these names: the clock, the error so far and the store.
  ghost predicate DeletedSoFar(fate: nat -> Fate, start: nat, s: Store, ns: string, names: seq<string>,
                               clock: nat, err: Option<Error>, t: Store) {
    && clock == start + Calls(names)
    && FirstFailure(fate, start, clock, err)
    && t == s - Reached(fate, start, ns, names)
  }

  lemma DeletedSkips(fate: nat -> Fate, start: nat, s: Store, ns: string, names: seq<string>,
                     clock: nat, err: Option<Error>, t: Store)
    requires DeletedSoFar(fate, start, s, ns, names, clock, err, t)
    ensures DeletedSoFar(fate, start, s, ns, names + [""], clock, err, t)
  {
    ReachedSnoc(fate, start, ns, names, "");
  }

  lemma DeletedNext(fate: nat -> Fate, start: nat, s: Store, ns: string, names: seq<string>,
                    clock: nat, err: Option<Error>, t: Store, name: string)
    requires DeletedSoFar(fate, start, s, ns, names, clock, err, t) && name != ""
    ensures DeletedSoFar(fate, start, s, ns, names + [name], clock + 1,
                         if fate(clock) == Served || err.Some? then err else Some(Failed(clock)),
                         if fate(clock) == Refused then t else Delete(t, ns, name).0)
  {
    ReachedSnoc(fate, start, ns, names, name);
  }

  // One more name: its call, if any, comes after those so far.
  lemma ReachedSnoc(fate: nat -> Fate, start: nat, ns: string, names: seq<string>, name: string)
    ensures Calls(names + [name]) == Calls(names) + (if name == "" then 0 else 1)
    ensures Reached(fate, start, ns, names + [name])
         == Reached(fate, start, ns, names)
            + (if name == "" || fate(start + Calls(names)) == Refused then {} else {(ns, name)})
  {
    assert (names + [name])[..|names|] == names;
  }

  // Nothing but a named object is ever reached; without a failing call each of them is.
  lemma {:induction false} ReachedKeys(fate: nat -> Fate, start: nat, ns: string, names: seq<string>)
    ensures Reached(fate, start, ns, names) <= Keys(ns, names)
    ensures (forall c :: start <= c < start + Calls(names) ==> fate(c) == Served)
            ==> Reached(fate, start, ns, names) == Keys(ns, names)
  {
    if names != [] {
      var before, name := names[..|names| - 1], names[|names| - 1];
      ReachedKeys(fate, start, ns, before);
      assert names == before + [name];
      assert Keys(ns, names) == Keys(ns, before) + (if name == "" then {} else {(ns, name)});
    }
  }

  lemma AllReachedAreGone(fate: nat -> Fate, start: nat, ns: string, names: seq<string>, s: Store)
    ensures forall j: nat :: TakesEffect(fate, start, names, j) ==>
              (ns, names[j]) !in s - Reached(fate, start, ns, names)
  {
    forall j: nat | TakesEffect(fate, start, names, j)
      ensures (ns, names[j]) in Reached(fate, start, ns, names)
    {
      ReachedExactly(fate, start, ns, names, (ns, names[j]));
    }
  }
}
