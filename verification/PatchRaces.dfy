/** The patch store under version queries that interleave in online mode: how two of them wedge it without a single
    failing call, that a wedge is permanent, and what keeps the index whole. */
module PatchRaces {
  import opened Wrappers
  import opened ApiServer
  import opened PatchProtocol
  import opened PatchStore
  import opened PatchTheorems

  // ---------- two queries race ----------

  // A run of two requests, all of whose calls are served.
  ghost predicate BothStand(env: Env, w: World, actions: seq<Action>, s: Store, a: Request, b: Request) {
    AllStand(env, w, actions, s, [a, b]) && AllServed(actions)
  }

  lemma FirstMoves(env: Env, w: World, actions: seq<Action>, s: Store, a: Request, b: Request, key: string,
                   remote: Remote) returns (more: seq<Action>)
    requires BothStand(env, w, actions, s, a, b) && Enabled(a, key)
    ensures var (t, reply) := Apply(s, Pending(a, key), remote);
            BothStand(env, w, more, t, Resume(env, a, key, reply), b)
  {
    more := Advance(env, w, actions, s, [a, b], 0, key, Served, remote);
    assert forall next: Request :: [a, b][0 := next] == [next, b];
  }

  lemma SecondMoves(env: Env, w: World, actions: seq<Action>, s: Store, a: Request, b: Request, key: string,
                    remote: Remote) returns (more: seq<Action>)
    requires BothStand(env, w, actions, s, a, b) && Enabled(b, key)
    ensures var (t, reply) := Apply(s, Pending(b, key), remote);
            BothStand(env, w, more, t, a, Resume(env, b, key, reply))
  {
    more := Advance(env, w, actions, s, [a, b], 1, key, Served, remote);
    assert forall next: Request :: [a, b][1 := next] == [a, next];
  }

  lemma BothArrive(env: Env, w: World, path: string) returns (actions: seq<Action>)
    requires w.requests == []
    ensures BothStand(env, w, actions, w.store, Query(path), Query(path))
  {
    assert Run(env, w, []) == Some(w);
    actions := Arrival(env, w, [], w.store, [], ArriveQuery(path));
    actions := Arrival(env, w, actions, w.store, [Query(path)], ArriveQuery(path));
    assert [Query(path)] + [Query(path)] == [Query(path), Query(path)];
  }

  // Online, a query reads the index, and goes on to clean it once the remote index is there.
  lemma QueryReads(env: Env, s: Store, path: string, remote: Remote, index: seq<Entry>)
    requires s.config.Some? && OnlineMode(s.config.value) == Some(true) && PatchKeys(s.config.value) != {}
    requires remote(path + "index.yaml").Some? && IndexEntries(env, remote(path + "index.yaml").value) == Some(index)
    ensures Apply(s, Pending(Query(path), ""), remote) == (s, Object(s.config.value))
    ensures Resume(env, Query(path), "", Object(s.config.value)) == FetchIndex(path, s.config.value)
    ensures var (t, reply) := Apply(s, Pending(FetchIndex(path, s.config.value), ""), remote);
            t == s && Resume(env, FetchIndex(path, s.config.value), "", reply) == Clean(path, s.config.value, index)
  {
  }

  // Both queries have read the index, and are about to clean it.
  lemma BothClean(env: Env, w: World, path: string, remote: Remote, index: seq<Entry>) returns (actions: seq<Action>)
    requires w.requests == [] && w.store.config.Some? && OnlineMode(w.store.config.value) == Some(true)
    requires remote(path + "index.yaml").Some? && IndexEntries(env, remote(path + "index.yaml").value) == Some(index)
    requires PatchKeys(w.store.config.value) != {}
    ensures var req := Clean(path, w.store.config.value, index); BothStand(env, w, actions, w.store, req, req)
  {
    var s, query, fetch := w.store, Query(path), FetchIndex(path, w.store.config.value);
    QueryReads(env, s, path, remote, index);
    actions := BothArrive(env, w, path);
    actions := FirstMoves(env, w, actions, s, query, query, "", remote);
    actions := SecondMoves(env, w, actions, s, fetch, query, "", remote);
    actions := FirstMoves(env, w, actions, s, fetch, fetch, "", remote);
    actions := SecondMoves(env, w, actions, s, Clean(path, s.config.value, index), fetch, "", remote);
  }

  // Cleaning deletes the patch of one entry when it is there, and gives up when it is not.
  lemma CleanDeletes(env: Env, s: Store, path: string, data: Data, index: seq<Entry>, key: string, other: string,
                     remote: Remote)
    requires {key, other} <= PatchKeys(data) && key != other
    ensures data[key] in s.patches ==>
              && Apply(s, Pending(Clean(path, data, index), key), remote)
                 == (s.(patches := s.patches - {data[key]}), Done)
              && Resume(env, Clean(path, data, index), key, Done) == Clean(path, data - {key}, index)
  {
    assert other in PatchKeys(data - {key});
  }

  lemma CleanGivesUp(env: Env, s: Store, path: string, data: Data, index: seq<Entry>, key: string, remote: Remote)
    requires key in PatchKeys(data) && data[key] !in s.patches
    ensures Apply(s, Pending(Clean(path, data, index), key), remote) == (s, NotFound)
    ensures Resume(env, Clean(path, data, index), key, NotFound) == Finished(false)
  {
  }

  // Each deletes another patch first, and then finds the other one gone.
  lemma BothGiveUp(env: Env, w: World, before: seq<Action>, s: Store, path: string, data: Data, index: seq<Entry>,
                   k: string, l: string, remote: Remote) returns (actions: seq<Action>)
    requires BothStand(env, w, before, s, Clean(path, data, index), Clean(path, data, index))
    requires {k, l} <= PatchKeys(data) && k != l && data[k] != data[l]
    requires data[k] in s.patches && data[l] in s.patches
    ensures BothStand(env, w, actions, s.(patches := s.patches - {data[k]} - {data[l]}),
                      Finished(false), Finished(false))
  {
    var req, a, b := Clean(path, data, index), Clean(path, data - {k}, index), Clean(path, data - {l}, index);
    var t := s.(patches := s.patches - {data[k]});
    var u := s.(patches := s.patches - {data[k]} - {data[l]});
    CleanDeletes(env, s, path, data, index, k, l, remote);
    CleanDeletes(env, t, path, data, index, l, k, remote);
    CleanGivesUp(env, u, path, data - {k}, index, l, remote);
    CleanGivesUp(env, u, path, data - {l}, index, k, remote);
    actions := FirstMoves(env, w, before, s, req, req, k, remote);
    actions := SecondMoves(env, w, actions, t, a, req, l, remote);
    actions := FirstMoves(env, w, actions, u, a, b, l, remote);
    actions := SecondMoves(env, w, actions, u, Finished(false), b, k, remote);
  }

  // Online, over a whole index of two entries: two concurrent queries, every call of which is served, both fail,
  // and leave both entries dangling.
  lemma TwoQueriesWedge(env: Env, settings: Data, v: string, w: string, path: string, remote: Remote)
    returns (actions: seq<Action>, end: World)
    requires PatchKeys(settings) == {} && OnlineMode(settings) == Some(true) && v != w
    requires remote(path + "index.yaml").Some? && IndexEntries(env, remote(path + "index.yaml").value).Some?
    ensures var start := TwoPatches(settings, v, w);
            && Initial(start) && NoDangling(start.store) && Run(env, start, actions) == Some(end)
    ensures AllServed(actions) && end.requests == [Finished(false), Finished(false)]
    ensures Dangles(end.store, KeyOf(v)) && Dangles(end.store, KeyOf(w))
  {
    var start, index := TwoPatches(settings, v, w), IndexEntries(env, remote(path + "index.yaml").value).value;
    TwoPatchesAreWhole(settings, v, w);
    KeysAndNames(v, w);
    var data := start.store.config.value;
    actions := BothClean(env, start, path, remote, index);
    var s, k, l := start.store, KeyOf(v), KeyOf(w);
    actions := BothGiveUp(env, start, actions, s, path, data, index, k, l, remote);
    end := Run(env, start, actions).value;
  }

  // This happens, at concrete settings and versions.
  lemma QueriesDoWedge() returns (env: Env, actions: seq<Action>, end: World)
    ensures var start := TwoPatches(map["otherRepo" := "cr.example.cn", "onlineImage" := ""], "1", "2");
            && Initial(start) && NoDangling(start.store) && Run(env, start, actions) == Some(end)
    ensures AllServed(actions) && end.requests == [Finished(false), Finished(false)]
    ensures Dangles(end.store, KeyOf("1")) && Dangles(end.store, KeyOf("2"))
  {
    env := Env(_ => None, _ => None, _ => Some([]), "deploy/", "patch/");
    OnlySettings("cr.example.cn", "");
    assert "1"[0] != "2"[0];
    actions, end := TwoQueriesWedge(env, map["otherRepo" := "cr.example.cn", "onlineImage" := ""], "1", "2", "patch/",
                                    url => Some(""));
  }

  // ---------- a wedge is permanent ----------

  // Where a request can get to over this index, in which the entry key dangles.
  predicate Stuck(config: Data, key: string, req: Request) {
    match req
    case Upload(_, _) => true
    case Query(_) => true
    case FetchIndex(_, data) => data == config
    case Clean(_, data, _) => key in PatchKeys(data) && key in config && data[key] == config[key]
    case Finished(ok) => !ok
    case _ => false
  }

  // Requests of done that are over stay over; every other one is stuck.
  ghost predicate Wedged(config: Data, key: string, done: seq<Request>, w: World) {
    && w.store.config == Some(config) && Dangles(w.store, key) && |done| <= |w.requests|
    && forall i :: 0 <= i < |w.requests| ==>
         if i < |done| && done[i].IsOver() then w.requests[i] == done[i] else Stuck(config, key, w.requests[i])
  }

  // A stuck request writes nothing but deletions of patches, and stays stuck.
  lemma StuckStays(env: Env, config: Data, key: string, s: Store, req: Request, k: string, remote: Remote, reply: Reply)
    requires OnlineMode(config) == Some(true) && s.config == Some(config) && Dangles(s, key)
    requires Stuck(config, key, req) && Enabled(req, k)
    requires reply == Apply(s, Pending(req, k), remote).1 || reply == Unavailable
    ensures Apply(s, Pending(req, k), remote).0.config == s.config
    ensures Dangles(Apply(s, Pending(req, k), remote).0, key)
    ensures Stuck(config, key, Resume(env, req, k, reply))
  {
    if req.Clean? && k != key {
      assert key in PatchKeys(req.data - {k});
    }
  }

  lemma StepKeepsWedge(env: Env, config: Data, key: string, done: seq<Request>, w: World, a: Action)
    requires OnlineMode(config) == Some(true) && Wedged(config, key, done, w) && Possible(w, a)
    ensures Wedged(config, key, done, Next(env, w, a))
  {
    if a.Progress? {
      var req := w.requests[a.i];
      var answer := Apply(w.store, Pending(req, a.key), a.remote).1;
      StuckStays(env, config, key, w.store, req, a.key, a.remote, if a.fate == Served then answer else Unavailable);
    }
  }

  // Online, once an entry dangles and every request under way is stuck (or none is), no interleaving of any further
  // uploads and queries, whatever becomes of their calls, changes bke-config or brings the patch back; and none
  // of them ever succeeds.
  lemma {:induction false} WedgeIsPermanent(env: Env, w: World, actions: seq<Action>, key: string)
    requires Dangles(w.store, key) && OnlineMode(w.store.config.value) == Some(true)
    requires forall req :: req in w.requests ==> req.IsOver() || Stuck(w.store.config.value, key, req)
    requires Run(env, w, actions).Some?
    ensures var t := Run(env, w, actions).value;
            && t.store.config == w.store.config && Dangles(t.store, key) && |w.requests| <= |t.requests|
            && forall i :: 0 <= i < |t.requests| ==>
                 if i < |w.requests| && w.requests[i].IsOver() then t.requests[i] == w.requests[i]
                 else Stuck(w.store.config.value, key, t.requests[i])
  {
    if actions != [] {
      var before := actions[..|actions| - 1];
      WedgeIsPermanent(env, w, before, key);
      var u := Run(env, w, before).value;
      assert Wedged(w.store.config.value, key, w.requests, u);
      StepKeepsWedge(env, w.store.config.value, key, w.requests, u, actions[|actions| - 1]);
    }
  }

  // ---------- a dangling entry, in any mode ----------

  // No upload of this version can be accepted.
  predicate Harmless(env: Env, version: string, req: Request) {
    match req
    case Upload(v, content) => v != version || !ValidContent(env, content)
    case Write(_, _, v, _, _, _) => v != version
    case _ => true
  }

  ghost predicate StaysDangling(env: Env, version: string, w: World) {
    Dangles(w.store, KeyOf(version)) && forall i :: 0 <= i < |w.requests| ==> Harmless(env, version, w.requests[i])
  }

  lemma ResumesHarmless(env: Env, version: string, req: Request, key: string, reply: Reply)
    requires Enabled(req, key) && Harmless(env, version, req) && !Refreshing(req)
    ensures Harmless(env, version, Resume(env, req, key, reply))
  {
    if req.Write? {
      WriteResumes(env, req, key, reply);
    }
  }

  lemma WriteResumes(env: Env, req: Request, key: string, reply: Reply)
    requires req.Write?
    ensures var next := Resume(env, req, key, reply);
            next.IsOver() || next.FetchPatch? || (next.Write? && next.version == req.version)
  {
  }

  // Outside online mode only uploads write, each only what belongs to its own version.
  lemma CallKeepsDangling(env: Env, version: string, s: Store, req: Request, key: string, remote: Remote)
    requires Enabled(req, key) && Harmless(env, version, req) && !Refreshing(req) && IndexNamedIn(s)
    requires Dangles(s, KeyOf(version))
    ensures Dangles(Apply(s, Pending(req, key), remote).0, KeyOf(version))
  {
    KeysAndNames(version, version);
    if req.Write? {
      KeysAndNames(version, req.version);
      KeysAndNames(req.version, version);
    }
  }

  ghost predicate IndexNamedIn(s: Store) {
    s.config.Some? ==> IndexNamed(s.config.value)
  }

  lemma StepKeepsDangling(env: Env, settings: Data, w: World, a: Action, version: string)
    requires Inv(env, settings, w) && OnlineMode(settings) != Some(true) && Possible(w, a)
    requires StaysDangling(env, version, w)
    requires a.ArriveUpload? && a.version == version ==> !ValidContent(env, a.content)
    ensures StaysDangling(env, version, Next(env, w, a))
  {
    if a.Progress? {
      var req := w.requests[a.i];
      assert RequestFits(env, settings, w.offered, req) && Harmless(env, version, req);
      assert !Refreshing(req);
      CallKeepsDangling(env, version, w.store, req, a.key, a.remote);
      var answer := Apply(w.store, Pending(req, a.key), a.remote).1;
      ResumesHarmless(env, version, req, a.key, if a.fate == Served then answer else Unavailable);
    }
  }

  lemma {:induction false} RunKeepsDangling(env: Env, w: World, actions: seq<Action>, version: string)
    requires Initial(w) && Dangles(w.store, KeyOf(version)) && OnlineMode(StoreSettings(w.store)) != Some(true)
    requires Run(env, w, actions).Some?
    requires forall a :: a in actions && a.ArriveUpload? && a.version == version ==> !ValidContent(env, a.content)
    ensures StaysDangling(env, version, Run(env, w, actions).value)
  {
    if actions != [] {
      var before := actions[..|actions| - 1];
      RunKeepsDangling(env, w, before, version);
      RunKeeps(env, w, before);
      assert actions[|actions| - 1] in actions;
      StepKeepsDangling(env, StoreSettings(w.store), Run(env, w, before).value, actions[|actions| - 1], version);
    }
  }

  // In every interleaving and whatever becomes of the calls, an entry patch.v that dangles goes on dangling unless
  // the service is offline and a valid patch of version v is uploaded.
  lemma DanglesUntilUpload(env: Env, w: World, actions: seq<Action>, version: string)
    requires Initial(w) && Dangles(w.store, KeyOf(version)) && Run(env, w, actions).Some?
    requires OnlineMode(StoreSettings(w.store)) == Some(false) ==>
               forall a :: a in actions && a.ArriveUpload? && a.version == version ==> !ValidContent(env, a.content)
    ensures Dangles(Run(env, w, actions).value.store, KeyOf(version))
  {
    ModeIsASetting(w.store.config.value);
    if OnlineMode(w.store.config.value) == Some(true) {
      WedgeIsPermanent(env, w, actions, KeyOf(version));
    } else if OnlineMode(w.store.config.value) == Some(false) {
      RunKeepsDangling(env, w, actions, version);
    } else {
      RunWithoutMode(env, w, actions, KeyOf(version));
    }
  }

  // Without a mode every request fails at its first call.
  lemma {:induction false} RunWithoutMode(env: Env, w: World, actions: seq<Action>, key: string)
    requires Initial(w) && w.store.config.Some? && OnlineMode(StoreSettings(w.store)) == None
    requires Run(env, w, actions).Some?
    ensures Run(env, w, actions).value.store == w.store
  {
    if actions != [] {
      var before, a := actions[..|actions| - 1], actions[|actions| - 1];
      RunWithoutMode(env, w, before, key);
      RunKeeps(env, w, before);
      if a.Progress? {
        var req := Run(env, w, before).value.requests[a.i];
        assert RequestFits(env, StoreSettings(w.store), Run(env, w, before).value.offered, req);
      }
    }
  }

  // ---------- refreshes one at a time ----------

  // No two refreshes are under way at once.
  ghost predicate Serial(w: World) {
    forall i, j :: 0 <= i < j < |w.requests| ==> !(Refreshing(w.requests[i]) && Refreshing(w.requests[j]))
  }

  // What a refresh under way knows of the store while nothing else writes to it.
  ghost predicate GoesWell(req: Request, s: Store) {
    match req
    case FetchIndex(_, data) => NoDangling(s) && s.config == Some(data)
    case Clean(_, data, _) => IndexNamed(data) && forall k :: k in PatchKeys(data) ==> data[k] in s.patches
    case Update(_, data, _) => PatchKeys(data) == {}
    case Write(phase, _, version, _, _, _) => WriteGoesWell(phase, version, s)
    case _ => NoDangling(s)
  }

  ghost predicate WriteGoesWell(phase: Phase, version: string, s: Store) {
    match phase
    case Delete => NoDangling(s) && NameOf(version) in s.patches
    case Create => NameOf(version) !in s.patches && NoneDanglesBut(s, version)
    case Index => NoDangling(s) && NameOf(version) in s.patches
    case _ => NoDangling(s)
  }

  ghost predicate NoneDanglesBut(s: Store, version: string) {
    s.config.Some? ==>
      forall k :: k in s.config.value && IsPatchKey(k) && k != KeyOf(version) ==> s.config.value[k] in s.patches
  }

  // After a step of a refresh: it still goes well, or it is over and nothing dangles.
  ghost predicate StillWell(req: Request, s: Store) {
    if Refreshing(req) then GoesWell(req, s) else NoDangling(s)
  }

  lemma CleanGoesWell(env: Env, s: Store, req: Request, key: string, remote: Remote)
    requires req.Clean? && Enabled(req, key) && GoesWell(req, s)
    ensures var (t, reply) := Apply(s, Pending(req, key), remote); StillWell(Resume(env, req, key, reply), t)
  {
    var data, rest := req.data, req.data - {key};
    forall k | k in PatchKeys(rest)
      ensures rest[k] == data[k] && k in PatchKeys(data) && data[k] != data[key]
    {
      KeysAndNames(VersionOfKey(k), VersionOfKey(key));
      assert KeyOf(VersionOfKey(k)) == k && KeyOf(VersionOfKey(key)) == key;
    }
    assert IndexNamed(rest);
  }

  lemma WriteStaysWell(env: Env, s: Store, req: Request, key: string, remote: Remote)
    requires req.Write? && !req.upload && GoesWell(req, s) && IndexNamedIn(s)
    requires req.phase == CheckNamespace || req.phase == MakeNamespace || s.namespace
    ensures var (t, reply) := Apply(s, Pending(req, key), remote); StillWell(Resume(env, req, key, reply), t)
  {
    KeysAndNames(req.version, req.version);
    if s.config.Some? {
      forall k | k in s.config.value && IsPatchKey(k) && k != KeyOf(req.version)
        ensures s.config.value[k] != NameOf(req.version)
      {
        KeysAndNames(VersionOfKey(k), req.version);
        assert KeyOf(VersionOfKey(k)) == k;
      }
    }
  }

  lemma FetchesGoWell(env: Env, s: Store, req: Request, key: string, remote: Remote)
    requires (req.FetchIndex? || req.Update? || req.FetchPatch?) && Enabled(req, key)
    requires GoesWell(req, s) && IndexNamedIn(s)
    ensures var (t, reply) := Apply(s, Pending(req, key), remote); StillWell(Resume(env, req, key, reply), t)
  {
    if req.Update? {
      assert forall k :: k in req.data && IsPatchKey(k) ==> k in PatchKeys(req.data);
    }
  }

  lemma RefreshStaysWell(env: Env, s: Store, req: Request, key: string, remote: Remote)
    requires Refreshing(req) && Enabled(req, key) && GoesWell(req, s) && IndexNamedIn(s)
    requires req.Write? && req.phase != CheckNamespace && req.phase != MakeNamespace ==> s.namespace
    ensures var (t, reply) := Apply(s, Pending(req, key), remote); StillWell(Resume(env, req, key, reply), t)
  {
    if req.Clean? {
      CleanGoesWell(env, s, req, key, remote);
    } else if req.Write? {
      WriteStaysWell(env, s, req, key, remote);
    } else {
      FetchesGoWell(env, s, req, key, remote);
    }
  }

  // The one refresh under way goes well; when there is none, nothing dangles.
  ghost predicate IndexIsWhole(w: World) {
    && (forall i :: 0 <= i < |w.requests| && Refreshing(w.requests[i]) ==> GoesWell(w.requests[i], w.store))
    && ((forall i :: 0 <= i < |w.requests| ==> !Refreshing(w.requests[i])) ==> NoDangling(w.store))
  }

  // One request has moved on, and every other one is where it was.
  lemma OneMoved(w: World, t: World, i: nat)
    requires i < |w.requests| == |t.requests| && t.requests == w.requests[i := t.requests[i]]
    requires StillWell(t.requests[i], t.store)
    requires forall j :: 0 <= j < |w.requests| && j != i ==> !Refreshing(w.requests[j])
    ensures IndexIsWhole(t)
  {
    assert forall j :: 0 <= j < |w.requests| && j != i ==> t.requests[j] == w.requests[j];
  }

  lemma NoneBegan(w: World, t: World, i: nat)
    requires i < |w.requests| == |t.requests| && t.requests == w.requests[i := t.requests[i]]
    requires t.store == w.store && IndexIsWhole(w) && !Refreshing(w.requests[i]) && !Refreshing(t.requests[i])
    ensures IndexIsWhole(t)
  {
    assert forall j :: 0 <= j < |w.requests| && j != i ==> t.requests[j] == w.requests[j];
    if j :| 0 <= j < |w.requests| && Refreshing(w.requests[j]) {
      assert Refreshing(t.requests[j]);
    }
  }

  // Online, a request that is not refreshing only reads; a query that begins to refresh has just read the index.
  lemma OthersOnlyRead(env: Env, settings: Data, offered: set<(string, string)>, s: Store, req: Request, key: string,
                       remote: Remote)
    requires StoreFits(settings, offered, s) && RequestFits(env, settings, offered, req) && Enabled(req, key)
    requires OnlineMode(settings) == Some(true) && !Refreshing(req)
    ensures var (t, reply) := Apply(s, Pending(req, key), remote);
            && t == s
            && (Refreshing(Resume(env, req, key, reply)) ==>
                  Resume(env, req, key, reply).FetchIndex? && s.config == Some(Resume(env, req, key, reply).data))
  {
    if s.config.Some? {
      ModeIsASetting(s.config.value);
    }
  }

  lemma StepKeepsWhole(env: Env, settings: Data, w: World, a: Action)
    requires Inv(env, settings, w) && OnlineMode(settings) == Some(true) && NamespaceThere(w)
    requires Possible(w, a) && (a.Progress? ==> a.fate == Served)
    requires Serial(w) && Serial(Next(env, w, a)) && IndexIsWhole(w)
    ensures IndexIsWhole(Next(env, w, a))
  {
    var t := Next(env, w, a);
    if a.Progress? {
      var req, i := w.requests[a.i], a.i;
      if Refreshing(req) {
        RefreshStaysWell(env, w.store, req, a.key, a.remote);
        OneMoved(w, t, i);
      } else {
        OthersOnlyRead(env, settings, w.offered, w.store, req, a.key, a.remote);
        if Refreshing(t.requests[i]) {
          assert forall j :: 0 <= j < |w.requests| && j != i ==> t.requests[j] == w.requests[j];
          OneMoved(w, t, i);
        } else {
          NoneBegan(w, t, i);
        }
      }
    } else {
      ArrivalKeepsWhole(w, t);
    }
  }

  lemma ArrivalKeepsWhole(w: World, t: World)
    requires IndexIsWhole(w) && t.store == w.store && |t.requests| == |w.requests| + 1
    requires w.requests == t.requests[..|w.requests|] && !Refreshing(t.requests[|w.requests|])
    ensures IndexIsWhole(t)
  {
    assert forall j :: 0 <= j < |w.requests| ==> t.requests[j] == w.requests[j];
    if j :| 0 <= j < |w.requests| && Refreshing(w.requests[j]) {
      assert Refreshing(t.requests[j]);
    }
  }

  // At every boundary of the run.
  ghost predicate AlwaysSerial(env: Env, w: World, actions: seq<Action>) {
    forall n :: 0 <= n <= |actions| ==> SerialAfter(env, w, actions[..n])
  }

  ghost predicate SerialAfter(env: Env, w: World, actions: seq<Action>) {
    Run(env, w, actions).Some? ==> Serial(Run(env, w, actions).value)
  }

  lemma SerialBefore(env: Env, w: World, actions: seq<Action>)
    requires actions != [] && AlwaysSerial(env, w, actions)
    ensures AlwaysSerial(env, w, actions[..|actions| - 1])
  {
    var before := actions[..|actions| - 1];
    forall n | 0 <= n <= |before|
      ensures SerialAfter(env, w, before[..n])
    {
      assert before[..n] == actions[..n];
    }
  }

  lemma {:induction false} RunKeepsWhole(env: Env, w: World, actions: seq<Action>)
    requires Initial(w) && NoDangling(w.store) && OnlineMode(StoreSettings(w.store)) == Some(true)
    requires Run(env, w, actions).Some? && AllServed(actions) && AlwaysSerial(env, w, actions)
    ensures IndexIsWhole(Run(env, w, actions).value) && NamespaceThere(Run(env, w, actions).value)
  {
    if actions != [] {
      var before, a := actions[..|actions| - 1], actions[|actions| - 1];
      SerialBefore(env, w, actions);
      RunKeepsWhole(env, w, before);
      RunKeeps(env, w, before);
      var u := Run(env, w, before).value;
      StepKeepsNamespace(env, u, a);
      assert actions[..|actions|] == actions && SerialAfter(env, w, actions[..|actions|]);
      assert before[..|before|] == before && SerialAfter(env, w, before[..|before|]);
      assert a in actions;
      StepKeepsWhole(env, StoreSettings(w.store), u, a);
    }
  }

  // Online, when all calls are served and no two refreshes are ever under way at once, no entry dangles whenever
  // no refresh is under way, even if some of them fail because the remote repository does.
  lemma SerialRefreshesLeaveIndexWhole(env: Env, w: World, actions: seq<Action>)
    requires Initial(w) && NoDangling(w.store) && OnlineMode(StoreSettings(w.store)) == Some(true)
    requires Run(env, w, actions).Some? && AllServed(actions) && AlwaysSerial(env, w, actions)
    requires forall req :: req in Run(env, w, actions).value.requests ==> !Refreshing(req)
    ensures NoDangling(Run(env, w, actions).value.store)
  {
    RunKeepsWhole(env, w, actions);
  }
}
