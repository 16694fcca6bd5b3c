/** Uploads that interleave offline: with every call served, each of them succeeds and takes its own effect, as if
    they had come one after the other. */
module PatchUploads {
  import opened Wrappers
  import opened ApiServer
  import opened PatchProtocol

  // The requests of a run as they arrived.
  function Arrivals(actions: seq<Action>): seq<Request> {
    if actions == [] then []
    else
      Arrivals(actions[..|actions| - 1]) +
      match actions[|actions| - 1]
      case ArriveUpload(version, content) => [Upload(version, content)]
      case ArriveQuery(path) => [Query(path)]
      case Progress(_, _, _, _) => []
  }

  // Valid patches, each of a version of its own.
  ghost predicate UploadsAreDistinct(env: Env, arrived: seq<Request>) {
    && (forall i :: 0 <= i < |arrived| && arrived[i].Upload? ==> ValidContent(env, arrived[i].content))
    && (forall i, j :: 0 <= i < j < |arrived| && arrived[i].Upload? && arrived[j].Upload? ==>
          arrived[i].version != arrived[j].version)
  }

  ghost predicate HasPatch(s: Store, version: string, content: string) {
    NameOf(version) in s.patches && s.patches[NameOf(version)] == map[version := content]
  }

  ghost predicate IsIndexed(s: Store, version: string) {
    && s.config.Some? && KeyOf(version) in s.config.value && s.config.value[KeyOf(version)] == NameOf(version)
  }

  // Where an upload can be by now, and what of it is in the store.
  ghost predicate UploadFits(version: string, content: string, req: Request, s: Store) {
    match req
    case Upload(v, c) => v == version && c == content
    case Write(phase, upload, v, c, _, rest) =>
      && upload && v == version && c == content && rest == []
      && (phase == Delete ==> NameOf(version) in s.patches)
      && (phase == Create ==> NameOf(version) !in s.patches)
      && (phase == Index ==> HasPatch(s, version, content))
    case Finished(ok) => ok && HasPatch(s, version, content) && IsIndexed(s, version)
    case _ => false
  }

  ghost predicate Fits(from: Request, req: Request, s: Store) {
    if from.Upload? then UploadFits(from.version, from.content, req, s) else req.Query? || req == Finished(true)
  }

  ghost predicate AllFit(arrived: seq<Request>, w: World) {
    |w.requests| == |arrived| && forall i :: 0 <= i < |arrived| ==> Fits(arrived[i], w.requests[i], w.store)
  }

  // s and t agree on what belongs to a version.
  ghost predicate SameOf(version: string, s: Store, t: Store) {
    && (NameOf(version) in s.patches <==> NameOf(version) in t.patches)
    && (NameOf(version) in s.patches ==> t.patches[NameOf(version)] == s.patches[NameOf(version)])
    && s.config.Some? && t.config.Some?
    && (KeyOf(version) in s.config.value <==> KeyOf(version) in t.config.value)
    && (KeyOf(version) in s.config.value ==> t.config.value[KeyOf(version)] == s.config.value[KeyOf(version)])
  }

  ghost predicate OfflineStore(s: Store) {
    s.config.Some? && OnlineMode(s.config.value) == Some(false)
  }

  lemma StaysFit(from: Request, req: Request, s: Store, t: Store)
    requires Fits(from, req, s) && (from.Upload? ==> SameOf(from.version, s, t))
    ensures Fits(from, req, t)
  {
  }

  // A call of an upload touches nothing that belongs to another version.
  lemma TouchesOwn(from: Request, req: Request, key: string, s: Store, remote: Remote, other: string)
    requires OfflineStore(s) && Fits(from, req, s) && Enabled(req, key)
    requires from.Upload? ==> other != from.version
    ensures SameOf(other, s, Apply(s, Pending(req, key), remote).0)
  {
    if from.Upload? {
      KeysAndNames(other, from.version);
    }
  }

  // With its call served, a request goes on towards success.
  lemma GoesOn(env: Env, from: Request, req: Request, key: string, s: Store, remote: Remote)
    requires OfflineStore(s) && Fits(from, req, s) && Enabled(req, key)
    requires from.Upload? ==> ValidContent(env, from.content)
    requires req.Write? && req.phase != CheckNamespace && req.phase != MakeNamespace ==> s.namespace
    ensures var (t, reply) := Apply(s, Pending(req, key), remote); Fits(from, Resume(env, req, key, reply), t)
  {
    if req.Write? {
      WriteGoesOn(env, from, req, key, s, remote);
    }
  }

  lemma WriteGoesOn(env: Env, from: Request, req: Request, key: string, s: Store, remote: Remote)
    requires OfflineStore(s) && req.Write? && from.Upload? && Fits(from, req, s)
    requires req.phase != CheckNamespace && req.phase != MakeNamespace ==> s.namespace
    ensures var (t, reply) := Apply(s, Pending(req, key), remote); Fits(from, Resume(env, req, key, reply), t)
  {
  }

  lemma StoreIsOffline(env: Env, settings: Data, w: World)
    requires Inv(env, settings, w) && OnlineMode(settings) == Some(false)
    ensures OfflineStore(w.store)
  {
    if w.store.config.Some? {
      ModeIsASetting(w.store.config.value);
    }
  }

  lemma ProgressFits(env: Env, arrived: seq<Request>, w: World, a: Action)
    requires a.Progress? && Possible(w, a) && a.fate == Served
    requires OfflineStore(w.store) && NamespaceThere(w) && AllFit(arrived, w) && UploadsAreDistinct(env, arrived)
    ensures AllFit(arrived, Next(env, w, a))
  {
    var t := Next(env, w, a);
    var req := w.requests[a.i];
    GoesOn(env, arrived[a.i], req, a.key, w.store, a.remote);
    forall j | 0 <= j < |arrived| && j != a.i
      ensures Fits(arrived[j], t.requests[j], t.store)
    {
      if arrived[j].Upload? {
        TouchesOwn(arrived[a.i], req, a.key, w.store, a.remote, arrived[j].version);
      }
      StaysFit(arrived[j], w.requests[j], w.store, t.store);
    }
  }

  lemma ArrivalFits(arrived: seq<Request>, from: Request, w: World, t: World)
    requires AllFit(arrived, w) && t.requests == w.requests + [from] && t.store == w.store
    requires from.Upload? || from.Query?
    ensures AllFit(arrived + [from], t)
  {
  }

  lemma DistinctBefore(env: Env, actions: seq<Action>)
    requires actions != [] && UploadsAreDistinct(env, Arrivals(actions))
    ensures UploadsAreDistinct(env, Arrivals(actions[..|actions| - 1]))
  {
    var before := Arrivals(actions[..|actions| - 1]);
    assert before <= Arrivals(actions);
    assert forall i :: 0 <= i < |before| ==> before[i] == Arrivals(actions)[i];
  }

  lemma {:induction false} RunFits(env: Env, w: World, actions: seq<Action>)
    requires Initial(w) && OnlineMode(StoreSettings(w.store)) == Some(false)
    requires Run(env, w, actions).Some? && AllServed(actions) && UploadsAreDistinct(env, Arrivals(actions))
    ensures AllFit(Arrivals(actions), Run(env, w, actions).value)
    ensures NamespaceThere(Run(env, w, actions).value)
  {
    if actions != [] {
      var before, a := actions[..|actions| - 1], actions[|actions| - 1];
      DistinctBefore(env, actions);
      RunFits(env, w, before);
      RunKeeps(env, w, before);
      var u := Run(env, w, before).value;
      StoreIsOffline(env, StoreSettings(w.store), u);
      StepKeepsNamespace(env, u, a);
      assert a in actions;
      match a
      case ArriveUpload(v, c) => ArrivalFits(Arrivals(before), Upload(v, c), u, Next(env, u, a));
      case ArriveQuery(path) => ArrivalFits(Arrivals(before), Query(path), u, Next(env, u, a));
      case Progress(_, _, _, _) =>
        assert Arrivals(actions) == Arrivals(before);
        ProgressFits(env, Arrivals(before), u, a);
    }
  }

  // What belongs to a version that nobody uploads stays as it is.
  lemma {:induction false} OthersStay(env: Env, w: World, actions: seq<Action>, version: string)
    requires Initial(w) && OnlineMode(StoreSettings(w.store)) == Some(false)
    requires Run(env, w, actions).Some? && AllServed(actions) && UploadsAreDistinct(env, Arrivals(actions))
    requires forall i :: 0 <= i < |Arrivals(actions)| && Arrivals(actions)[i].Upload? ==>
               Arrivals(actions)[i].version != version
    ensures SameOf(version, w.store, Run(env, w, actions).value.store)
  {
    if actions == [] {
      ModeIsASetting(if w.store.config.Some? then w.store.config.value else map[]);
    } else {
      var before, a := actions[..|actions| - 1], actions[|actions| - 1];
      DistinctBefore(env, actions);
      assert forall i :: 0 <= i < |Arrivals(before)| ==> Arrivals(before)[i] == Arrivals(actions)[i];
      OthersStay(env, w, before, version);
      RunFits(env, w, before);
      RunKeeps(env, w, before);
      var u := Run(env, w, before).value;
      StoreIsOffline(env, StoreSettings(w.store), u);
      if a.Progress? {
        assert a in actions;
        TouchesOwn(Arrivals(before)[a.i], u.requests[a.i], a.key, u.store, a.remote, version);
      }
    }
  }

  // Offline, with all calls served: uploads of valid patches for pairwise distinct versions, interleaved with each
  // other and with queries in any way, all succeed. Each one that is over has its patch stored under its version and
  // indexed, and what belongs to any other version is as it was.
  lemma UploadsAllSucceed(env: Env, w: World, actions: seq<Action>)
    requires Initial(w) && OnlineMode(StoreSettings(w.store)) == Some(false)
    requires Run(env, w, actions).Some? && AllServed(actions) && UploadsAreDistinct(env, Arrivals(actions))
    ensures var arrived, t := Arrivals(actions), Run(env, w, actions).value;
            && |t.requests| == |arrived|
            && (forall i :: 0 <= i < |arrived| && t.requests[i].IsOver() ==> t.requests[i] == Finished(true))
            && (forall i :: 0 <= i < |arrived| && t.requests[i].IsOver() && arrived[i].Upload? ==>
                  HasPatch(t.store, arrived[i].version, arrived[i].content) && IsIndexed(t.store, arrived[i].version))
  {
    RunFits(env, w, actions);
    var arrived, t := Arrivals(actions), Run(env, w, actions).value;
    assert forall i :: 0 <= i < |arrived| ==> Fits(arrived[i], t.requests[i], t.store);
  }
}
