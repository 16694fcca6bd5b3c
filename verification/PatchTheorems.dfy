/** What the patch store operations guarantee over whole runs: the mirror left by a refresh, the damage left
    by a failed cleanup, and the lookups that follow a run of uploads. */
module PatchTheorems {
  import opened Wrappers
  import opened GoStrings
  import opened ApiServer
  import opened PatchProtocol
  import opened PatchStore

  // ---------- a refresh leaves a mirror ----------

  // Entry i is the last one of its version.
  ghost predicate IsLast(entries: seq<Entry>, i: nat) {
    i < |entries| && forall j :: i < j < |entries| ==> entries[j].version != entries[i].version
  }

  ghost function EntryKeys(entries: seq<Entry>): set<string> {
    set e | e in entries :: KeyOf(e.version)
  }

  ghost function EntryNames(entries: seq<Entry>): set<string> {
    set e | e in entries :: NameOf(e.version)
  }

  // The index data is base with exactly the entries written into it.
  ghost predicate IndexMirrors(base: Data, entries: seq<Entry>, data: Data) {
    && Settings(data) == Settings(base)
    && PatchKeys(data) == PatchKeys(base) + EntryKeys(entries)
    && forall e :: e in entries ==> KeyOf(e.version) in data && data[KeyOf(e.version)] == NameOf(e.version)
  }

  ghost predicate Holds(remote: Remote, path: string, e: Entry, patches: map<string, Data>) {
    NameOf(e.version) in patches && patches[NameOf(e.version)] == map[e.version := ContentOf(remote, path, e)]
  }

  ghost predicate SameUnder(base: map<string, Data>, n: string, patches: map<string, Data>) {
    (n in patches <==> n in base) && (n in base ==> patches[n] == base[n])
  }

  // The last entry of each version is stored, and ConfigMaps of other names are those of base.
  ghost predicate PatchesMirror(base: map<string, Data>, remote: Remote, path: string, entries: seq<Entry>,
                                patches: map<string, Data>) {
    && (forall i: nat :: IsLast(entries, i) ==> Holds(remote, path, entries[i], patches))
    && (forall n :: n !in EntryNames(entries) ==> SameUnder(base, n, patches))
  }

  lemma IndexedMirrors(base: Data, before: seq<Entry>, e: Entry, data: Data)
    requires IndexMirrors(base, before, data)
    ensures IndexMirrors(base, before + [e], data[KeyOf(e.version) := NameOf(e.version)])
  {
    KeysAndNames(e.version, e.version);
    SettingsStay(data, e.version);
    assert PatchKeys(data[KeyOf(e.version) := NameOf(e.version)]) == PatchKeys(data) + {KeyOf(e.version)};
    assert EntryKeys(before + [e]) == EntryKeys(before) + {KeyOf(e.version)};
    forall x | x in before
      ensures KeyOf(x.version) == KeyOf(e.version) ==> NameOf(x.version) == NameOf(e.version)
    {
      KeysAndNames(x.version, e.version);
    }
  }

  lemma AddedMirrors(base: map<string, Data>, remote: Remote, path: string, before: seq<Entry>, e: Entry,
                     patches: map<string, Data>)
    requires PatchesMirror(base, remote, path, before, patches)
    ensures PatchesMirror(base, remote, path, before + [e],
                          patches[NameOf(e.version) := map[e.version := ContentOf(remote, path, e)]])
  {
    var entries, after := before + [e], patches[NameOf(e.version) := map[e.version := ContentOf(remote, path, e)]];
    assert EntryNames(entries) == EntryNames(before) + {NameOf(e.version)};
    forall i: nat | IsLast(entries, i)
      ensures Holds(remote, path, entries[i], after)
    {
      if i < |before| {
        assert entries[|before|].version != entries[i].version;
        KeysAndNames(entries[i].version, e.version);
        assert forall j :: i < j < |before| ==> entries[j] == before[j];
        assert IsLast(before, i);
      }
    }
    forall n | n !in EntryNames(entries)
      ensures SameUnder(base, n, after)
    {
      assert SameUnder(base, n, patches);
    }
  }

  lemma {:induction false} RefillMirrors(base: Store, remote: Remote, path: string, entries: seq<Entry>)
    requires base.config.Some?
    ensures var t := Refilled(base, remote, path, entries);
            && IndexMirrors(base.config.value, entries, t.config.value)
            && PatchesMirror(base.patches, remote, path, entries, t.patches)
  {
    if entries != [] {
      var before, e := entries[..|entries| - 1], entries[|entries| - 1];
      RefillMirrors(base, remote, path, before);
      var s := Refilled(base, remote, path, before);
      IndexedMirrors(base.config.value, before, e, s.config.value);
      AddedMirrors(base.patches, remote, path, before, e, s.patches);
      assert entries == before + [e];
    }
  }

  lemma MirrorIsWhole(base: Data, patches: map<string, Data>, remote: Remote, path: string, entries: seq<Entry>,
                      t: Store)
    requires t.config.Some? && PatchKeys(base) == {}
    requires IndexMirrors(base, entries, t.config.value) && PatchesMirror(patches, remote, path, entries, t.patches)
    ensures IndexNamed(t.config.value) && NoDangling(t)
  {
    forall k | k in t.config.value && IsPatchKey(k)
      ensures t.config.value[k] == NameOf(VersionOfKey(k)) && t.config.value[k] in t.patches
    {
      assert k in PatchKeys(t.config.value);
      var e :| e in entries && k == KeyOf(e.version);
      KeysAndNames(e.version, e.version);
      var i := LastOf(entries, e.version);
      assert Holds(remote, path, entries[i], t.patches);
    }
  }

  lemma VersionsOf(entries: seq<Entry>)
    ensures (set v | v in Versions(entries) :: KeyOf(v)) == EntryKeys(entries)
    ensures (set v | v in Versions(entries) :: NameOf(v)) == EntryNames(entries)
  {
    forall e | e in entries
      ensures e.version in Versions(entries)
    {
      var i :| 0 <= i < |entries| && entries[i] == e;
      assert Versions(entries)[i] == e.version;
    }
    forall v | v in Versions(entries)
      ensures exists e :: e in entries && e.version == v
    {
      var i :| 0 <= i < |entries| && Versions(entries)[i] == v;
      assert entries[i] in entries;
    }
  }

  // After a successful refresh the index holds exactly patch.v -> cm.v for the versions of the remote index,
  // each cm.v holds the normalised content of the last entry for v, the patches that only the old index names are
  // gone, the settings are untouched, and so is every ConfigMap that neither the old index nor the new one names.
  ghost predicate IsMirror(remote: Remote, path: string, entries: seq<Entry>, s: Store, t: Store)
    requires s.config.Some?
  {
    && t.config.Some? && IndexNamed(t.config.value) && NoDangling(t)
    && PatchKeys(t.config.value) == (set v | v in Versions(entries) :: KeyOf(v))
    && Settings(t.config.value) == Settings(s.config.value)
    && (forall i: nat :: IsLast(entries, i) ==> Holds(remote, path, entries[i], t.patches))
    && (forall n :: n in Named(s.config.value) && n !in (set v | v in Versions(entries) :: NameOf(v)) ==>
          n !in t.patches)
    && (forall n :: n !in Named(s.config.value) && n !in (set v | v in Versions(entries) :: NameOf(v)) ==>
          SameUnder(s.patches, n, t.patches))
  }

  lemma RefreshIsMirror(env: Env, remote: Remote, path: string, s: Store)
    requires RefreshWorks(env, remote, path, s)
    ensures IsMirror(remote, path, RemoteEntries(env, remote, path), s, Refreshed(env, remote, path, s))
  {
    var entries, t := RemoteEntries(env, remote, path), Refreshed(env, remote, path, s);
    var base := Cleaned(s, s.config.value);
    RefillMirrors(base, remote, path, entries);
    SettingsStay(s.config.value, "");
    assert PatchKeys(base.config.value) == {};
    MirrorIsWhole(base.config.value, base.patches, remote, path, entries, t);
    VersionsOf(entries);
    forall n | n !in EntryNames(entries)
      ensures n in Named(s.config.value) ==> n !in t.patches
      ensures n !in Named(s.config.value) ==> SameUnder(s.patches, n, t.patches)
    {
      assert SameUnder(base.patches, n, t.patches);
    }
  }

  lemma {:induction false} LastOf(entries: seq<Entry>, version: string) returns (i: nat)
    requires exists e :: e in entries && e.version == version
    ensures IsLast(entries, i) && entries[i].version == version
  {
    i := |entries| - 1;
    if entries[i].version != version {
      var e :| e in entries && e.version == version;
      assert e in entries[..i];
      i := LastOf(entries[..i], version);
    }
  }

  // ---------- refreshing again ----------

  lemma SameIndex(entries: seq<Entry>, a: Data, b: Data, x: Data, y: Data)
    requires IndexMirrors(a, entries, x) && IndexMirrors(b, entries, y)
    requires Settings(a) == Settings(b) && PatchKeys(a) == {} && PatchKeys(b) == {}
    ensures x == y
  {
    forall k
      ensures (k in x <==> k in y) && (k in x ==> x[k] == y[k])
    {
      if IsPatchKey(k) {
        assert k in x <==> k in PatchKeys(x);
        assert k in y <==> k in PatchKeys(y);
        if k in EntryKeys(entries) {
          var e :| e in entries && KeyOf(e.version) == k;
        }
      } else {
        assert k in x <==> k in Settings(x);
        assert k in y <==> k in Settings(y);
        assert k in x ==> x[k] == Settings(x)[k];
        assert k in y ==> y[k] == Settings(y)[k];
      }
    }
  }

  lemma SamePatches(remote: Remote, path: string, entries: seq<Entry>, a: map<string, Data>, b: map<string, Data>,
                    x: map<string, Data>, y: map<string, Data>)
    requires PatchesMirror(a, remote, path, entries, x) && PatchesMirror(b, remote, path, entries, y)
    requires forall n :: n !in EntryNames(entries) ==> SameUnder(a, n, b)
    ensures x == y
  {
    forall n
      ensures (n in x <==> n in y) && (n in x ==> x[n] == y[n])
    {
      if n in EntryNames(entries) {
        var e :| e in entries && NameOf(e.version) == n;
        var i := LastOf(entries, e.version);
        assert Holds(remote, path, entries[i], x) && Holds(remote, path, entries[i], y);
      } else {
        assert SameUnder(a, n, b) && SameUnder(a, n, x) && SameUnder(b, n, y);
      }
    }
  }

  lemma {:induction false} RefillNamespace(s: Store, remote: Remote, path: string, entries: seq<Entry>)
    requires s.config.Some?
    ensures Refilled(s, remote, path, entries).namespace == (s.namespace || entries != [])
  {
    if entries != [] {
      RefillNamespace(s, remote, path, entries[..|entries| - 1]);
    }
  }

  lemma WholeIsCleanable(t: Store)
    requires t.config.Some? && IndexNamed(t.config.value) && NoDangling(t)
    ensures Cleanable(t.config.value, t.patches)
  {
    var data := t.config.value;
    forall k, l | k in PatchKeys(data) && l in PatchKeys(data) && data[k] == data[l]
      ensures k == l
    {
      KeysAndNames(VersionOfKey(k), VersionOfKey(l));
      assert KeyOf(VersionOfKey(k)) == k && KeyOf(VersionOfKey(l)) == l;
    }
  }

  lemma NamedOfMirror(entries: seq<Entry>, base: Data, data: Data)
    requires IndexMirrors(base, entries, data) && PatchKeys(base) == {}
    ensures Named(data) == EntryNames(entries)
  {
    forall n | n in EntryNames(entries)
      ensures n in Named(data)
    {
      var e :| e in entries && NameOf(e.version) == n;
      assert KeyOf(e.version) in PatchKeys(data);
    }
    forall n | n in Named(data)
      ensures n in EntryNames(entries)
    {
      var k :| k in PatchKeys(data) && data[k] == n;
      var e :| e in entries && KeyOf(e.version) == k;
    }
  }

  // A refresh of an unchanged remote index can be repeated, and repeating it changes nothing.
  lemma RefreshIsIdempotent(env: Env, remote: Remote, path: string, s: Store)
    requires RefreshWorks(env, remote, path, s)
    ensures var t := Refreshed(env, remote, path, s);
            && RefreshWorks(env, remote, path, t) && Refreshed(env, remote, path, t) == t
  {
    var entries, t := RemoteEntries(env, remote, path), Refreshed(env, remote, path, s);
    var base, again := Cleaned(s, s.config.value), Cleaned(t, t.config.value);
    RefreshIsMirror(env, remote, path, s);
    WholeIsCleanable(t);
    RefilledAgain(remote, path, entries, base, t, again);
  }

  lemma RefilledAgain(remote: Remote, path: string, entries: seq<Entry>, base: Store, t: Store, again: Store)
    requires base.config.Some? && PatchKeys(base.config.value) == {}
    requires t == Refilled(base, remote, path, entries) && again == Cleaned(t, t.config.value)
    ensures Refilled(again, remote, path, entries) == t
  {
    var u := Refilled(again, remote, path, entries);
    RefillMirrors(base, remote, path, entries);
    RefillMirrors(again, remote, path, entries);
    SettingsStay(t.config.value, "");
    assert PatchKeys(again.config.value) == {};
    SameIndex(entries, base.config.value, again.config.value, t.config.value, u.config.value);
    NamedOfMirror(entries, base.config.value, t.config.value);
    forall n | n !in EntryNames(entries)
      ensures SameUnder(base.patches, n, again.patches)
    {
      assert SameUnder(base.patches, n, t.patches);
    }
    SamePatches(remote, path, entries, base.patches, again.patches, t.patches, u.patches);
    RefillNamespace(base, remote, path, entries);
    RefillNamespace(again, remote, path, entries);
  }

  // So a second version query works whenever the first did, and leaves the store that the first left.
  lemma QueryIsIdempotent(env: Env, remote: Remote, path: string, s: Store)
    requires QueryWorks(env, remote, path, s)
    ensures var t := AfterQuery(env, remote, path, s);
            && QueryWorks(env, remote, path, t) && AfterQuery(env, remote, path, t) == t
            && t.config.Some? && OnlineMode(t.config.value) == OnlineMode(s.config.value)
  {
    if OnlineMode(s.config.value) == Some(true) {
      var t := Refreshed(env, remote, path, s);
      RefreshIsIdempotent(env, remote, path, s);
      RefreshIsMirror(env, remote, path, s);
      ModeIsASetting(s.config.value);
      ModeIsASetting(t.config.value);
    }
  }

  // The index a successful query leaves lists exactly the versions it answers.
  lemma AnswersAreIndexed(env: Env, remote: Remote, path: string, s: Store, versions: seq<string>, version: string)
    requires QueryWorks(env, remote, path, s) && QueryAnswers(env, remote, path, s, versions)
    ensures version in versions <==> KeyOf(version) in AfterQuery(env, remote, path, s).config.value
  {
    if OnlineMode(s.config.value) == Some(true) {
      var entries, t := RemoteEntries(env, remote, path), Refreshed(env, remote, path, s);
      RefreshIsMirror(env, remote, path, s);
      KeysAndNames(version, version);
      assert KeyOf(version) in t.config.value <==> KeyOf(version) in PatchKeys(t.config.value);
      if KeyOf(version) in PatchKeys(t.config.value) {
        var v :| v in Versions(entries) && KeyOf(v) == KeyOf(version);
        KeysAndNames(v, version);
      }
    }
  }

  // ---------- a failed cleanup blocks the next ones ----------

  ghost predicate Dangles(s: Store, key: string) {
    s.config.Some? && key in PatchKeys(s.config.value) && s.config.value[key] !in s.patches
  }

  // Every patch that a failed cleanup has deleted is a dangling index entry afterwards, and no entry that was
  // not dangling before dangles for another reason.
  lemma FailedCleanupDangles(s: Store, gone: set<string>, t: Store, key: string)
    requires s.config.Some? && CleanupOutcome(s, s.config.value, false, gone, t)
    requires key in PatchKeys(s.config.value)
    ensures t.config == s.config
    ensures Dangles(t, key) <==> Dangles(s, key) || s.config.value[key] in NamesOf(s.config.value, gone)
    ensures key in gone ==> Dangles(t, key) && !Dangles(s, key)
  {
  }

  lemma EntryKeyOf(entries: seq<Entry>, version: string)
    ensures KeyOf(version) in EntryKeys(entries) <==> exists j :: 0 <= j < |entries| && entries[j].version == version
  {
    if KeyOf(version) in EntryKeys(entries) {
      var e :| e in entries && KeyOf(e.version) == KeyOf(version);
      KeysAndNames(e.version, version);
    }
  }

  // Writing a version that stops over a whole index leaves at most that version's entry dangling.
  lemma StoppedWriteDangles(s: Store, version: string, content: string, t: Store, key: string)
    requires s.config.Some? && IndexNamed(s.config.value) && NoDangling(s) && WriteStops(s, version, content, t)
    ensures Dangles(t, key) <==> key == KeyOf(version) && key in s.config.value && NameOf(version) !in t.patches
  {
    KeysAndNames(version, VersionOfKey(key));
  }

  // A refresh that stops while it refills an index without patch entries leaves a dangling entry exactly when the
  // entry it stopped at has a version written before, whose patch is gone again.
  lemma FailedRefillDangles(base: Store, remote: Remote, path: string, entries: seq<Entry>, i: nat, t: Store,
                            key: string)
    requires base.config.Some? && PatchKeys(base.config.value) == {}
    requires RefillStopsAt(base, remote, path, entries, i, t)
    ensures var v := entries[i].version;
            Dangles(t, key) <==>
              key == KeyOf(v) && NameOf(v) !in t.patches && exists j :: 0 <= j < i && entries[j].version == v
  {
    var before, v := entries[..i], entries[i].version;
    var half := Refilled(base, remote, path, before);
    RefillMirrors(base, remote, path, before);
    MirrorIsWhole(base.config.value, base.patches, remote, path, before, half);
    StoppedWriteDangles(half, v, ContentOf(remote, path, entries[i]), t, key);
    EntryKeyOf(before, v);
    KeysAndNames(v, v);
    assert KeyOf(v) in half.config.value <==> KeyOf(v) in PatchKeys(half.config.value);
    assert forall j :: 0 <= j < i ==> before[j] == entries[j];
  }

  datatype Event =
    | Cleanup(ok: bool, gone: set<string>)
    | Queried(ok: bool, path: string, remote: Remote)
    | Uploaded(ok: bool, version: string, content: string)

  // One cleanup, version query or upload, however it ends, from the store as it is.
  ghost predicate Happens(env: Env, s: Store, e: Event, t: Store) {
    s.config.Some? &&
    match e
    case Cleanup(ok, gone) => CleanupOutcome(s, s.config.value, ok, gone, t)
    case Queried(ok, path, remote) => QueryOutcome(env, remote, path, s, ok, t)
    case Uploaded(ok, version, content) => UploadOutcome(env, s, version, content, ok, t)
  }

  ghost predicate History(env: Env, stores: seq<Store>, events: seq<Event>) {
    && |stores| == |events| + 1
    && forall i :: 0 <= i < |events| ==> Happens(env, stores[i], events[i], stores[i + 1])
  }

  // The event goes through the index and can only fail over a dangling entry.
  predicate Cleans(s: Store, e: Event) {
    e.Cleanup? || (e.Queried? && s.config.Some? && OnlineMode(s.config.value) == Some(true))
  }

  // A cleanup or an online query over a dangling entry fails, leaves the index and brings no patch back.
  lemma CleaningFails(env: Env, s: Store, e: Event, t: Store, key: string)
    requires Happens(env, s, e, t) && Cleans(s, e) && Dangles(s, key)
    ensures !e.ok && t.config == s.config && Dangles(t, key)
  {
    if e.Queried? && !e.ok {
      assert CleanupStops(s, t);
      var gone :| CleanupOutcome(s, s.config.value, false, gone, t);
    }
  }

  // A dangling entry patch.v stays, and every cleanup and every online query fails, until an upload of version v
  // is accepted.
  lemma {:induction false} DanglingBlocksCleanups(env: Env, stores: seq<Store>, events: seq<Event>,
                                                  version: string, n: nat)
    requires History(env, stores, events) && n <= |events|
    requires Dangles(stores[0], KeyOf(version)) && IndexNamed(stores[0].config.value)
    requires forall i :: 0 <= i < n && events[i].Uploaded? && events[i].version == version ==>
               !UploadWorks(env, stores[i], events[i].content)
    ensures Dangles(stores[n], KeyOf(version)) && IndexNamed(stores[n].config.value)
    ensures forall i :: 0 <= i < n && Cleans(stores[i], events[i]) ==> !events[i].ok
  {
    if n > 0 {
      DanglingBlocksCleanups(env, stores, events, version, n - 1);
      var s, e, t := stores[n - 1], events[n - 1], stores[n];
      assert Happens(env, s, e, t);
      if Cleans(s, e) {
        CleaningFails(env, s, e, t, KeyOf(version));
      } else if e.Uploaded? {
        UploadKeepsDangling(env, s, e.version, e.content, e.ok, t, version);
      }
    }
  }

  lemma UploadKeepsDangling(env: Env, s: Store, version: string, content: string, ok: bool, t: Store, other: string)
    requires UploadOutcome(env, s, version, content, ok, t)
    requires version == other ==> !UploadWorks(env, s, content)
    requires Dangles(s, KeyOf(other)) && IndexNamed(s.config.value)
    ensures Dangles(t, KeyOf(other)) && IndexNamed(t.config.value)
  {
    KeysAndNames(version, other);
    KeysAndNames(other, version);
  }

  // Online nothing the service does repairs the store: uploads are refused, so a dangling entry, whatever its
  // name, stays for ever, the index and the settings never change again, and every cleanup, query and upload fails.
  lemma {:induction false} OnlineWedgeIsPermanent(env: Env, stores: seq<Store>, events: seq<Event>, key: string, n: nat)
    requires History(env, stores, events) && n <= |events|
    requires Dangles(stores[0], key) && OnlineMode(stores[0].config.value) == Some(true)
    ensures stores[n].config == stores[0].config && Dangles(stores[n], key)
    ensures forall i :: 0 <= i < n ==> !events[i].ok
  {
    if n > 0 {
      OnlineWedgeIsPermanent(env, stores, events, key, n - 1);
      var s, e, t := stores[n - 1], events[n - 1], stores[n];
      assert Happens(env, s, e, t);
      if !e.Uploaded? {
        CleaningFails(env, s, e, t, key);
      }
    }
  }

  // ---------- how an entry comes to dangle ----------

  // A run that has left the store as s, with its requests where reqs says.
  ghost predicate AllStand(env: Env, w: World, actions: seq<Action>, s: Store, reqs: seq<Request>) {
    Run(env, w, actions).Some? && Run(env, w, actions).value.store == s && Run(env, w, actions).value.requests == reqs
  }

  lemma Arrival(env: Env, w: World, actions: seq<Action>, s: Store, reqs: seq<Request>, a: Action)
    returns (more: seq<Action>)
    requires AllStand(env, w, actions, s, reqs) && !a.Progress?
    ensures more == actions + [a]
    ensures AllStand(env, w, more, s,
                     reqs + [if a.ArriveUpload? then Upload(a.version, a.content) else Query(a.path)])
  {
    more := actions + [a];
    assert more[..|actions|] == actions;
  }

  lemma Advance(env: Env, w: World, actions: seq<Action>, s: Store, reqs: seq<Request>, i: nat,
                key: string, fate: Fate, remote: Remote) returns (more: seq<Action>)
    requires AllStand(env, w, actions, s, reqs) && i < |reqs| && Enabled(reqs[i], key) && fate != ReplyLost
    ensures more == actions + [Progress(i, key, fate, remote)]
    ensures fate == Served ==>
              AllStand(env, w, more, Apply(s, Pending(reqs[i], key), remote).0,
                       reqs[i := Resume(env, reqs[i], key, Apply(s, Pending(reqs[i], key), remote).1)])
    ensures fate == Refused ==> AllStand(env, w, more, s, reqs[i := Resume(env, reqs[i], key, Unavailable)])
  {
    more := actions + [Progress(i, key, fate, remote)];
    assert more[..|actions|] == actions;
  }

  // The same of a run of one request.
  ghost predicate Stands(env: Env, w: World, actions: seq<Action>, s: Store, req: Request) {
    AllStand(env, w, actions, s, [req])
  }

  lemma Arrives(env: Env, w: World, a: Action) returns (actions: seq<Action>)
    requires w.requests == [] && !a.Progress?
    ensures Stands(env, w, actions, w.store, if a.ArriveUpload? then Upload(a.version, a.content) else Query(a.path))
  {
    assert Run(env, w, []) == Some(w);
    actions := Arrival(env, w, [], w.store, [], a);
  }

  lemma Goes(env: Env, w: World, actions: seq<Action>, s: Store, req: Request, key: string, fate: Fate, remote: Remote)
    returns (more: seq<Action>)
    requires Stands(env, w, actions, s, req) && Enabled(req, key) && fate != ReplyLost
    ensures fate == Served ==>
              Stands(env, w, more, Apply(s, Pending(req, key), remote).0,
                     Resume(env, req, key, Apply(s, Pending(req, key), remote).1))
    ensures fate == Refused ==> Stands(env, w, more, s, Resume(env, req, key, Unavailable))
  {
    more := Advance(env, w, actions, s, [req], 0, key, fate, remote);
    assert forall next: Request :: [req][0 := next] == [next];
  }

  // The run starts with a whole index in the given mode, and ends over a dangling entry with its one request over.
  ghost predicate ComesToDangle(env: Env, online: bool, w: World, actions: seq<Action>, key: string, last: Request) {
    && Initial(w) && NoDangling(w.store) && OnlineMode(StoreSettings(w.store)) == Some(online)
    && Run(env, w, actions).Some?
    && Run(env, w, actions).value.requests == [last] && last.IsOver()
    && Dangles(Run(env, w, actions).value.store, key)
  }

  // A store over the given settings with a patch for each of two versions.
  function TwoPatches(settings: Data, v: string, w: string): World {
    World(Store(Some(settings[KeyOf(v) := NameOf(v)][KeyOf(w) := NameOf(w)]), true,
                map[NameOf(v) := map[v := ""], NameOf(w) := map[w := ""]]),
          [], {(v, ""), (w, "")})
  }

  lemma TwoPatchesAreWhole(settings: Data, v: string, w: string)
    requires PatchKeys(settings) == {}
    ensures var u := TwoPatches(settings, v, w);
            && Initial(u) && NoDangling(u.store) && StoreSettings(u.store) == settings
            && PatchKeys(u.store.config.value) == {KeyOf(v), KeyOf(w)}
            && OnlineMode(u.store.config.value) == OnlineMode(settings)
  {
    KeysAndNames(v, w);
    KeysAndNames(w, v);
    var u := TwoPatches(settings, v, w);
    assert forall k :: k in settings ==> k !in PatchKeys(settings);
    assert StoreSettings(u.store) == settings;
    ModeIsASetting(u.store.config.value);
  }

  lemma QueryFetches(env: Env, w: World, path: string) returns (actions: seq<Action>)
    requires w.requests == [] && w.store.config.Some? && OnlineMode(w.store.config.value) == Some(true)
    ensures Stands(env, w, actions, w.store, FetchIndex(path, w.store.config.value))
  {
    actions := Arrives(env, w, ArriveQuery(path));
    actions := Goes(env, w, actions, w.store, Query(path), "", Served, url => None);
  }

  lemma QueryCleans(env: Env, w: World, path: string, remote: Remote, index: seq<Entry>) returns (actions: seq<Action>)
    requires w.requests == [] && w.store.config.Some? && OnlineMode(w.store.config.value) == Some(true)
    requires remote(path + "index.yaml").Some? && IndexEntries(env, remote(path + "index.yaml").value) == Some(index)
    requires PatchKeys(w.store.config.value) != {}
    ensures Stands(env, w, actions, w.store, Clean(path, w.store.config.value, index))
  {
    actions := QueryFetches(env, w, path);
    actions := Goes(env, w, actions, w.store, FetchIndex(path, w.store.config.value), "", Served, remote);
  }

  lemma CleanupStopsAt(env: Env, w: World, actions: seq<Action>, s: Store, path: string, data: Data, index: seq<Entry>,
                       key: string, next: string, remote: Remote)
    returns (more: seq<Action>)
    requires Stands(env, w, actions, s, Clean(path, data, index))
    requires {key, next} <= PatchKeys(data) && key != next && data[key] in s.patches
    ensures Stands(env, w, more, s.(patches := s.patches - {data[key]}), Finished(false))
  {
    more := Goes(env, w, actions, s, Clean(path, data, index), key, Served, remote);
    assert next in PatchKeys(data - {key});
    var t := s.(patches := s.patches - {data[key]});
    more := Goes(env, w, more, t, Clean(path, data - {key}, index), next, Refused, remote);
  }

  // Online: of two index entries the first patch is deleted, the deletion of the second is refused.
  lemma HalfACleanup(env: Env, settings: Data, v: string, w: string, path: string, remote: Remote)
    returns (actions: seq<Action>)
    requires PatchKeys(settings) == {} && OnlineMode(settings) == Some(true) && v != w
    requires remote(path + "index.yaml").Some? && IndexEntries(env, remote(path + "index.yaml").value).Some?
    ensures ComesToDangle(env, true, TwoPatches(settings, v, w), actions, KeyOf(v), Finished(false))
  {
    var start, index := TwoPatches(settings, v, w), IndexEntries(env, remote(path + "index.yaml").value).value;
    TwoPatchesAreWhole(settings, v, w);
    KeysAndNames(v, w);
    actions := QueryCleans(env, start, path, remote, index);
    actions := CleanupStopsAt(env, start, actions, start.store, path, start.store.config.value, index,
                              KeyOf(v), KeyOf(w), remote);
  }

  lemma UploadWrites(env: Env, w: World, v: string, content: string) returns (actions: seq<Action>)
    requires w.requests == [] && UploadWorks(env, w.store, content)
    ensures Stands(env, w, actions, w.store, Write(CheckNamespace, true, v, content, "", []))
  {
    actions := Arrives(env, w, ArriveUpload(v, content));
    actions := Goes(env, w, actions, w.store, Upload(v, content), "", Served, url => None);
  }

  lemma WriteDeletes(env: Env, w: World, actions: seq<Action>, s: Store, req: Request) returns (more: seq<Action>)
    requires req.Write? && req.phase == CheckNamespace && s.namespace && NameOf(req.version) in s.patches
    requires Stands(env, w, actions, s, req)
    ensures Stands(env, w, more, s, req.(phase := Delete))
  {
    more := WriteLooks(env, w, actions, s, req);
    more := Goes(env, w, more, s, req.(phase := Look), "", Served, url => None);
  }

  lemma WriteBreaks(env: Env, w: World, actions: seq<Action>, s: Store, req: Request) returns (more: seq<Action>)
    requires req.Write? && req.phase == Delete && NameOf(req.version) in s.patches
    requires Stands(env, w, actions, s, req)
    ensures Stands(env, w, more, s.(patches := s.patches - {NameOf(req.version)}), Broken(req.version))
  {
    more := Goes(env, w, actions, s, req, "", Served, url => None);
    var t := s.(patches := s.patches - {NameOf(req.version)});
    more := Goes(env, w, more, t, req.(phase := Create), "", Refused, url => None);
  }

  // Offline: an upload deletes the old patch, and creating the new one is refused.
  lemma HalfAnUpload(env: Env, settings: Data, v: string, w: string, content: string) returns (actions: seq<Action>)
    requires PatchKeys(settings) == {} && OnlineMode(settings) == Some(false) && ValidContent(env, content)
    ensures ComesToDangle(env, false, TwoPatches(settings, v, w), actions, KeyOf(v), Broken(v))
  {
    var start, req := TwoPatches(settings, v, w), Write(CheckNamespace, true, v, content, "", []);
    TwoPatchesAreWhole(settings, v, w);
    KeysAndNames(v, w);
    actions := UploadWrites(env, start, v, content);
    actions := WriteDeletes(env, start, actions, start.store, req);
    actions := WriteBreaks(env, start, actions, start.store, req.(phase := Delete));
  }

  // A query over an index without patch entries goes on to download the remote ones.
  lemma QueryRefills(env: Env, w: World, path: string, remote: Remote, entries: seq<Entry>)
    returns (actions: seq<Action>)
    requires w.requests == [] && w.store.config.Some? && OnlineMode(w.store.config.value) == Some(true)
    requires remote(path + "index.yaml").Some? && IndexEntries(env, remote(path + "index.yaml").value) == Some(entries)
    requires PatchKeys(w.store.config.value) == {} && entries != []
    ensures Stands(env, w, actions, w.store, FetchPatch(path, entries))
  {
    actions := QueryFetches(env, w, path);
    var data := w.store.config.value;
    actions := Goes(env, w, actions, w.store, FetchIndex(path, data), "", Served, remote);
    actions := Goes(env, w, actions, w.store, Update(path, data, entries), "", Served, remote);
  }

  lemma EntryIsFetched(env: Env, w: World, actions: seq<Action>, s: Store, path: string, entries: seq<Entry>,
                       remote: Remote) returns (more: seq<Action>)
    requires Stands(env, w, actions, s, FetchPatch(path, entries)) && entries != []
    requires remote(path + entries[0].filePath).Some?
    ensures Stands(env, w, more, s,
                   Write(CheckNamespace, false, entries[0].version, ContentOf(remote, path, entries[0]), path,
                         entries[1..]))
  {
    more := Goes(env, w, actions, s, FetchPatch(path, entries), "", Served, remote);
  }

  lemma WriteCreates(env: Env, w: World, actions: seq<Action>, s: Store, req: Request) returns (more: seq<Action>)
    requires req.Write? && req.phase == CheckNamespace && s.namespace && NameOf(req.version) !in s.patches
    requires Stands(env, w, actions, s, req)
    ensures Stands(env, w, more, AddPatch(s, req.version, req.content), req.(phase := Index))
  {
    more := WriteLooks(env, w, actions, s, req);
    more := Goes(env, w, more, s, req.(phase := Look), "", Served, url => None);
    more := Goes(env, w, more, s, req.(phase := Create), "", Served, url => None);
  }

  lemma WriteLooks(env: Env, w: World, actions: seq<Action>, s: Store, req: Request) returns (more: seq<Action>)
    requires req.Write? && req.phase == CheckNamespace && s.namespace && Stands(env, w, actions, s, req)
    ensures Stands(env, w, more, s, req.(phase := Look))
  {
    more := Goes(env, w, actions, s, req, "", Served, url => None);
  }

  // Online: a remote index lists a version twice, and its second creation is refused.
  lemma HalfARefill(env: Env, settings: Data, first: Entry, second: Entry, path: string, remote: Remote)
    returns (actions: seq<Action>)
    requires PatchKeys(settings) == {} && OnlineMode(settings) == Some(true) && first.version == second.version
    requires remote(path + "index.yaml").Some?
    requires IndexEntries(env, remote(path + "index.yaml").value) == Some([first, second])
    requires Fetchable(remote, path, [first, second])
    ensures ComesToDangle(env, true, NoPatches(settings), actions, KeyOf(first.version), Broken(first.version))
  {
    var v, start, entries := first.version, NoPatches(settings), [first, second];
    NoPatchesAreWhole(settings);
    KeysAndNames(v, v);
    actions := QueryRefills(env, start, path, remote, entries);
    assert entries[0] == first && entries[1] == second && entries[1..] == [second] && [second][1..] == [];
    actions := EntryIsFetched(env, start, actions, start.store, path, entries, remote);
    actions := FirstIsWritten(env, start, actions, start.store, v, ContentOf(remote, path, first), path, [second]);
    var s := Indexed(start.store, v, ContentOf(remote, path, first));
    actions := EntryIsFetched(env, start, actions, s, path, [second], remote);
    var req := Write(CheckNamespace, false, v, ContentOf(remote, path, second), path, []);
    actions := WriteDeletes(env, start, actions, s, req);
    actions := WriteBreaks(env, start, actions, s, req.(phase := Delete));
  }

  lemma FirstIsWritten(env: Env, w: World, actions: seq<Action>, s: Store, v: string, content: string, path: string,
                       rest: seq<Entry>) returns (more: seq<Action>)
    requires s.config.Some? && s.namespace && NameOf(v) !in s.patches && rest != []
    requires Stands(env, w, actions, s, Write(CheckNamespace, false, v, content, path, rest))
    ensures Stands(env, w, more, Indexed(s, v, content), FetchPatch(path, rest))
  {
    var req := Write(CheckNamespace, false, v, content, path, rest);
    more := WriteCreates(env, w, actions, s, req);
    more := Goes(env, w, more, AddPatch(s, v, content), req.(phase := Index), "", Served, url => None);
  }

  function NoPatches(settings: Data): World {
    World(Store(Some(settings), true, map[]), [], {})
  }

  lemma NoPatchesAreWhole(settings: Data)
    requires PatchKeys(settings) == {}
    ensures var u := NoPatches(settings); Initial(u) && NoDangling(u.store) && StoreSettings(u.store) == settings
  {
    assert forall k :: k in settings ==> k !in PatchKeys(settings);
  }

  lemma NotBlank(s: string)
    requires s != "" && !IsSpace(s[0])
    ensures !Blank(s)
  {
    assert TrimSpaceLeft(s) == s;
    RightTrimStops(s, 0);
  }

  lemma OnlySettings(otherRepo: string, onlineImage: string)
    ensures var data := map["otherRepo" := otherRepo, "onlineImage" := onlineImage];
            PatchKeys(data) == {} && OnlineMode(data) == Some(otherRepo != "" || onlineImage != "")
  {
    assert KEY_PREFIX[0] == 'p' && "otherRepo"[0] == 'o' && "onlineImage"[0] == 'o';
    var data := map["otherRepo" := otherRepo, "onlineImage" := onlineImage];
    assert "otherRepo" in data && "onlineImage" in data;
    assert "otherRepo"[1] != "onlineImage"[1];
  }

  // This happens too, at concrete settings and entries.
  lemma RefillsComeToDangle() returns (env: Env, refill: seq<Action>)
    ensures ComesToDangle(env, true, NoPatches(map["otherRepo" := "cr.example.cn", "onlineImage" := ""]),
                          refill, KeyOf("1"), Broken("1"))
  {
    var entry := Entry("1", "1.yaml");
    var items := TwiceListed(entry);
    env := Env(_ => None, _ => None, _ => Some(items), "deploy/", "patch/");
    OnlySettings("cr.example.cn", "");
    refill := HalfARefill(env, map["otherRepo" := "cr.example.cn", "onlineImage" := ""], entry, entry, "patch/",
                          url => Some(""));
  }

  lemma TwiceListed(e: Entry) returns (items: seq<map<string, string>>)
    requires e.filePath != "" && e.filePath[0] != '.'
    ensures Entries(items) == Some([e, e])
  {
    var item := map["openFuyaoVersion" := e.version, "filePath" := e.filePath];
    assert "openFuyaoVersion"[0] != "filePath"[0];
    assert "./"[0] == '.' && TrimPrefix(e.filePath, "./") == e.filePath;
    assert EntryOf(item) == Some(e);
    items := [item, item];
    EntriesExactly(items);
    var entries := Entries(items).value;
    assert EntryOf(items[0]) == Some(entries[0]) && EntryOf(items[1]) == Some(entries[1]);
    assert entries == [e, e];
  }

  // Both happen, at concrete settings, versions and contents.
  lemma EntriesComeToDangle() returns (env: Env, cleanup: seq<Action>, upload: seq<Action>)
    ensures ComesToDangle(env, true, TwoPatches(map["otherRepo" := "cr.example.cn", "onlineImage" := ""], "1", "2"),
                          cleanup, KeyOf("1"), Finished(false))
    ensures ComesToDangle(env, false, TwoPatches(map["otherRepo" := "", "onlineImage" := ""], "1", "2"),
                          upload, KeyOf("1"), Broken("1"))
  {
    var info := PatchVersionInfo("1", "1", "1", "1");
    env := Env(_ => Some(info), _ => None, _ => Some([]), "deploy/", "patch/");
    NotBlank("1");
    OnlySettings("cr.example.cn", "");
    OnlySettings("", "");
    assert "1"[0] != "2"[0];
    cleanup := HalfACleanup(env, map["otherRepo" := "cr.example.cn", "onlineImage" := ""], "1", "2", "patch/",
                            url => Some(""));
    upload := HalfAnUpload(env, map["otherRepo" := "", "onlineImage" := ""], "1", "2", "");
  }

  // ---------- runs of successful operations ----------

  datatype Op = UploadOp(version: string, content: string) | QueryOp(path: string, remote: Remote)

  ghost predicate Succeeds(env: Env, s: Store, op: Op) {
    match op
    case UploadOp(_, content) => UploadWorks(env, s, content)
    case QueryOp(path, remote) => QueryWorks(env, remote, path, s)
  }

  ghost function After(env: Env, s: Store, op: Op): Store
    requires Succeeds(env, s, op)
  {
    match op
    case UploadOp(version, content) => Indexed(s, version, content)
    case QueryOp(path, remote) => AfterQuery(env, remote, path, s)
  }

  // The store after a run in which every operation succeeds; None for any other run.
  ghost function RunOps(env: Env, s: Store, ops: seq<Op>): Option<Store> {
    if ops == [] then Some(s)
    else
      var before := RunOps(env, s, ops[..|ops| - 1]);
      var op := ops[|ops| - 1];
      if before.Some? && Succeeds(env, before.value, op) then Some(After(env, before.value, op)) else None
  }

  // No run of successful uploads and queries, online or offline, leaves a dangling index entry.
  lemma {:induction false} RunsKeepIndexWhole(env: Env, s: Store, ops: seq<Op>)
    requires NoDangling(s) && RunOps(env, s, ops).Some?
    ensures NoDangling(RunOps(env, s, ops).value)
    ensures StoreSettings(RunOps(env, s, ops).value) == StoreSettings(s)
  {
    if ops != [] {
      RunsKeepIndexWhole(env, s, ops[..|ops| - 1]);
      var t, op := RunOps(env, s, ops[..|ops| - 1]).value, ops[|ops| - 1];
      match op
      case UploadOp(version, content) =>
        KeysAndNames(version, version);
        SettingsStay(t.config.value, version);
      case QueryOp(path, remote) =>
        if OnlineMode(t.config.value).value {
          RefreshIsMirror(env, remote, path, t);
        }
    }
  }

  // getPatchInfo, given the version that the cluster asks for, and getVersionFromPatchCM, both offline.
  ghost function LookupName(s: Store, version: string): Option<string> {
    if s.config.Some? && !Blank(version) && KeyOf(version) in s.config.value && !Blank(s.config.value[KeyOf(version)])
    then Some(s.config.value[KeyOf(version)]) else None
  }

  function LookupInfo(env: Env, s: Store, name: string): Option<PatchVersionInfo> {
    if name !in s.patches then None
    else
      var version := TrimPrefix(name, VALUE_PREFIX);
      var info := if version in s.patches[name] then env.info(s.patches[name][version])
                  else Some(PatchVersionInfo("", "", "", ""));
      if info.Some? && ValidInfo(info.value) then info else None
  }

  lemma {:induction false} RightTrimStops(s: string, i: nat)
    requires i < |s| && !IsSpace(s[i])
    ensures TrimSpaceRight(s) != ""
  {
    if IsSpace(s[|s| - 1]) {
      RightTrimStops(s[..|s| - 1], i);
    }
  }

  lemma NamesAreNotBlank(version: string)
    ensures !Blank(NameOf(version))
  {
    var name := NameOf(version);
    assert name[0] == 'c' && !IsSpace(name[0]);
    assert TrimSpaceLeft(name) == name;
    RightTrimStops(name, 0);
  }

  // What a run of successful offline operations has put under a version: the content of its last upload.
  ghost predicate LastUpload(ops: seq<Op>, i: nat, version: string, content: string) {
    && i < |ops| && ops[i] == UploadOp(version, content)
    && forall j :: i < j < |ops| ==> ops[j].QueryOp? || ops[j].version != version
  }

  ghost predicate Stored(env: Env, t: Store, version: string, content: string) {
    && t.config.Some? && OnlineMode(t.config.value) == Some(false)
    && KeyOf(version) in t.config.value && t.config.value[KeyOf(version)] == NameOf(version)
    && NameOf(version) in t.patches && t.patches[NameOf(version)] == map[version := content]
    && ValidContent(env, content)
  }

  lemma UploadStores(env: Env, s: Store, version: string, content: string)
    requires UploadWorks(env, s, content)
    ensures Stored(env, Indexed(s, version, content), version, content)
  {
    var data := s.config.value;
    SettingsStay(data, version);
    ModeIsASetting(data);
    ModeIsASetting(data[KeyOf(version) := NameOf(version)]);
  }

  lemma OthersLeaveStored(env: Env, s: Store, op: Op, version: string, content: string)
    requires Stored(env, s, version, content) && Succeeds(env, s, op)
    requires op.QueryOp? || op.version != version
    ensures Stored(env, After(env, s, op), version, content)
  {
    if op.UploadOp? {
      KeysAndNames(op.version, version);
      UploadStores(env, s, op.version, op.content);
    }
  }

  lemma {:induction false} UploadIsStored(env: Env, s: Store, ops: seq<Op>, i: nat, version: string, content: string)
    requires RunOps(env, s, ops).Some? && LastUpload(ops, i, version, content)
    ensures Stored(env, RunOps(env, s, ops).value, version, content)
  {
    var before := ops[..|ops| - 1];
    var t := RunOps(env, s, before).value;
    if i == |ops| - 1 {
      UploadStores(env, t, version, content);
    } else {
      UploadIsStored(env, s, before, i, version, content);
      OthersLeaveStored(env, t, ops[|ops| - 1], version, content);
    }
  }

  // After any run of successful operations, looking up an uploaded version gives the parse of exactly the
  // content last uploaded for it, whatever was uploaded for other versions before, between and after.
  lemma LookupFindsLastUpload(env: Env, s: Store, ops: seq<Op>, i: nat, version: string, content: string)
    requires RunOps(env, s, ops).Some? && LastUpload(ops, i, version, content) && !Blank(version)
    ensures var t := RunOps(env, s, ops).value;
            && LookupName(t, version) == Some(NameOf(version))
            && LookupInfo(env, t, NameOf(version)) == env.info(content)
  {
    UploadIsStored(env, s, ops, i, version, content);
    NamesAreNotBlank(version);
    KeysAndNames(version, version);
  }
}
