/** The installer's patch store operations, one API call at a time.

    A PatchClient issues its calls through Do, which demands that the call be the one its request in
    PatchProtocol is waiting to make; so every method here runs that protocol, under every failure of its
    calls. Nothing else writes to the store during a method; PatchProtocol treats the interleavings. */
module PatchStore {
  import opened Wrappers
  import opened GoStrings
  import opened ApiServer
  import opened PatchProtocol
  import opened Newlines

  // ---------- what the operations do to the store ----------

  function AddPatch(s: Store, version: string, content: string): Store {
    s.(namespace := true, patches := s.patches[NameOf(version) := map[version := content]])
  }

  // The store after a version has been written: its patch, and its index entry.
  function Indexed(s: Store, version: string, content: string): Store
    requires s.config.Some?
  {
    var t := AddPatch(s, version, content);
    t.(config := Some(s.config.value[KeyOf(version) := NameOf(version)]))
  }

  // The names that the given entries of data lead to.
  function NamesOf(data: Data, keys: set<string>): set<string> {
    set k | k in keys && k in data :: data[k]
  }

  function Named(data: Data): set<string> {
    NamesOf(data, PatchKeys(data))
  }

  function Cleaned(s: Store, data: Data): Store {
    s.(config := Some(Settings(data)), patches := s.patches - Named(data))
  }

  // Each index entry names a stored patch, and no two name the same one.
  ghost predicate Cleanable(data: Data, patches: map<string, Data>) {
    && (forall k :: k in PatchKeys(data) ==> data[k] in patches)
    && (forall k, l :: k in PatchKeys(data) && l in PatchKeys(data) && data[k] == data[l] ==> k == l)
  }

  // The entries in gone have had their patches deleted, one call for each.
  ghost predicate CleanedSoFar(data: Data, patches: map<string, Data>, gone: set<string>) {
    && gone <= PatchKeys(data)
    && (forall k :: k in gone ==> data[k] in patches)
    && (forall k, l :: k in gone && l in gone && data[k] == data[l] ==> k == l)
  }

  lemma OneMore(data: Data, patches: map<string, Data>, gone: set<string>, key: string)
    requires CleanedSoFar(data, patches, gone) && key in PatchKeys(data) - gone
    ensures data[key] in patches - NamesOf(data, gone) ==>
              && CleanedSoFar(data, patches, gone + {key})
              && patches - NamesOf(data, gone) - {data[key]} == patches - NamesOf(data, gone + {key})
    ensures data[key] !in patches - NamesOf(data, gone) ==> !Cleanable(data, patches)
    ensures data - gone - {key} == data - (gone + {key})
    ensures key in PatchKeys(data - gone) && (data - gone)[key] == data[key]
  {
    assert NamesOf(data, gone + {key}) == NamesOf(data, gone) + {data[key]};
  }

  lemma AllGone(data: Data, patches: map<string, Data>)
    requires CleanedSoFar(data, patches, PatchKeys(data))
    ensures Cleanable(data, patches)
    ensures data - PatchKeys(data) == Settings(data) && PatchKeys(Settings(data)) == {}
  {
  }

  // How a cleanup of the index copy data may end: with all patches and index entries gone, or with some
  // patches deleted under an index that is left as it was.
  ghost predicate CleanupOutcome(s: Store, data: Data, ok: bool, gone: set<string>, t: Store) {
    if ok then s.config.Some? && Cleanable(data, s.patches) && t == Cleaned(s, data)
    else CleanedSoFar(data, s.patches, gone) && t == s.(patches := s.patches - NamesOf(data, gone))
  }

  // Every entry's patch is there to be fetched.
  ghost predicate Fetchable(remote: Remote, path: string, entries: seq<Entry>) {
    forall i :: 0 <= i < |entries| ==> remote(path + entries[i].filePath).Some?
  }

  function ContentOf(remote: Remote, path: string, e: Entry): string {
    if remote(path + e.filePath).Some? then Normalise(remote(path + e.filePath).value) else ""
  }

  // The store after the entries have been written one after the other.
  function Refilled(s: Store, remote: Remote, path: string, entries: seq<Entry>): (t: Store)
    requires s.config.Some?
    ensures t.config.Some?
  {
    if entries == [] then s
    else
      var e := entries[|entries| - 1];
      Indexed(Refilled(s, remote, path, entries[..|entries| - 1]), e.version, ContentOf(remote, path, e))
  }

  // Where writing a version may stop before its index entry: over the old patch, no patch, or the new one.
  ghost predicate WriteStops(s: Store, version: string, content: string, t: Store) {
    || t == s
    || t == s.(namespace := true)
    || t == s.(namespace := true, patches := s.patches - {NameOf(version)})
    || t == AddPatch(s, version, content)
  }

  // Where refilling may stop: the entries before i are written, and entry i is not, or half.
  ghost predicate RefillStopsAt(base: Store, remote: Remote, path: string, entries: seq<Entry>, i: nat, t: Store) {
    && base.config.Some? && i < |entries| && Fetchable(remote, path, entries[..i])
    && WriteStops(Refilled(base, remote, path, entries[..i]), entries[i].version,
                  ContentOf(remote, path, entries[i]), t)
  }

  ghost predicate RefillStops(base: Store, remote: Remote, path: string, entries: seq<Entry>, t: Store) {
    exists i :: RefillStopsAt(base, remote, path, entries, i, t)
  }

  ghost predicate CleanupStops(s: Store, t: Store) {
    s.config.Some? && exists gone :: CleanupOutcome(s, s.config.value, false, gone, t)
  }

  // Where a refresh may stop: with the index as it was over patches partly deleted, or cleaned and partly refilled.
  ghost predicate RefreshStops(env: Env, remote: Remote, path: string, s: Store, t: Store) {
    || CleanupStops(s, t)
    || (s.config.Some? && Cleanable(s.config.value, s.patches)
        && RefillStops(Cleaned(s, s.config.value), remote, path, RemoteEntries(env, remote, path), t))
  }

  function Versions(entries: seq<Entry>): seq<string> {
    seq(|entries|, i requires 0 <= i < |entries| => entries[i].version)
  }

  // When a refresh of the index from the remote repository succeeds, and the store it then leaves.
  ghost predicate RefreshWorks(env: Env, remote: Remote, path: string, s: Store) {
    && s.config.Some?
    && remote(path + "index.yaml").Some? && IndexEntries(env, remote(path + "index.yaml").value).Some?
    && Cleanable(s.config.value, s.patches)
    && Fetchable(remote, path, IndexEntries(env, remote(path + "index.yaml").value).value)
  }

  ghost function RemoteEntries(env: Env, remote: Remote, path: string): seq<Entry> {
    if remote(path + "index.yaml").Some? && IndexEntries(env, remote(path + "index.yaml").value).Some?
    then IndexEntries(env, remote(path + "index.yaml").value).value else []
  }

  ghost function Refreshed(env: Env, remote: Remote, path: string, s: Store): Store
    requires s.config.Some?
  {
    Refilled(Cleaned(s, s.config.value), remote, path, RemoteEntries(env, remote, path))
  }

  lemma SettingsStay(data: Data, version: string)
    ensures Settings(data[KeyOf(version) := NameOf(version)]) == Settings(data)
    ensures Settings(Settings(data)) == Settings(data)
  {
    KeysAndNames(version, version);
  }

  lemma {:induction false} RefillKeepsSettings(s: Store, remote: Remote, path: string, entries: seq<Entry>)
    requires s.config.Some?
    ensures StoreSettings(Refilled(s, remote, path, entries)) == StoreSettings(s)
  {
    if entries != [] {
      var before := entries[..|entries| - 1];
      RefillKeepsSettings(s, remote, path, before);
      SettingsStay(Refilled(s, remote, path, before).config.value, entries[|entries| - 1].version);
    }
  }

  lemma Slices(entries: seq<Entry>, i: nat)
    requires i < |entries|
    ensures entries[..i + 1][..i] == entries[..i] && entries[..i + 1][i] == entries[i]
    ensures entries[i..] != [] && entries[i..][0] == entries[i] && entries[i..][1..] == entries[i + 1..]
    ensures Versions(entries[..i + 1]) == Versions(entries[..i]) + [entries[i].version]
  {
  }

  // One more entry, taken from the front of those left.
  lemma RefillStep(s: Store, remote: Remote, path: string, entries: seq<Entry>, i: nat)
    requires s.config.Some? && i < |entries|
    ensures Refilled(s, remote, path, entries[..i + 1])
         == Indexed(Refilled(s, remote, path, entries[..i]), entries[i].version, ContentOf(remote, path, entries[i]))
    ensures StoreSettings(Refilled(s, remote, path, entries[..i])) == StoreSettings(s)
    ensures entries[i..] != [] && entries[i..][0] == entries[i] && entries[i..][1..] == entries[i + 1..]
    ensures Versions(entries[..i + 1]) == Versions(entries[..i]) + [entries[i].version]
    ensures Fetchable(remote, path, entries[..i]) && remote(path + entries[i].filePath).Some?
            ==> Fetchable(remote, path, entries[..i + 1])
  {
    Slices(entries, i);
    RefillKeepsSettings(s, remote, path, entries[..i]);
  }

  // When a version query succeeds, and the store it then leaves.
  ghost predicate QueryWorks(env: Env, remote: Remote, path: string, s: Store) {
    && s.config.Some? && OnlineMode(s.config.value).Some?
    && (OnlineMode(s.config.value).value ==> RefreshWorks(env, remote, path, s))
  }

  ghost function AfterQuery(env: Env, remote: Remote, path: string, s: Store): Store {
    if s.config.Some? && OnlineMode(s.config.value) == Some(true) then Refreshed(env, remote, path, s) else s
  }

  // How a version query may end: offline it never changes the store.
  ghost predicate QueryOutcome(env: Env, remote: Remote, path: string, s: Store, ok: bool, t: Store) {
    if ok then QueryWorks(env, remote, path, s) && t == AfterQuery(env, remote, path, s)
    else if s.config.Some? && OnlineMode(s.config.value) == Some(true) then RefreshStops(env, remote, path, s, t)
    else t == s
  }

  // Online, a query is a refresh.
  lemma OnlineQuery(env: Env, remote: Remote, path: string, s: Store)
    requires s.config.Some? && OnlineMode(s.config.value) == Some(true)
    ensures QueryWorks(env, remote, path, s) <==> RefreshWorks(env, remote, path, s)
    ensures AfterQuery(env, remote, path, s) == Refreshed(env, remote, path, s)
    ensures forall t :: RefreshStops(env, remote, path, s, t) ==> QueryOutcome(env, remote, path, s, false, t)
    ensures forall versions :: QueryAnswers(env, remote, path, s, versions)
              <==> versions == Versions(RemoteEntries(env, remote, path))
  {
  }

  // A query that fails before its first write leaves the store.
  lemma NothingDone(env: Env, remote: Remote, path: string, s: Store)
    ensures QueryOutcome(env, remote, path, s, false, s)
  {
    if s.config.Some? {
      assert CleanupOutcome(s, s.config.value, false, {}, s);
    }
  }

  // versions lists each indexed version of data once, in some order.
  ghost predicate ListsIndex(data: Data, versions: seq<string>) {
    && (forall v :: v in versions <==> KeyOf(v) in data)
    && (forall i, j :: 0 <= i < j < |versions| ==> versions[i] != versions[j])
  }

  ghost predicate QueryAnswers(env: Env, remote: Remote, path: string, s: Store, versions: seq<string>) {
    if s.config.Some? && OnlineMode(s.config.value) == Some(true)
    then versions == Versions(RemoteEntries(env, remote, path))
    else s.config.Some? && ListsIndex(s.config.value, versions)
  }

  // filepath.Ext, and the file name without it.
  function Ext(fileName: string): string {
    if fileName == "" || fileName[|fileName| - 1] == '/' then ""
    else if fileName[|fileName| - 1] == '.' then "."
    else
      var ext := Ext(fileName[..|fileName| - 1]);
      if ext == "" then "" else ext + [fileName[|fileName| - 1]]
  }

  function TrimExt(fileName: string): string {
    if |Ext(fileName)| <= |fileName| then fileName[..|fileName| - |Ext(fileName)|] else fileName
  }

  lemma {:induction false} ExtOf(version: string, ext: string)
    requires '.' !in ext && '/' !in ext
    ensures Ext(version + "." + ext) == "." + ext
    ensures TrimExt(version + "." + ext) == version
  {
    var fileName := version + "." + ext;
    if ext != "" {
      var shorter := ext[..|ext| - 1];
      ExtOf(version, shorter);
      assert fileName[..|fileName| - 1] == version + "." + shorter;
      assert "." + shorter + [ext[|ext| - 1]] == "." + ext;
    }
  }

  // A file name without a dot is the version.
  lemma {:induction false} NoExtension(fileName: string)
    requires '.' !in fileName
    ensures TrimExt(fileName) == fileName && Ext(fileName) == ""
  {
    if fileName != "" {
      NoExtension(fileName[..|fileName| - 1]);
    }
  }

  // How an upload may end: with the patch and its index entry written; refused, with nothing changed, because of
  // the mode or the content; or broken off by a failing call.
  ghost predicate UploadOutcome(env: Env, s: Store, version: string, content: string, ok: bool, t: Store) {
    if ok then UploadWorks(env, s, content) && t == Indexed(s, version, content)
    else if UploadWorks(env, s, content) then WriteStops(s, version, content, t)
    else t == s
  }

  ghost predicate UploadWorks(env: Env, s: Store, content: string) {
    s.config.Some? && OnlineMode(s.config.value) == Some(false) && ValidContent(env, content)
  }

  // ---------- the client ----------

  // The client's own copy of a ConfigMap, edited in place.
  class ConfigMap {
    var data: Data

    constructor (data: Data)
      ensures this.data == data
    {
      this.data := data;
    }
  }

  class PatchClient {
    const env: Env
    const remote: Remote
    // whether the n-th call fails; a failed call has no effect
    const fault: nat -> bool
    var store: Store
    var clock: nat
    ghost var at: Request

    constructor (env: Env, remote: Remote, fault: nat -> bool, store: Store)
      ensures this.env == env && this.remote == remote && this.fault == fault
      ensures this.store == store && clock == 0
    {
      this.env, this.remote, this.fault, this.store, this.clock := env, remote, fault, store, 0;
      this.at := Finished(true);
    }

    ghost predicate NoFaults()
      reads this
    {
      forall n :: n >= clock ==> !fault(n)
    }

    // One call of the request under way.
    method Do(call: Call, ghost key: string) returns (reply: Reply)
      requires Enabled(at, key) && call == Pending(at, key)
      modifies this
      ensures clock == old(clock) + 1
      ensures (store, reply)
           == if fault(old(clock)) then (old(store), Unavailable) else Apply(old(store), call, remote)
      ensures at == Resume(env, old(at), key, reply)
    {
      if fault(clock) {
        reply := Unavailable;
      } else {
        var (after, answer) := Apply(store, call, remote);
        store, reply := after, answer;
      }
      clock := clock + 1;
      at := Resume(env, at, key, reply);
    }

    // A call that only reads, outside the protocol.
    method Read(call: Call) returns (reply: Reply)
      requires call.GetConfig? || call.GetPatch?
      modifies this`clock
      ensures clock == old(clock) + 1
      ensures reply == if fault(old(clock)) then Unavailable else Apply(store, call, remote).1
    {
      reply := if fault(clock) then Unavailable else Apply(store, call, remote).1;
      clock := clock + 1;
    }

    method EnsureNsExists() returns (ok: bool)
      requires at.Write? && at.phase == CheckNamespace
      modifies this
      ensures store == if ok then old(store).(namespace := true) else old(store)
      ensures at == if ok then old(at).(phase := Look) else Finished(false)
      ensures clock >= old(clock) && (old(NoFaults()) ==> ok)
    {
      var reply := Do(GetNamespace, "");
      if reply == Done { return true; }
      if reply != NotFound { return false; }
      reply := Do(CreateNamespace, "");
      ok := reply == Done || reply == AlreadyExists;
    }

    // Stores the patch of a version under cm.v, replacing an older one; answers its index key and value. When
    // that fails, the old patch is still there or is gone, and nothing else has changed.
    method AddPatchesToConfigMap(version: string, content: string) returns (r: Option<(string, string)>)
      requires at.Write? && at.phase == CheckNamespace && at.version == version && at.content == content
      modifies this
      ensures r.Some? ==> r.value == (KeyOf(version), NameOf(version))
      ensures r.Some? ==> store == AddPatch(old(store), version, content)
      ensures r.Some? ==> at == old(at).(phase := Index)
      ensures r.None? ==> at == Finished(false) || at == Broken(version)
      ensures r.None? ==> WriteStops(old(store), version, content, store)
      ensures r.None? ==> store.patches == old(store).patches || store.patches == old(store).patches - {NameOf(version)}
      ensures at == Finished(false) ==> store.patches == old(store).patches
      ensures clock >= old(clock) && (old(NoFaults()) ==> r.Some?)
    {
      var key, value := KEY_PREFIX + version, VALUE_PREFIX + version;
      var ok := EnsureNsExists();
      if !ok { return None; }
      ok := RemoveOldPatch(value);
      if !ok { return None; }
      var created := Do(CreatePatch(value, map[version := content]), "");
      if created != Done { return None; }
      return Some((key, value));
    }

    // An existing patch is deleted first.
    method RemoveOldPatch(name: string) returns (ok: bool)
      requires at.Write? && at.phase == Look && name == NameOf(at.version)
      modifies this
      ensures store == if ok then old(store).(patches := old(store).patches - {name}) else old(store)
      ensures ok ==> at == old(at).(phase := Create)
      ensures !ok ==> at == Finished(false) || at == Broken(old(at).version)
      ensures clock >= old(clock) && (old(NoFaults()) ==> ok)
    {
      var found := Do(GetPatch(name), "");
      if !found.Object? && found != NotFound { return false; }
      if found.Object? {
        ok := DeletePatchesFromConfigMap(name);
        return;
      }
      assert store.patches - {name} == store.patches;
      ok := true;
    }

    method DeletePatchesFromConfigMap(name: string, ghost key: string := "") returns (ok: bool)
      requires Enabled(at, key) && Pending(at, key) == DeletePatch(name)
      modifies this
      ensures clock == old(clock) + 1
      ensures ok <==> !fault(old(clock)) && name in old(store).patches
      ensures store == if ok then old(store).(patches := old(store).patches - {name}) else old(store)
      ensures at == Resume(env, old(at), key, if ok then Done else NotFound)
    {
      var reply := Do(DeletePatch(name), key);
      ok := reply == Done;
    }

    method AddPatchInfoToConfigMap(patchKey: string, patchValue: string) returns (ok: bool)
      requires at.Write? && at.phase == Index
      requires patchKey == KeyOf(at.version) && patchValue == NameOf(at.version)
      modifies this
      ensures ok ==> old(store).config.Some?
      ensures store == if ok then old(store).(config := Some(old(store).config.value[patchKey := patchValue]))
                       else old(store)
      ensures at == if ok then NextEntry(old(at).path, old(at).rest) else Finished(false)
      ensures clock >= old(clock) && (old(NoFaults()) && old(store).config.Some? ==> ok)
    {
      var reply := Do(PatchConfig(patchKey, patchValue), "");
      ok := reply == Done;
    }

    // ---------- cleaning ----------

    // One turn of the cleaning loop: deletes the patch behind one index entry, then the entry in cm.
    method CleanEntry(cm: ConfigMap, key: string, ghost data: Data, ghost patches: map<string, Data>,
                      ghost gone: set<string>) returns (ok: bool)
      requires at.Clean? && at.data == cm.data && key in PatchKeys(data) - gone
      requires cm.data == data - gone && CleanedSoFar(data, patches, gone)
      requires store.patches == patches - NamesOf(data, gone)
      modifies this, cm
      ensures ok ==> cm.data == data - (gone + {key}) && CleanedSoFar(data, patches, gone + {key})
      ensures ok ==> store == old(store).(patches := patches - NamesOf(data, gone + {key}))
      ensures ok ==> at == StartClean(old(at).path, cm.data, old(at).entries)
      ensures !ok ==> cm.data == old(cm.data) && store == old(store) && at == Finished(false)
      ensures clock >= old(clock) && (old(NoFaults()) && !ok ==> !Cleanable(data, patches))
    {
      OneMore(data, patches, gone, key);
      ok := DeletePatchesFromConfigMap(cm.data[key], key);
      if ok {
        cm.data := cm.data - {key};
      }
    }

    // The cleaning loop: every index entry, in any order.
    method CleanEntries(cm: ConfigMap, ghost path: string, ghost entries: seq<Entry>) returns (ok: bool)
      requires at == StartClean(path, cm.data, entries)
      modifies this, cm
      ensures CleanedSoFar(old(cm.data), old(store).patches, old(cm.data).Keys - cm.data.Keys)
      ensures store == old(store).(patches := old(store).patches
                                     - NamesOf(old(cm.data), old(cm.data).Keys - cm.data.Keys))
      ensures cm.data == old(cm.data) - (old(cm.data).Keys - cm.data.Keys)
      ensures ok ==> old(cm.data).Keys - cm.data.Keys == PatchKeys(old(cm.data))
      ensures at == if ok then StartClean(path, cm.data, entries) else Finished(false)
      ensures clock >= old(clock) && (old(NoFaults()) && !ok ==> !Cleanable(old(cm.data), old(store).patches))
    {
      ghost var data, patches := cm.data, store.patches;
      var todo := cm.data.Keys;
      ghost var gone: set<string> := {};
      assert data - gone == data;
      while todo != {}
        invariant todo <= data.Keys && gone == PatchKeys(data) - todo
        invariant CleanedSoFar(data, patches, gone)
        invariant cm.data == data - gone
        invariant store == old(store).(patches := patches - NamesOf(data, gone))
        invariant at == StartClean(path, cm.data, entries)
        invariant clock >= old(clock)
        decreases todo
      {
        var key :| key in todo;
        if IsPatchKey(key) {
          assert key in PatchKeys(cm.data);
          var deleted := CleanEntry(cm, key, data, patches, gone);
          if !deleted {
            assert data.Keys - cm.data.Keys == gone;
            return false;
          }
          gone := gone + {key};
        }
        todo := todo - {key};
      }
      assert gone == PatchKeys(data);
      assert data.Keys - cm.data.Keys == gone;
      ok := true;
    }

    // Deletes the patch behind every index entry of cm, and then writes cm back without them.
    method CleanConfigMapPatches(cm: ConfigMap, ghost path: string, ghost entries: seq<Entry>) returns (ok: bool)
      requires at == StartClean(path, cm.data, entries)
      modifies this, cm
      ensures CleanupOutcome(old(store), old(cm.data), ok, old(cm.data).Keys - cm.data.Keys, store)
      ensures ok ==> cm.data == Settings(old(cm.data))
      ensures at == if ok then NextEntry(path, entries) else Finished(false)
      ensures clock >= old(clock)
      ensures old(NoFaults()) && old(store).config.Some? ==> (ok <==> Cleanable(old(cm.data), old(store).patches))
    {
      ok := CleanEntries(cm, path, entries);
      if !ok { return; }
      AllGone(old(cm.data), old(store).patches);
      var reply := Do(UpdateConfig(cm.data), "");
      ok := reply == Done;
    }

    // ---------- version queries ----------

    method GetRemoteContent(path: string, filePath: string) returns (r: Option<string>)
      requires Enabled(at, "") && Pending(at, "") == Fetch(path + filePath)
      modifies this
      ensures store == old(store) && clock == old(clock) + 1
      ensures r == if fault(old(clock)) then None else remote(path + filePath)
      ensures at == Resume(env, old(at), "", if r.Some? then Body(r.value) else NotFound)
    {
      var reply := Do(Fetch(path + filePath), "");
      r := if reply.Body? then Some(reply.text) else None;
    }

    method CheckIndex(items: seq<map<string, string>>) returns (r: Option<seq<Entry>>)
      ensures r == Entries(items)
    {
      var entries: seq<Entry> := [];
      for i := 0 to |items|
        invariant Entries(items[..i]) == Some(entries)
      {
        assert items[..i + 1][..i] == items[..i];
        if "openFuyaoVersion" !in items[i] || "filePath" !in items[i] {
          BadItem(items, i);
          return None;
        }
        entries := entries + [Entry(items[i]["openFuyaoVersion"], TrimPrefix(items[i]["filePath"], "./"))];
      }
      assert items[..|items|] == items;
      r := Some(entries);
    }

    method GetPatchIndexFromRemoteRepo(path: string) returns (r: Option<seq<Entry>>)
      requires at.FetchIndex? && at.path == path
      modifies this
      ensures store == old(store) && clock >= old(clock)
      ensures r.Some? ==> remote(path + "index.yaml").Some? && r == IndexEntries(env, remote(path + "index.yaml").value)
      ensures r.Some? ==> at == StartClean(path, old(at).data, r.value)
      ensures r.None? ==> at == Finished(false)
      ensures old(NoFaults()) && r.None? ==>
                remote(path + "index.yaml").None? || IndexEntries(env, remote(path + "index.yaml").value).None?
    {
      var body := GetRemoteContent(path, "index.yaml");
      if body.None? { return None; }
      var items := env.index(body.value);
      if items.None? { return None; }
      r := CheckIndex(items.value);
    }

    // One turn of the refresh loop: downloads and writes the first of the entries left.
    method RefillEntry(path: string, e: Entry) returns (ok: bool)
      requires at.FetchPatch? && at.path == path && at.entries != [] && at.entries[0] == e
      requires store.config.Some?
      modifies this
      ensures ok ==> remote(path + e.filePath).Some?
      ensures ok ==> store == Indexed(old(store), e.version, ContentOf(remote, path, e))
      ensures ok ==> at == NextEntry(path, old(at).entries[1..])
      ensures !ok ==> WriteStops(old(store), e.version, ContentOf(remote, path, e), store)
      ensures !ok ==> at == Finished(false) || at.Broken?
      ensures clock >= old(clock)
      ensures old(NoFaults()) && !ok ==> remote(path + e.filePath).None?
    {
      var body := GetRemoteContent(path, e.filePath);
      if body.None? { return false; }
      var pair := AddPatchesToConfigMap(e.version, Normalise(body.value));
      if pair.None? { return false; }
      ok := AddPatchInfoToConfigMap(pair.value.0, pair.value.1);
    }

    // The refresh loop: downloads and writes the entries in order.
    method Refill(path: string, entries: seq<Entry>) returns (r: Option<seq<string>>)
      requires at == NextEntry(path, entries) && store.config.Some?
      modifies this
      ensures r.Some? ==> Fetchable(remote, path, entries)
      ensures r.Some? ==> store == Refilled(old(store), remote, path, entries)
      ensures r.Some? ==> r.value == Versions(entries) && at == Finished(true)
      ensures r.None? ==> at == Finished(false) || at.Broken?
      ensures r.None? ==> RefillStops(old(store), remote, path, entries, store)
      ensures StoreSettings(store) == StoreSettings(old(store))
      ensures clock >= old(clock)
      ensures old(NoFaults()) && r.None? ==> !Fetchable(remote, path, entries)
    {
      ghost var start := store;
      var versions: seq<string> := [];
      for i := 0 to |entries|
        invariant versions == Versions(entries[..i])
        invariant store == Refilled(start, remote, path, entries[..i])
        invariant Fetchable(remote, path, entries[..i])
        invariant at == NextEntry(path, entries[i..])
        invariant clock >= old(clock)
      {
        versions := versions + [entries[i].version];
        RefillStep(start, remote, path, entries, i);
        var ok := RefillEntry(path, entries[i]);
        if !ok {
          assert RefillStopsAt(start, remote, path, entries, i, store);
          return None;
        }
      }
      assert entries[..|entries|] == entries;
      RefillKeepsSettings(start, remote, path, entries);
      r := Some(versions);
    }

    // Makes the patch store a mirror of the remote index and answers its versions, duplicates included.
    method GetVersionsFromOnline(cm: ConfigMap, path: string) returns (r: Option<seq<string>>)
      requires at == FetchIndex(path, cm.data) && store.config == Some(cm.data)
      modifies this, cm
      ensures r.Some? ==> RefreshWorks(env, remote, path, old(store))
      ensures r.Some? ==> store == Refreshed(env, remote, path, old(store))
      ensures r.Some? ==> r.value == Versions(RemoteEntries(env, remote, path)) && at == Finished(true)
      ensures r.None? ==> at == Finished(false) || at.Broken?
      ensures r.None? ==> RefreshStops(env, remote, path, old(store), store)
      ensures StoreSettings(store) == StoreSettings(old(store))
      ensures clock >= old(clock)
      ensures old(NoFaults()) ==> (r.Some? <==> RefreshWorks(env, remote, path, old(store)))
    {
      var index := GetPatchIndexFromRemoteRepo(path);
      if index.None? {
        assert CleanupOutcome(store, cm.data, false, {}, store);
        return None;
      }
      SettingsStay(cm.data, "");
      var cleaned := CleanConfigMapPatches(cm, path, index.value);
      if !cleaned { return None; }
      r := Refill(path, index.value);
    }

    method GetVersionsFromOffline(cm: ConfigMap) returns (versions: seq<string>)
      ensures ListsIndex(cm.data, versions)
    {
      versions := [];
      var todo := cm.data.Keys;
      while todo != {}
        invariant todo <= cm.data.Keys
        invariant forall v :: v in versions <==> KeyOf(v) in cm.data && KeyOf(v) !in todo
        invariant forall i, j :: 0 <= i < j < |versions| ==> versions[i] != versions[j]
        decreases todo
      {
        var key :| key in todo;
        if IsPatchKey(key) {
          var after := TrimPrefix(key, KEY_PREFIX);
          assert KeyOf(after) == key;
          forall v
            ensures KeyOf(v) == key <==> v == after
          {
            KeysAndNames(v, after);
          }
          versions := versions + [after];
        } else {
          forall v
            ensures KeyOf(v) != key
          {
            KeysAndNames(v, v);
          }
        }
        todo := todo - {key};
      }
    }

    method GetVersionsFromSource(isUpgrade: bool) returns (r: Option<seq<string>>)
      modifies this
      ensures var path := if isUpgrade then env.patchPath else env.deployPath;
              && QueryOutcome(env, remote, path, old(store), r.Some?, store)
              && (r.Some? ==> QueryAnswers(env, remote, path, old(store), r.value))
              && (old(NoFaults()) ==> (r.Some? <==> QueryWorks(env, remote, path, old(store))))
      ensures at.IsOver() && clock >= old(clock)
      ensures StoreSettings(store) == StoreSettings(old(store))
    {
      var path := if isUpgrade then env.patchPath else env.deployPath;
      at := Query(path);
      NothingDone(env, remote, path, store);
      var reply := Do(GetConfig, "");
      if !reply.Object? { return None; }
      var online := OnlineMode(reply.data);
      if online.None? { return None; }
      var cm := new ConfigMap(reply.data);
      if online.value {
        r := GetVersionsFromOnline(cm, path);
        OnlineQuery(env, remote, path, old(store));
      } else {
        var versions := GetVersionsFromOffline(cm);
        r := Some(versions);
      }
    }

    // ---------- uploads ----------

    // The upload of a patch file writes its patch and its index entry, or leaves the index alone.
    method UploadPatchFile(fileName: string, fileContent: string) returns (ok: bool)
      modifies this
      ensures UploadOutcome(env, old(store), TrimExt(fileName), fileContent, ok, store)
      ensures if ok then at == Finished(true) else at == Finished(false) || at == Broken(TrimExt(fileName))
      ensures clock >= old(clock)
      ensures old(NoFaults()) ==> (ok <==> UploadWorks(env, old(store), fileContent))
    {
      var version := TrimExt(fileName);
      at := Upload(version, fileContent);
      var reply := Do(GetConfig, "");
      if !reply.Object? { return false; }
      if OnlineMode(reply.data) != Some(false) { return false; }
      var info := env.info(fileContent);
      if info.None? || !ValidInfo(info.value) { return false; }
      var pair := AddPatchesToConfigMap(version, fileContent);
      if pair.None? { return false; }
      ok := AddPatchInfoToConfigMap(pair.value.0, pair.value.1);
    }
  }

  lemma {:induction false} BadItem(items: seq<map<string, string>>, i: nat)
    requires i < |items| && EntryOf(items[i]).None?
    ensures Entries(items) == None
  {
    if i < |items| - 1 {
      BadItem(items[..|items| - 1], i);
    }
  }
}
