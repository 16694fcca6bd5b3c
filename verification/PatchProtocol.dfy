/** The two-level patch store as a protocol: bke-config holds an index patch.v -> cm.v, and namespace
    openfuyao-patch holds one ConfigMap cm.v per version v with the single data key v.

    A request is a state machine that issues one API call at a time (Pending) and goes on with the reply
    (Resume). Requests of one world interleave at call boundaries, and any call may be refused, or be carried
    out while its reply is lost. The methods of PatchStore.dfy are held to this machine: each of their calls
    must be the one pending. */
module PatchProtocol {
  import opened Wrappers
  import opened GoStrings
  import opened ApiServer
  import opened Newlines

  const KEY_PREFIX: string := "patch."
  const VALUE_PREFIX: string := "cm."

  predicate IsPatchKey(key: string) { KEY_PREFIX <= key }

  function KeyOf(version: string): string { KEY_PREFIX + version }

  function NameOf(version: string): string { VALUE_PREFIX + version }

  function VersionOfKey(key: string): string { TrimPrefix(key, KEY_PREFIX) }

  lemma KeysAndNames(v: string, w: string)
    ensures VersionOfKey(KeyOf(v)) == v && IsPatchKey(KeyOf(v))
    ensures TrimPrefix(NameOf(v), VALUE_PREFIX) == v && VALUE_PREFIX <= NameOf(v)
    ensures KeyOf(v) == KeyOf(w) ==> v == w
    ensures NameOf(v) == NameOf(w) ==> v == w
  {
    TrimPrefixUndoes(KEY_PREFIX, v);
    TrimPrefixUndoes(VALUE_PREFIX, v);
    TrimPrefixUndoes(KEY_PREFIX, w);
    TrimPrefixUndoes(VALUE_PREFIX, w);
  }

  // ---------- the content of patches, and the settings around them ----------

  datatype PatchVersionInfo = PatchVersionInfo(
    openFuyaoVersion: string, kubernetesVersion: string, containerdVersion: string, etcdVersion: string)

  datatype AddonInfo = AddonInfo(name: string, version: string, param: map<string, string>, block: bool)

  // The YAML decoders are parameters; None is a decoding error.
  datatype Env = Env(
    info: string -> Option<PatchVersionInfo>,
    addons: string -> Option<seq<AddonInfo>>,
    index: string -> Option<seq<map<string, string>>>,
    deployPath: string,
    patchPath: string)

  // validatePatchVersionInfo
  predicate ValidInfo(info: PatchVersionInfo) {
    && !Blank(info.openFuyaoVersion) && !Blank(info.kubernetesVersion)
    && !Blank(info.containerdVersion) && !Blank(info.etcdVersion)
  }

  predicate ValidContent(env: Env, content: string) {
    env.info(content).Some? && ValidInfo(env.info(content).value)
  }

  // IsOnlineMode; None is its error.
  function OnlineMode(data: Data): Option<bool> {
    if data == map[] then None
    else if "otherRepo" !in data || "onlineImage" !in data then None
    else Some(data["otherRepo"] != "" || data["onlineImage"] != "")
  }

  datatype Entry = Entry(version: string, filePath: string)

  function EntryOf(item: map<string, string>): Option<Entry> {
    if "openFuyaoVersion" in item && "filePath" in item
    then Some(Entry(item["openFuyaoVersion"], TrimPrefix(item["filePath"], "./")))
    else None
  }

  // The entries of a remote index; None when one of them lacks a field.
  function Entries(items: seq<map<string, string>>): Option<seq<Entry>> {
    if items == [] then Some([])
    else
      var before, last := Entries(items[..|items| - 1]), EntryOf(items[|items| - 1]);
      if before.Some? && last.Some? then Some(before.value + [last.value]) else None
  }

  // e is what the item says: its version, and its file path without a leading "./".
  ghost predicate Describes(item: map<string, string>, e: Entry) {
    && "openFuyaoVersion" in item && e.version == item["openFuyaoVersion"]
    && "filePath" in item
    && item["filePath"] == (if "./" <= item["filePath"] then "./" + e.filePath else e.filePath)
  }

  // Entry by entry; a single item without one of the fields spoils the index.
  lemma {:induction false} EntriesExactly(items: seq<map<string, string>>)
    ensures Entries(items).Some? <==>
              forall i :: 0 <= i < |items| ==> "openFuyaoVersion" in items[i] && "filePath" in items[i]
    ensures Entries(items).Some? ==>
              && |Entries(items).value| == |items|
              && forall i :: 0 <= i < |items| ==>
                   Describes(items[i], Entries(items).value[i]) && EntryOf(items[i]) == Some(Entries(items).value[i])
  {
    if items != [] {
      EntriesExactly(items[..|items| - 1]);
    }
  }

  function IndexEntries(env: Env, text: string): Option<seq<Entry>> {
    if env.index(text).Some? then Entries(env.index(text).value) else None
  }

  function PatchKeys(data: Data): set<string> {
    set k | k in data && IsPatchKey(k)
  }

  // The keys of bke-config that are not index entries.
  function Settings(data: Data): Data {
    map k | k in data && !IsPatchKey(k) :: data[k]
  }

  lemma ModeIsASetting(data: Data)
    ensures OnlineMode(data) == OnlineMode(Settings(data))
  {
    assert KEY_PREFIX[0] == 'p' && "otherRepo"[0] == 'o' && "onlineImage"[0] == 'o';
    if data != map[] && Settings(data) == map[] {
      assert "otherRepo" in data ==> "otherRepo" in Settings(data);
    }
  }

  // ---------- one request ----------

  datatype Phase = CheckNamespace | MakeNamespace | Look | Delete | Create | Index

  datatype Request =
    | Upload(version: string, content: string)
    | Query(path: string)
    | FetchIndex(path: string, data: Data)
    | Clean(path: string, data: Data, entries: seq<Entry>)
    | Update(path: string, data: Data, entries: seq<Entry>)
    | FetchPatch(path: string, entries: seq<Entry>)
    | Write(phase: Phase, upload: bool, version: string, content: string, path: string, rest: seq<Entry>)
    | Finished(ok: bool)
    | Broken(version: string)   // gave up deleting or creating the patch of this version
  {
    predicate IsOver() { Finished? || Broken? }
  }

  // While cleaning, the next index entry is any one that is left: Go's map iteration order.
  predicate Enabled(req: Request, key: string) {
    !req.IsOver() && (req.Clean? ==> key in PatchKeys(req.data)) && (req.FetchPatch? ==> req.entries != [])
  }

  function Pending(req: Request, key: string): Call
    requires Enabled(req, key)
  {
    match req
    case Upload(_, _) => GetConfig
    case Query(_) => GetConfig
    case FetchIndex(path, _) => Fetch(path + "index.yaml")
    case Clean(_, data, _) => DeletePatch(data[key])
    case Update(_, data, _) => UpdateConfig(data)
    case FetchPatch(path, entries) => Fetch(path + entries[0].filePath)
    case Write(phase, _, version, content, _, _) =>
      match phase
      case CheckNamespace => GetNamespace
      case MakeNamespace => CreateNamespace
      case Look => GetPatch(NameOf(version))
      case Delete => DeletePatch(NameOf(version))
      case Create => CreatePatch(NameOf(version), map[version := content])
      case Index => PatchConfig(KeyOf(version), NameOf(version))
  }

  function StartClean(path: string, data: Data, entries: seq<Entry>): Request {
    if PatchKeys(data) == {} then Update(path, data, entries) else Clean(path, data, entries)
  }

  function NextEntry(path: string, entries: seq<Entry>): Request {
    if entries == [] then Finished(true) else FetchPatch(path, entries)
  }

  function Resume(env: Env, req: Request, key: string, reply: Reply): Request
    requires Enabled(req, key)
  {
    match req
    case Upload(version, content) =>
      if reply.Object? && OnlineMode(reply.data) == Some(false) && ValidContent(env, content)
      then Write(CheckNamespace, true, version, content, "", [])
      else Finished(false)
    case Query(path) =>
      if !reply.Object? || OnlineMode(reply.data) == None then Finished(false)
      else if OnlineMode(reply.data) == Some(false) then Finished(true)
      else FetchIndex(path, reply.data)
    case FetchIndex(path, data) =>
      if reply.Body? && IndexEntries(env, reply.text).Some?
      then StartClean(path, data, IndexEntries(env, reply.text).value)
      else Finished(false)
    case Clean(path, data, entries) =>
      if reply == Done then StartClean(path, data - {key}, entries) else Finished(false)
    case Update(path, _, entries) =>
      if reply == Done then NextEntry(path, entries) else Finished(false)
    case FetchPatch(path, entries) =>
      if reply.Body?
      then Write(CheckNamespace, false, entries[0].version, Normalise(reply.text), path, entries[1..])
      else Finished(false)
    case Write(phase, _, version, _, path, rest) =>
      match phase
      case CheckNamespace =>
        if reply == Done then req.(phase := Look)
        else if reply == NotFound then req.(phase := MakeNamespace)
        else Finished(false)
      case MakeNamespace =>
        if reply == Done || reply == AlreadyExists then req.(phase := Look) else Finished(false)
      case Look =>
        if reply.Object? then req.(phase := Delete)
        else if reply == NotFound then req.(phase := Create)
        else Finished(false)
      case Delete => if reply == Done then req.(phase := Create) else Broken(version)
      case Create => if reply == Done then req.(phase := Index) else Broken(version)
      case Index => if reply == Done then NextEntry(path, rest) else Finished(false)
  }

  // ---------- many requests ----------

  // offered records what may be stored: validated uploads and normalised downloads.
  datatype World = World(store: Store, requests: seq<Request>, offered: set<(string, string)>)

  // A refused call has no effect; a lost reply hides a call that was carried out.
  datatype Fate = Served | Refused | ReplyLost

  datatype Action =
    | ArriveUpload(version: string, content: string)
    | ArriveQuery(path: string)
    | Progress(i: nat, key: string, fate: Fate, remote: Remote)

  predicate Possible(w: World, a: Action) {
    a.Progress? ==> a.i < |w.requests| && Enabled(w.requests[a.i], a.key)
  }

  function Next(env: Env, w: World, a: Action): World
    requires Possible(w, a)
  {
    match a
    case ArriveUpload(version, content) =>
      World(w.store, w.requests + [Upload(version, content)],
            if ValidContent(env, content) then w.offered + {(version, content)} else w.offered)
    case ArriveQuery(path) => w.(requests := w.requests + [Query(path)])
    case Progress(i, key, fate, remote) =>
      var req := w.requests[i];
      var (store, answer) := Apply(w.store, Pending(req, key), remote);
      var reply := if fate == Served then answer else Unavailable;
      World(if fate == Refused then w.store else store,
            w.requests[i := Resume(env, req, key, reply)],
            if req.FetchPatch? && reply.Body?
            then w.offered + {(req.entries[0].version, Normalise(reply.text))} else w.offered)
  }

  function Run(env: Env, w: World, actions: seq<Action>): Option<World> {
    if actions == [] then Some(w)
    else
      var before := Run(env, w, actions[..|actions| - 1]);
      var a := actions[|actions| - 1];
      if before.Some? && Possible(before.value, a) then Some(Next(env, before.value, a)) else None
  }

  ghost predicate AllServed(actions: seq<Action>) {
    forall a :: a in actions && a.Progress? ==> a.fate == Served
  }

  // ---------- the naming discipline, and what keeps it ----------

  ghost predicate IndexNamed(data: Data) {
    forall k :: k in data && IsPatchKey(k) ==> data[k] == NameOf(VersionOfKey(k))
  }

  // ConfigMaps of the namespace that are not named cm.* are not patches.
  ghost predicate PatchesNamed(patches: map<string, Data>, offered: set<(string, string)>) {
    forall n :: n in patches && VALUE_PREFIX <= n ==>
      var v := TrimPrefix(n, VALUE_PREFIX);
      patches[n].Keys == {v} && (v, patches[n][v]) in offered
  }

  function StoreSettings(s: Store): Data {
    if s.config.Some? then Settings(s.config.value) else map[]
  }

  // What a request remembers agrees with the settings, which no request changes.
  ghost predicate RequestFits(env: Env, settings: Data, offered: set<(string, string)>, req: Request) {
    match req
    case Upload(version, content) => ValidContent(env, content) ==> (version, content) in offered
    case FetchIndex(_, data) => Settings(data) == settings && OnlineMode(settings) == Some(true)
    case Clean(_, data, _) => Settings(data) == settings && OnlineMode(settings) == Some(true)
    case Update(_, data, _) =>
      Settings(data) == settings && PatchKeys(data) == {} && OnlineMode(settings) == Some(true)
    case FetchPatch(_, _) => OnlineMode(settings) == Some(true)
    case Write(_, upload, version, content, _, rest) =>
      && OnlineMode(settings) == Some(!upload) && (upload ==> rest == [])
      && (version, content) in offered
    case _ => true
  }

  ghost predicate StoreFits(settings: Data, offered: set<(string, string)>, s: Store) {
    && StoreSettings(s) == settings
    && (s.config.Some? ==> IndexNamed(s.config.value))
    && PatchesNamed(s.patches, offered)
  }

  ghost predicate Inv(env: Env, settings: Data, w: World) {
    && StoreFits(settings, w.offered, w.store)
    && forall i :: 0 <= i < |w.requests| ==> RequestFits(env, settings, w.offered, w.requests[i])
  }

  lemma CreateKeepsNames(patches: map<string, Data>, offered: set<(string, string)>, version: string, content: string)
    requires PatchesNamed(patches, offered) && (version, content) in offered
    ensures PatchesNamed(patches[NameOf(version) := map[version := content]], offered)
  {
    KeysAndNames(version, version);
  }

  lemma IndexKeepsNames(data: Data, version: string)
    requires IndexNamed(data)
    ensures IndexNamed(data[KeyOf(version) := NameOf(version)])
    ensures Settings(data[KeyOf(version) := NameOf(version)]) == Settings(data)
  {
    KeysAndNames(version, version);
  }

  lemma UpdateIsNamed(data: Data)
    requires PatchKeys(data) == {}
    ensures IndexNamed(data)
  {
    assert forall k :: k in data && IsPatchKey(k) ==> k in PatchKeys(data);
  }

  // A call of a fitting request keeps the store's part of the invariant.
  lemma CallKeepsStore(env: Env, settings: Data, offered: set<(string, string)>, s: Store, req: Request, key: string,
                       remote: Remote)
    requires StoreFits(settings, offered, s) && RequestFits(env, settings, offered, req) && Enabled(req, key)
    ensures StoreFits(settings, offered, Apply(s, Pending(req, key), remote).0)
  {
    match Pending(req, key)
    case CreatePatch(_, _) => CreateKeepsNames(s.patches, offered, req.version, req.content);
    case PatchConfig(_, _) => if s.config.Some? { IndexKeepsNames(s.config.value, req.version); }
    case UpdateConfig(data) => UpdateIsNamed(data);
    case _ =>
  }

  lemma StartCleanFits(env: Env, settings: Data, offered: set<(string, string)>, path: string, data: Data,
                       entries: seq<Entry>)
    requires Settings(data) == settings && OnlineMode(settings) == Some(true)
    ensures RequestFits(env, settings, offered, StartClean(path, data, entries))
  {
  }

  lemma ReadFits(env: Env, settings: Data, offered: set<(string, string)>, req: Request, key: string, reply: Reply)
    requires RequestFits(env, settings, offered, req) && (req.Upload? || req.Query?)
    requires reply.Object? ==> Settings(reply.data) == settings
    ensures RequestFits(env, settings, offered, Resume(env, req, key, reply))
  {
    if reply.Object? {
      ModeIsASetting(reply.data);
    }
  }

  lemma RefreshFits(env: Env, settings: Data, offered: set<(string, string)>, req: Request, key: string, reply: Reply)
    requires RequestFits(env, settings, offered, req) && Enabled(req, key)
    requires req.FetchIndex? || req.Clean? || req.Update? || req.FetchPatch?
    requires req.FetchPatch? && reply.Body? ==> (req.entries[0].version, Normalise(reply.text)) in offered
    ensures RequestFits(env, settings, offered, Resume(env, req, key, reply))
  {
    if req.FetchIndex? && reply.Body? && IndexEntries(env, reply.text).Some? {
      StartCleanFits(env, settings, offered, req.path, req.data, IndexEntries(env, reply.text).value);
    } else if req.Clean? {
      assert Settings(req.data - {key}) == Settings(req.data);
      StartCleanFits(env, settings, offered, req.path, req.data - {key}, req.entries);
    }
  }

  lemma WriteFits(env: Env, settings: Data, offered: set<(string, string)>, req: Request, key: string, reply: Reply)
    requires RequestFits(env, settings, offered, req) && req.Write?
    ensures RequestFits(env, settings, offered, Resume(env, req, key, reply))
  {
    var next := Resume(env, req, key, reply);
    assert || next.IsOver()
           || (next.Write? && next == req.(phase := next.phase))
           || next == FetchPatch(req.path, req.rest);
  }

  // A request stays fitting when it goes on with the answer to its call, whatever became of the call.
  lemma ResumeFits(env: Env, settings: Data, offered: set<(string, string)>, s: Store,
                   req: Request, key: string, remote: Remote, reply: Reply)
    requires StoreSettings(s) == settings && RequestFits(env, settings, offered, req) && Enabled(req, key)
    requires reply == Apply(s, Pending(req, key), remote).1 || reply == Unavailable
    requires req.FetchPatch? && reply.Body? ==> (req.entries[0].version, Normalise(reply.text)) in offered
    ensures RequestFits(env, settings, offered, Resume(env, req, key, reply))
  {
    if req.Upload? || req.Query? {
      ReadFits(env, settings, offered, req, key, reply);
    } else if req.Write? {
      WriteFits(env, settings, offered, req, key, reply);
    } else {
      RefreshFits(env, settings, offered, req, key, reply);
    }
  }

  lemma StepKeeps(env: Env, settings: Data, w: World, a: Action)
    requires Inv(env, settings, w) && Possible(w, a)
    ensures Inv(env, settings, Next(env, w, a))
  {
    if a.Progress? {
      var req := w.requests[a.i];
      CallKeepsStore(env, settings, w.offered, w.store, req, a.key, a.remote);
      var reply := if a.fate == Served then Apply(w.store, Pending(req, a.key), a.remote).1 else Unavailable;
      var t := Next(env, w, a);
      assert RequestFits(env, settings, t.offered, req);
      ResumeFits(env, settings, t.offered, w.store, req, a.key, a.remote, reply);
    }
  }

  // What holds of a world in which no request has arrived yet.
  ghost predicate Initial(w: World) {
    && w.requests == []
    && (w.store.config.Some? ==> IndexNamed(w.store.config.value))
    && PatchesNamed(w.store.patches, w.offered)
  }

  lemma {:induction false} RunKeeps(env: Env, w: World, actions: seq<Action>)
    requires Initial(w) && Run(env, w, actions).Some?
    ensures Inv(env, StoreSettings(w.store), Run(env, w, actions).value)
  {
    if actions != [] {
      RunKeeps(env, w, actions[..|actions| - 1]);
      StepKeeps(env, StoreSettings(w.store), Run(env, w, actions[..|actions| - 1]).value, actions[|actions| - 1]);
    }
  }

  // At every call boundary of every interleaving of uploads and queries, whatever calls fail: each index key
  // patch.v maps to cm.v, each stored cm.v has the one data key v, its content was validated or downloaded for
  // that very version, and the settings in bke-config are what they were.
  lemma NamingDiscipline(env: Env, w: World, actions: seq<Action>)
    requires Initial(w) && Run(env, w, actions).Some?
    ensures var t := Run(env, w, actions).value;
            && (t.store.config.Some? ==> IndexNamed(t.store.config.value))
            && PatchesNamed(t.store.patches, t.offered)
            && StoreSettings(t.store) == StoreSettings(w.store)
  {
    RunKeeps(env, w, actions);
  }

  // The mode is a setting, so it never changes: an upload that has passed its mode check and a refresh of the
  // index are never under way in the same world, and no refresh can undo an upload.
  lemma UploadsExcludeRefreshes(env: Env, w: World, actions: seq<Action>, i: nat, j: nat)
    requires Initial(w) && Run(env, w, actions).Some?
    requires var t := Run(env, w, actions).value; i < |t.requests| && j < |t.requests|
    ensures var t := Run(env, w, actions).value;
            !(Uploading(t.requests[i]) && Refreshing(t.requests[j]))
  {
    RunKeeps(env, w, actions);
  }

  predicate Uploading(req: Request) {
    req.Write? && req.upload
  }

  predicate Refreshing(req: Request) {
    req.FetchIndex? || req.Clean? || req.Update? || req.FetchPatch? || (req.Write? && !req.upload)
  }

  // ---------- concurrent uploads and the index ----------

  ghost predicate NoDangling(s: Store) {
    s.config.Some? ==> forall k :: k in s.config.value && IsPatchKey(k) ==> s.config.value[k] in s.patches
  }

  // The step loses the patch of this version: the reply to deleting it is lost, or creating it is refused.
  predicate Loses(w: World, a: Action, version: string) {
    && a.Progress? && Possible(w, a)
    && var req := w.requests[a.i];
       && req.Write? && req.version == version
       && if NameOf(version) in w.store.patches then req.phase == Delete && a.fate == ReplyLost
          else req.phase == Create && a.fate == Refused
  }

  // Some step of the run loses the patch of this version.
  ghost predicate HasLost(env: Env, w: World, actions: seq<Action>, version: string) {
    exists k :: 0 <= k < |actions| && LosesAt(env, w, actions, k, version)
  }

  ghost predicate LosesAt(env: Env, w: World, actions: seq<Action>, k: nat, version: string)
    requires k < |actions|
  {
    Run(env, w, actions[..k]).Some? && Loses(Run(env, w, actions[..k]).value, actions[k], version)
  }

  // The patch of this version is stored, or is about to be created, or its loss is accounted for.
  ghost predicate Secured(w: World, version: string, lost: bool) {
    || NameOf(version) in w.store.patches
    || (exists i :: 0 <= i < |w.requests| && Owes(w.requests[i], version))
    || (lost && Broken(version) in w.requests)
  }

  predicate Owes(req: Request, version: string) {
    req.Write? && req.phase == Create && req.version == version
  }

  // A request that has made sure of the namespace finds it there: nothing ever deletes it.
  ghost predicate NamespaceThere(w: World) {
    forall i :: 0 <= i < |w.requests| && w.requests[i].Write?
                && w.requests[i].phase != CheckNamespace && w.requests[i].phase != MakeNamespace
                ==> w.store.namespace
  }

  lemma StepKeepsNamespace(env: Env, w: World, a: Action)
    requires NamespaceThere(w) && Possible(w, a)
    ensures NamespaceThere(Next(env, w, a))
  {
    var t := Next(env, w, a);
    forall i | 0 <= i < |t.requests| && t.requests[i].Write?
               && t.requests[i].phase != CheckNamespace && t.requests[i].phase != MakeNamespace
      ensures t.store.namespace
    {
      if i < |w.requests| && t.requests[i] == w.requests[i] {
        assert w.store.namespace;
      } else {
        assert a.Progress? && a.i == i && w.requests[i].Write?;
      }
    }
  }

  // Offline, a call that removes a patch leaves its request owing that patch, or broken off.
  lemma RemovedIsOwed(env: Env, settings: Data, w: World, a: Action, version: string)
    requires Inv(env, settings, w) && Possible(w, a) && OnlineMode(settings) == Some(false)
    requires NameOf(version) in w.store.patches && NameOf(version) !in Next(env, w, a).store.patches
    ensures a.Progress? && a.i < |Next(env, w, a).requests|
    ensures Owes(Next(env, w, a).requests[a.i], version)
            || (Loses(w, a, version) && Next(env, w, a).requests[a.i] == Broken(version))
  {
    KeysAndNames(version, w.requests[a.i].version);
  }

  // A request that owes a patch goes on owing it until it has created it, unless creating it is refused.
  lemma OwedOrCreated(env: Env, w: World, a: Action, version: string, i: nat)
    requires NamespaceThere(w) && Possible(w, a)
    requires i < |w.requests| && Owes(w.requests[i], version) && NameOf(version) !in w.store.patches
    ensures i < |Next(env, w, a).requests|
    ensures || NameOf(version) in Next(env, w, a).store.patches
            || Owes(Next(env, w, a).requests[i], version)
            || (Loses(w, a, version) && Next(env, w, a).requests[i] == Broken(version))
  {
    if !(a.Progress? && a.i == i) {
      assert Next(env, w, a).requests[i] == w.requests[i];
    }
  }

  lemma BrokenStays(env: Env, w: World, a: Action, version: string)
    requires Possible(w, a) && Broken(version) in w.requests
    ensures Broken(version) in Next(env, w, a).requests
  {
    var i :| 0 <= i < |w.requests| && w.requests[i] == Broken(version);
    assert Next(env, w, a).requests[i] == Broken(version);
  }

  lemma StillSecured(env: Env, settings: Data, w: World, a: Action, version: string, lost: bool)
    requires Inv(env, settings, w) && NamespaceThere(w) && Possible(w, a) && OnlineMode(settings) == Some(false)
    requires Secured(w, version, lost)
    ensures Secured(Next(env, w, a), version, lost || Loses(w, a, version))
  {
    if NameOf(version) !in Next(env, w, a).store.patches {
      if NameOf(version) in w.store.patches {
        RemovedIsOwed(env, settings, w, a, version);
      } else if i :| 0 <= i < |w.requests| && Owes(w.requests[i], version) {
        OwedOrCreated(env, w, a, version, i);
      } else {
        BrokenStays(env, w, a, version);
      }
    }
  }

  // A call writes no index entry but the one of its own version.
  lemma NewKeyIsOwn(env: Env, settings: Data, w: World, a: Action, key: string)
    requires Inv(env, settings, w) && Possible(w, a) && OnlineMode(settings) == Some(false)
    requires Next(env, w, a).store.config.Some? && key in Next(env, w, a).store.config.value && IsPatchKey(key)
    requires w.store.config.None? || key !in w.store.config.value
    ensures a.Progress? && w.requests[a.i].Write? && w.requests[a.i].phase == Index
    ensures VersionOfKey(key) == w.requests[a.i].version
  {
    var req := w.requests[a.i];
    if req.Write? {
      KeysAndNames(req.version, req.version);
    }
  }

  // The versions that the index holds or is about to hold.
  ghost predicate Wanted(w: World, version: string) {
    || (w.store.config.Some? && exists k :: k in w.store.config.value && IsPatchKey(k) && VersionOfKey(k) == version)
    || exists i :: 0 <= i < |w.requests| && Indexes(w.requests[i], version)
  }

  predicate Indexes(req: Request, version: string) {
    req.Write? && req.phase == Index && req.version == version
  }

  lemma IndexesAfterCreate(env: Env, settings: Data, w: World, a: Action, version: string, i: nat)
    requires Inv(env, settings, w) && Possible(w, a)
    requires i < |Next(env, w, a).requests| && Indexes(Next(env, w, a).requests[i], version)
    ensures Wanted(w, version) || NameOf(version) in Next(env, w, a).store.patches
  {
    if i < |w.requests| && Next(env, w, a).requests[i] == w.requests[i] {
      assert Indexes(w.requests[i], version);
    }
  }

  // A version newly wanted has just been created, or already was.
  lemma WantedIsSecured(env: Env, settings: Data, w: World, a: Action, version: string)
    requires Inv(env, settings, w) && Possible(w, a) && OnlineMode(settings) == Some(false)
    requires Wanted(Next(env, w, a), version)
    ensures Wanted(w, version) || NameOf(version) in Next(env, w, a).store.patches
  {
    var t := Next(env, w, a);
    if i :| 0 <= i < |t.requests| && Indexes(t.requests[i], version) {
      IndexesAfterCreate(env, settings, w, a, version, i);
    } else {
      var k :| k in t.store.config.value && IsPatchKey(k) && VersionOfKey(k) == version;
      if w.store.config.None? || k !in w.store.config.value {
        NewKeyIsOwn(env, settings, w, a, k);
        assert Indexes(w.requests[a.i], version);
      }
    }
  }

  lemma LostEarlier(env: Env, w: World, actions: seq<Action>, version: string)
    requires actions != [] && HasLost(env, w, actions[..|actions| - 1], version)
    ensures HasLost(env, w, actions, version)
  {
    var before := actions[..|actions| - 1];
    var k :| 0 <= k < |before| && LosesAt(env, w, before, k, version);
    assert before[..k] == actions[..k];
    assert LosesAt(env, w, actions, k, version);
  }

  lemma StepSecures(env: Env, settings: Data, w: World, a: Action, version: string, lost: bool)
    requires Inv(env, settings, w) && NamespaceThere(w) && Possible(w, a) && OnlineMode(settings) == Some(false)
    requires Wanted(w, version) ==> Secured(w, version, lost)
    ensures Wanted(Next(env, w, a), version) ==> Secured(Next(env, w, a), version, lost || Loses(w, a, version))
  {
    if Wanted(Next(env, w, a), version) {
      WantedIsSecured(env, settings, w, a, version);
      if Wanted(w, version) {
        StillSecured(env, settings, w, a, version, lost);
      }
    }
  }

  lemma LostByNow(env: Env, w: World, actions: seq<Action>, version: string)
    requires actions != [] && Run(env, w, actions[..|actions| - 1]).Some?
    requires || HasLost(env, w, actions[..|actions| - 1], version)
             || Loses(Run(env, w, actions[..|actions| - 1]).value, actions[|actions| - 1], version)
    ensures HasLost(env, w, actions, version)
  {
    if HasLost(env, w, actions[..|actions| - 1], version) {
      LostEarlier(env, w, actions, version);
    } else {
      assert LosesAt(env, w, actions, |actions| - 1, version);
    }
  }

  // Offline, whatever the index wants stays secured.
  lemma {:induction false} RunSecures(env: Env, w: World, actions: seq<Action>, version: string)
    requires Initial(w) && NoDangling(w.store) && OnlineMode(StoreSettings(w.store)) == Some(false)
    requires Run(env, w, actions).Some?
    ensures NamespaceThere(Run(env, w, actions).value)
    ensures Wanted(Run(env, w, actions).value, version) ==>
              Secured(Run(env, w, actions).value, version, HasLost(env, w, actions, version))
  {
    if actions == [] {
      if Wanted(w, version) {
        var k :| k in w.store.config.value && IsPatchKey(k) && VersionOfKey(k) == version;
        assert w.store.config.value[k] == NameOf(VersionOfKey(k));
      }
    } else {
      var before, a := actions[..|actions| - 1], actions[|actions| - 1];
      var u, settings := Run(env, w, before).value, StoreSettings(w.store);
      RunSecures(env, w, before, version);
      RunKeeps(env, w, before);
      StepKeepsNamespace(env, u, a);
      StepSecures(env, settings, u, a, version, HasLost(env, w, before, version));
      if HasLost(env, w, before, version) || Loses(u, a, version) {
        LostByNow(env, w, actions, version);
      }
    }
  }

  // Offline, once every request is over, an index entry can dangle only if some upload of its version broke off
  // where it loses the patch: the reply to deleting the patch was lost, or creating the missing patch was
  // refused. However many uploads race, interleaving alone leaves no dangling entry.
  lemma DanglingNeedsBrokenUpload(env: Env, w: World, actions: seq<Action>, key: string)
    requires Initial(w) && NoDangling(w.store) && OnlineMode(StoreSettings(w.store)) == Some(false)
    requires Run(env, w, actions).Some?
    requires var t := Run(env, w, actions).value;
             && (forall i :: 0 <= i < |t.requests| ==> t.requests[i].IsOver())
             && t.store.config.Some? && key in t.store.config.value && IsPatchKey(key)
    ensures var t := Run(env, w, actions).value;
            || t.store.config.value[key] in t.store.patches
            || (HasLost(env, w, actions, VersionOfKey(key)) && Broken(VersionOfKey(key)) in t.requests)
  {
    RunSecures(env, w, actions, VersionOfKey(key));
    RunKeeps(env, w, actions);
    var t := Run(env, w, actions).value;
    assert Wanted(t, VersionOfKey(key));
    forall i | 0 <= i < |t.requests|
      ensures !Owes(t.requests[i], VersionOfKey(key))
    {
      assert t.requests[i].IsOver();
    }
  }

  lemma LossNeedsFault(env: Env, w: World, actions: seq<Action>, version: string)
    requires HasLost(env, w, actions, version)
    ensures exists a :: a in actions && a.Progress? && a.fate != Served
  {
    var k :| 0 <= k < |actions| && LosesAt(env, w, actions, k, version);
    assert actions[k] in actions;
  }

  // So uploads whose calls are all served, in any number and interleaved in any way, leave no dangling entry.
  lemma RacesLeaveIndexWhole(env: Env, w: World, actions: seq<Action>)
    requires Initial(w) && NoDangling(w.store) && OnlineMode(StoreSettings(w.store)) == Some(false)
    requires Run(env, w, actions).Some?
    requires forall a :: a in actions && a.Progress? ==> a.fate == Served
    requires forall r :: r in Run(env, w, actions).value.requests ==> r.IsOver()
    ensures NoDangling(Run(env, w, actions).value.store)
  {
    var t := Run(env, w, actions).value;
    if t.store.config.Some? {
      forall k | k in t.store.config.value && IsPatchKey(k)
        ensures t.store.config.value[k] in t.store.patches
      {
        DanglingNeedsBrokenUpload(env, w, actions, k);
        if HasLost(env, w, actions, VersionOfKey(k)) {
          LossNeedsFault(env, w, actions, VersionOfKey(k));
        }
      }
    }
  }
}
