/** What the patch store holds, read from its sources: the items of the remote index and the fields of a patch. */
module PatchContents {
  import opened Wrappers
  import opened GoStrings
  import opened ApiServer
  import opened Newlines
  import opened PatchProtocol
  import opened PatchStore
  import opened PatchTheorems

  // ---------- the mode, and what a patch must declare ----------

  // The mode is known exactly when both keys are there; online is the one with a value in either of them.
  lemma ModeExactly(data: Data)
    ensures OnlineMode(data).Some? <==> "otherRepo" in data && "onlineImage" in data
    ensures OnlineMode(data) == Some(false) <==>
              "otherRepo" in data && data["otherRepo"] == "" && "onlineImage" in data && data["onlineImage"] == ""
  {
  }

  // A patch is accepted exactly when it decodes and none of its four versions is blank.
  lemma ValidExactly(env: Env, content: string)
    ensures ValidContent(env, content) <==>
              && env.info(content).Some?
              && forall v: string ::
                   v in [env.info(content).value.openFuyaoVersion, env.info(content).value.kubernetesVersion,
                         env.info(content).value.containerdVersion, env.info(content).value.etcdVersion] ==>
                     exists i :: 0 <= i < |v| && !IsSpace(v[i])
  {
    if env.info(content).Some? {
      var info := env.info(content).value;
      BlankExactly(info.openFuyaoVersion);
      BlankExactly(info.kubernetesVersion);
      BlankExactly(info.containerdVersion);
      BlankExactly(info.etcdVersion);
    }
  }

  // ---------- the items of the remote index ----------

  // The remote repository serves an index that decodes to these items.
  ghost predicate Serves(env: Env, remote: Remote, path: string, items: seq<map<string, string>>) {
    remote(path + "index.yaml").Some? && env.index(remote(path + "index.yaml").value) == Some(items)
  }

  // No later item has the version of item i.
  ghost predicate IsLastItem(items: seq<map<string, string>>, i: nat) {
    && i < |items| && "openFuyaoVersion" in items[i]
    && forall j :: i < j < |items| && "openFuyaoVersion" in items[j] ==>
         items[j]["openFuyaoVersion"] != items[i]["openFuyaoVersion"]
  }

  // The item names file f, perhaps with a leading "./".
  ghost predicate NamesFile(item: map<string, string>, f: string) {
    "filePath" in item && (item["filePath"] == "./" + f || (item["filePath"] == f && !("./" <= f)))
  }

  lemma ItemsAreEntries(env: Env, remote: Remote, path: string, items: seq<map<string, string>>)
    requires Serves(env, remote, path, items) && Entries(items).Some?
    ensures var entries := RemoteEntries(env, remote, path);
            |entries| == |items| && forall i :: 0 <= i < |items| ==> Describes(items[i], entries[i])
  {
    EntriesExactly(items);
  }

  // A successful online query answers the versions of the items, in their order.
  lemma RefreshAnswersItems(env: Env, remote: Remote, path: string, s: Store, items: seq<map<string, string>>,
                            versions: seq<string>)
    requires QueryWorks(env, remote, path, s) && OnlineMode(s.config.value) == Some(true)
    requires Serves(env, remote, path, items) && QueryAnswers(env, remote, path, s, versions)
    ensures |versions| == |items|
    ensures forall i :: 0 <= i < |items| ==>
              "openFuyaoVersion" in items[i] && versions[i] == items[i]["openFuyaoVersion"]
  {
    ItemsAreEntries(env, remote, path, items);
  }

  lemma FileOf(item: map<string, string>, e: Entry, f: string)
    requires Describes(item, e) && NamesFile(item, f)
    ensures e.filePath == f
  {
    if item["filePath"] == "./" + f {
      assert "./" <= item["filePath"];
      assert ("./" + f)[2..] == f && ("./" + e.filePath)[2..] == e.filePath;
    }
  }

  lemma LastItemIsLast(items: seq<map<string, string>>, entries: seq<Entry>, i: nat)
    requires |entries| == |items| && forall j :: 0 <= j < |items| ==> Describes(items[j], entries[j])
    requires IsLastItem(items, i)
    ensures IsLast(entries, i) && entries[i].version == items[i]["openFuyaoVersion"]
  {
    assert Describes(items[i], entries[i]);
    forall j | i < j < |entries|
      ensures entries[j].version != entries[i].version
    {
      assert Describes(items[j], entries[j]);
    }
  }

  // After a successful refresh, the last item of each version has its file's body, normalised, stored under cm.v
  // with the one key v, and patch.v leads there.
  lemma RefreshStoresItems(env: Env, remote: Remote, path: string, s: Store, items: seq<map<string, string>>,
                           i: nat, f: string)
    requires RefreshWorks(env, remote, path, s) && Serves(env, remote, path, items)
    requires IsLastItem(items, i) && NamesFile(items[i], f)
    ensures var t, v := Refreshed(env, remote, path, s), items[i]["openFuyaoVersion"];
            && remote(path + f).Some?
            && "cm." + v in t.patches && t.patches["cm." + v] == map[v := Normalise(remote(path + f).value)]
            && t.config.Some? && "patch." + v in t.config.value && t.config.value["patch." + v] == "cm." + v
  {
    var entries, t := RemoteEntries(env, remote, path), Refreshed(env, remote, path, s);
    var v := items[i]["openFuyaoVersion"];
    ItemsAreEntries(env, remote, path, items);
    LastItemIsLast(items, entries, i);
    FileOf(items[i], entries[i], f);
    RefreshIsMirror(env, remote, path, s);
    assert Holds(remote, path, entries[i], t.patches);
    assert Versions(entries)[i] == v;
    assert KeyOf(v) in PatchKeys(t.config.value);
    KeysAndNames(v, v);
  }

  // The patch of an old entry whose version is not among the items is gone.
  lemma OldPatchesAreGone(env: Env, remote: Remote, path: string, s: Store, items: seq<map<string, string>>,
                          version: string)
    requires RefreshWorks(env, remote, path, s) && Serves(env, remote, path, items)
    requires "patch." + version in s.config.value && s.config.value["patch." + version] == "cm." + version
    requires forall i :: 0 <= i < |items| && "openFuyaoVersion" in items[i] ==> items[i]["openFuyaoVersion"] != version
    ensures var t := Refreshed(env, remote, path, s);
            && "cm." + version !in t.patches && t.config.Some? && "patch." + version !in t.config.value
  {
    var entries, t := RemoteEntries(env, remote, path), Refreshed(env, remote, path, s);
    ItemsAreEntries(env, remote, path, items);
    RefreshIsMirror(env, remote, path, s);
    KeysAndNames(version, version);
    assert KeyOf(version) in PatchKeys(s.config.value) && NameOf(version) in Named(s.config.value);
    forall v | v in Versions(entries)
      ensures KeyOf(v) != KeyOf(version) && NameOf(v) != NameOf(version)
    {
      var i :| 0 <= i < |entries| && Versions(entries)[i] == v;
      assert Describes(items[i], entries[i]);
      KeysAndNames(v, version);
    }
    assert KeyOf(version) !in PatchKeys(t.config.value);
  }

  // And nothing else is indexed: every entry of the index is that of some item.
  lemma IndexIsOfItems(env: Env, remote: Remote, path: string, s: Store, items: seq<map<string, string>>, key: string)
    requires RefreshWorks(env, remote, path, s) && Serves(env, remote, path, items)
    requires key in PatchKeys(Refreshed(env, remote, path, s).config.value)
    ensures exists i :: 0 <= i < |items| && "openFuyaoVersion" in items[i]
                        && key == "patch." + items[i]["openFuyaoVersion"]
  {
    var entries := RemoteEntries(env, remote, path);
    ItemsAreEntries(env, remote, path, items);
    RefreshIsMirror(env, remote, path, s);
    var v :| v in Versions(entries) && KeyOf(v) == key;
    var i :| 0 <= i < |entries| && Versions(entries)[i] == v;
    assert Describes(items[i], entries[i]);
  }

  // What a refresh needs of the remote repository, item by item.
  lemma RefreshNeedsItems(env: Env, remote: Remote, path: string, s: Store, items: seq<map<string, string>>)
    requires s.config.Some? && Cleanable(s.config.value, s.patches) && Serves(env, remote, path, items)
    ensures RefreshWorks(env, remote, path, s) <==>
              && (forall i :: 0 <= i < |items| ==> "openFuyaoVersion" in items[i] && "filePath" in items[i])
              && (forall i, f :: 0 <= i < |items| && NamesFile(items[i], f) ==> remote(path + f).Some?)
  {
    EntriesExactly(items);
    if Entries(items).Some? {
      var entries := Entries(items).value;
      forall i, f | 0 <= i < |items| && NamesFile(items[i], f)
        ensures f == entries[i].filePath
      {
        FileOf(items[i], entries[i], f);
      }
      forall i | 0 <= i < |items|
        ensures NamesFile(items[i], entries[i].filePath)
      {
        assert Describes(items[i], entries[i]);
      }
    }
  }
}
