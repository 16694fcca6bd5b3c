/** Merging and patching addons, stated from the texts of a request and read from the fields of the result. */
module AddonTheorems {
  import opened Wrappers
  import opened GoStrings
  import opened Documents
  import opened PatchProtocol
  import opened Addons

  // ---------- which requests disable an addon ----------

  // The same text but for upper-case letters of word.
  ghost predicate SameIgnoringCase(word: string, lower: string) {
    |word| == |lower| &&
    forall i :: 0 <= i < |word| ==>
      if 'A' <= word[i] <= 'Z' then lower[i] == word[i] - 'A' + 'a' else lower[i] == word[i]
  }

  // text is the word, in any case, with any spaces around it.
  ghost predicate Says(text: string, lower: string) {
    exists l, r, word :: Spaces(l) && Spaces(r) && text == l + word + r && SameIgnoringCase(word, lower)
  }

  lemma ToLowerExactly(s: string)
    ensures SameIgnoringCase(s, ToLower(s))
    ensures forall i :: 0 <= i < |s| ==> (IsSpace(s[i]) <==> IsSpace(ToLower(s)[i]))
  {
  }

  lemma TrimmedIs(s: string, l: string, word: string, r: string)
    requires s == l + word + r && Spaces(l) && Spaces(r)
    requires word != "" && !IsSpace(word[0]) && !IsSpace(word[|word| - 1])
    ensures TrimSpace(s) == word
  {
    TrimLeftPast(l, word + r);
    assert s == l + (word + r);
    TrimRightPast(word, r);
  }

  lemma {:induction false} TrimLeftPast(l: string, s: string)
    requires Spaces(l) && s != "" && !IsSpace(s[0])
    ensures TrimSpaceLeft(l + s) == s
  {
    if l == "" {
      assert l + s == s;
    } else {
      assert (l + s)[1..] == l[1..] + s && (l + s)[0] == l[0];
      TrimLeftPast(l[1..], s);
    }
  }

  lemma {:induction false} TrimRightPast(s: string, r: string)
    requires Spaces(r) && s != "" && !IsSpace(s[|s| - 1])
    ensures TrimSpaceRight(s + r) == s
  {
    if r == "" {
      assert s + r == s;
    } else {
      var before := r[..|r| - 1];
      assert (s + r)[..|s + r| - 1] == s + before && (s + r)[|s + r| - 1] == r[|r| - 1];
      TrimRightPast(s, before);
    }
  }

  lemma LowerOfParts(l: string, word: string, r: string)
    ensures ToLower(l + word + r) == ToLower(l) + ToLower(word) + ToLower(r)
  {
  }

  lemma LowerSpaces(s: string)
    ensures Spaces(s) <==> Spaces(ToLower(s))
  {
    ToLowerExactly(s);
  }

  lemma SaysExactly(text: string, lower: string)
    requires lower != "" && !IsSpace(lower[0]) && !IsSpace(lower[|lower| - 1])
    ensures Says(text, lower) <==> TrimSpace(ToLower(text)) == lower
  {
    if Says(text, lower) {
      var l, r, word :| Spaces(l) && Spaces(r) && text == l + word + r && SameIgnoringCase(word, lower);
      LowerOfParts(l, word, r);
      LowerSpaces(l);
      LowerSpaces(r);
      ToLowerExactly(word);
      assert ToLower(word) == lower;
      TrimmedIs(ToLower(text), ToLower(l), lower, ToLower(r));
    }
    if TrimSpace(ToLower(text)) == lower {
      TrimmedSays(text, lower);
    }
  }

  lemma TrimmedSays(text: string, lower: string)
    requires TrimSpace(ToLower(text)) == lower
    ensures Says(text, lower)
  {
    var a, b := TrimSpaceExactly(ToLower(text));
    var l, word, r := text[..|a|], text[|a|..|a| + |lower|], text[|a| + |lower|..];
    LowerOfParts(l, word, r);
    assert text == l + word + r;
    assert ToLower(l) == a && ToLower(word) == lower && ToLower(r) == b by {
      assert ToLower(text) == ToLower(l) + ToLower(word) + ToLower(r) == a + lower + b;
      SameParts(ToLower(l), ToLower(word), ToLower(r), a, lower, b);
    }
    LowerSpaces(l);
    LowerSpaces(r);
    ToLowerExactly(word);
  }

  lemma SameParts(l: string, w: string, r: string, a: string, b: string, c: string)
    requires |l| == |a| && |w| == |b| && l + w + r == a + b + c
    ensures l == a && w == b && r == c
  {
    var s, t := l + w + r, a + b + c;
    assert s[..|l|] == l && t[..|a|] == a;
    assert s[|l|..|l| + |w|] == w && t[|a|..|a| + |b|] == b;
    assert s[|l| + |w|..] == r && t[|a| + |b|..] == c;
  }

  // A request disables its addon exactly when its parameter "enabled" says false, 0 or no.
  lemma DisabledExactly(r: RequestedAddon)
    ensures IsAddonDisabled(r) <==>
              && "enabled" in r.params
              && exists lower :: lower in ["false", "0", "no"] && Says(r.params["enabled"], lower)
  {
    if "enabled" in r.params {
      SaysExactly(r.params["enabled"], "false");
      SaysExactly(r.params["enabled"], "0");
      SaysExactly(r.params["enabled"], "no");
    }
  }

  // ---------- the names that merging leaves ----------

  // A request for this addon: by its name, and for the system controller also by its alias.
  predicate Asks(r: RequestedAddon, name: string) {
    if r.name == "openFuyao-cores" then name == "openfuyao-system-controller" else r.name == name
  }

  ghost predicate LastAsks(req: seq<RequestedAddon>, i: nat, name: string) {
    i < |req| && Asks(req[i], name) && forall j :: i < j < |req| ==> !Asks(req[j], name)
  }

  lemma AsksExactly(r: RequestedAddon, name: string)
    ensures Asks(r, name) <==> NormalizeAddonName(r.name) == name
  {
  }

  // The request that counts for a name is the last one that asks for it.
  lemma RequestsByName(req: seq<RequestedAddon>, name: string)
    ensures name in RequestMap(req) <==> exists i: nat :: LastAsks(req, i, name)
    ensures forall i: nat :: LastAsks(req, i, name) ==> RequestMap(req)[name].params == req[i].params
  {
    RequestNames(req);
    forall i: nat | LastAsks(req, i, name)
      ensures name in RequestMap(req) && RequestMap(req)[name].params == req[i].params
    {
      AsksExactly(req[i], name);
      forall j | i < j < |req|
        ensures NormalizeAddonName(req[j].name) != NormalizeAddonName(req[i].name)
      {
        AsksExactly(req[j], name);
      }
      LastRequestWins(req, i);
    }
    if name in RequestMap(req) {
      var r :| r in req && NormalizeAddonName(r.name) == name;
      var k :| 0 <= k < |req| && req[k] == r;
      AsksExactly(r, name);
      var i := FindLast(req, k, name);
    }
  }

  lemma {:induction false} FindLast(req: seq<RequestedAddon>, k: nat, name: string) returns (i: nat)
    requires k < |req| && Asks(req[k], name)
    ensures LastAsks(req, i, name)
    decreases |req| - k
  {
    i := k;
    if j :| k < j < |req| && Asks(req[j], name) {
      i := FindLast(req, j, name);
    }
  }

  // An addon is there after merging exactly when the last request for it enables it, or nobody asks for it and it is
  // a default other than the system controller.
  lemma NamesAfterMerging(defaults: seq<Value>, req: seq<RequestedAddon>, order: seq<string>, result: seq<Value>,
                          name: string)
    requires DistinctNames(defaults) && NamedRequests(req) && Merged(defaults, req, order, result)
    ensures name in Names(result) <==>
              || (exists i: nat :: LastAsks(req, i, name) && !IsAddonDisabled(req[i]))
              || ((forall i :: 0 <= i < |req| ==> !Asks(req[i], name))
                  && name in Names(defaults) && name != "openfuyao-system-controller")
  {
    MergedNames(defaults, req, order, result);
    RequestsByName(req, name);
    if i: nat :| LastAsks(req, i, name) {
      assert IsAddonDisabled(RequestMap(req)[name]) <==> IsAddonDisabled(req[i]);
      assert forall j: nat :: LastAsks(req, j, name) ==> j == i;
    } else {
      forall i | 0 <= i < |req|
        ensures !Asks(req[i], name)
      {
        if Asks(req[i], name) {
          var j := FindLast(req, i, name);
        }
      }
    }
  }

  // ---------- the parameters, read at their paths ----------

  // The parameters, if any, are an object.
  ghost predicate PlainParam(v: Value) {
    v.Obj? && ("param" in v.fields ==> v.fields["param"].Obj?)
  }

  lemma ParamIsRead(v: Value, k: string)
    requires PlainParam(v)
    ensures Get(v, ["param", k]) == if k in ParamMap(v.fields) then Found(ParamMap(v.fields)[k]) else Missing
  {
    GetPair(v.fields, "param", k);
    if "param" in v.fields {
      GetKey(v.fields["param"].fields, k);
    }
  }

  lemma MergedIsPlain(defaults: seq<Value>, req: seq<RequestedAddon>, order: seq<string>, merged: seq<Value>, i: nat,
                      name: string)
    requires DistinctNames(defaults) && NamedRequests(req) && Merged(defaults, req, order, merged)
    requires i < |merged| && AddonName(merged[i]) == Some(name)
    requires name in RequestMap(req) || forall j :: 0 <= j < |defaults| && AddonName(defaults[j]) == Some(name) ==>
                                          PlainParam(defaults[j])
    ensures PlainParam(merged[i])
  {
    var requests := RequestMap(req);
    MergedDistinct(defaults, req, order, merged);
    var kept := KeepMerged(defaults, requests);
    if i < |kept| {
      var at := KeptInOrder(defaults, requests);
      MergeOneName(defaults[at[i]], requests);
    } else {
      RequestsAreNamed(req);
      NewAddonsAre(order, requests);
    }
  }

  lemma PatchedIsPlain(v: Value, patches: map<string, AddonInfo>)
    requires AddonName(v).Some?
    requires PlainParam(v) || (AddonName(v).value in patches && patches[AddonName(v).value].param != map[])
    ensures PlainParam(PatchOne(v, patches))
  {
  }

  // The last addon of the patch with this name, if any, sets the parameter.
  ghost predicate PatchSets(patch: seq<AddonInfo>, p: nat, name: string, k: string) {
    IsLastPatch(patch, p) && patch[p].name == name && k in patch[p].param
  }

  // The last request for this addon, if any, sets the parameter.
  ghost predicate RequestSets(req: seq<RequestedAddon>, q: nat, name: string, k: string) {
    LastAsks(req, q, name) && k in req[q].params
  }

  lemma PatchSetsExactly(patch: seq<AddonInfo>, name: string, k: string)
    ensures name in PatchMap(patch) && k in PatchMap(patch)[name].param
            <==> exists p: nat :: PatchSets(patch, p, name, k)
    ensures forall p: nat :: PatchSets(patch, p, name, k) ==> PatchMap(patch)[name].param[k] == patch[p].param[k]
  {
    forall p: nat | PatchSets(patch, p, name, k)
      ensures name in PatchMap(patch) && PatchMap(patch)[name] == patch[p]
    {
      LastPatchWins(patch);
    }
    if name in PatchMap(patch) && k in PatchMap(patch)[name].param {
      var p := LastPatchOf(patch, name);
      assert PatchSets(patch, p, name, k);
    }
  }

  lemma LastPatchOf(patch: seq<AddonInfo>, name: string) returns (p: nat)
    requires name in PatchMap(patch)
    ensures IsLastPatch(patch, p) && patch[p].name == name && PatchMap(patch)[name] == patch[p]
  {
    LastPatchWins(patch);
    var m := PatchMap(patch)[name];
    var j :| 0 <= j < |patch| && patch[j] == m;
    p := FindLastPatch(patch, j);
  }

  lemma {:induction false} FindLastPatch(patch: seq<AddonInfo>, k: nat) returns (p: nat)
    requires k < |patch|
    ensures IsLastPatch(patch, p) && patch[p].name == patch[k].name
    decreases |patch| - k
  {
    p := k;
    if j :| k < j < |patch| && patch[j].name == patch[k].name {
      p := FindLastPatch(patch, j);
    }
  }

  // Read at its path in an addon that has been merged and patched, a parameter is the one that the last addon of the
  // patch sets; if that sets none, the one that the last request sets; and if neither does, the default's.
  lemma ParamsAtTheirPaths(defaults: seq<Value>, req: seq<RequestedAddon>, order: seq<string>, merged: seq<Value>,
                           patch: seq<AddonInfo>, i: nat, name: string, k: string)
    requires DistinctNames(defaults) && NamedRequests(req) && Merged(defaults, req, order, merged)
    requires i < |merged| && AddonName(merged[i]) == Some(name)
    ensures var final := PatchAll(merged, PatchMap(patch))[i];
            && (forall p: nat :: PatchSets(patch, p, name, k) ==>
                  Get(final, ["param", k]) == Found(Str(patch[p].param[k])))
            && (forall q: nat :: RequestSets(req, q, name, k) && !(exists p: nat :: PatchSets(patch, p, name, k)) ==>
                  Get(final, ["param", k]) == Found(Str(req[q].params[k])))
            && (forall j :: 0 <= j < |defaults| && AddonName(defaults[j]) == Some(name) && PlainParam(defaults[j])
                            && !(exists p: nat :: PatchSets(patch, p, name, k))
                            && !(exists q: nat :: RequestSets(req, q, name, k)) ==>
                  Get(final, ["param", k]) == Get(defaults[j], ["param", k]))
  {
    var patches, requests := PatchMap(patch), RequestMap(req);
    var final := PatchAll(merged, patches)[i];
    Precedence(defaults, req, order, merged, patch, i);
    PreferredByKey(patches, requests, name, DefaultParams(defaults, name), k);
    PatchSetsExactly(patch, name, k);
    RequestsByName(req, name);
    forall p: nat | PatchSets(patch, p, name, k)
      ensures Get(final, ["param", k]) == Found(Str(patch[p].param[k]))
    {
      PatchedIsPlain(merged[i], patches);
      ParamIsRead(final, k);
    }
    if !(exists p: nat :: PatchSets(patch, p, name, k)) {
      forall q: nat | RequestSets(req, q, name, k)
        ensures Get(final, ["param", k]) == Found(Str(req[q].params[k]))
      {
        MergedIsPlain(defaults, req, order, merged, i, name);
        PatchedIsPlain(merged[i], patches);
        ParamIsRead(final, k);
      }
      if !(exists q: nat :: RequestSets(req, q, name, k)) {
        forall j | 0 <= j < |defaults| && AddonName(defaults[j]) == Some(name) && PlainParam(defaults[j])
          ensures Get(final, ["param", k]) == Get(defaults[j], ["param", k])
        {
          OnlyDefault(defaults, j, name);
          MergedIsPlain(defaults, req, order, merged, i, name);
          PatchedIsPlain(merged[i], patches);
          ParamIsRead(final, k);
          ParamIsRead(defaults[j], k);
          DefaultParamsAre(defaults, j);
          NotSetByRequest(req, name, k);
        }
      }
    }
  }

  lemma OnlyDefault(defaults: seq<Value>, j: nat, name: string)
    requires DistinctNames(defaults) && j < |defaults| && AddonName(defaults[j]) == Some(name)
    ensures forall l :: 0 <= l < |defaults| && AddonName(defaults[l]) == Some(name) ==> l == j
  {
  }

  lemma NotSetByRequest(req: seq<RequestedAddon>, name: string, k: string)
    requires !(exists q: nat :: RequestSets(req, q, name, k))
    ensures name in RequestMap(req) ==> k !in RequestMap(req)[name].params
  {
    RequestsByName(req, name);
    if name in RequestMap(req) {
      var q: nat :| LastAsks(req, q, name);
      assert !RequestSets(req, q, name, k);
    }
  }
}
