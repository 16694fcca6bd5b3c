/** Merging the requested addons into the default ones, and patching the addons of a cluster. */
module Addons {
  import opened Wrappers
  import opened GoStrings
  import opened Documents
  import opened PatchProtocol

  // ---------- the parts of an addon ----------

  const OPENFUYAO_ALIAS: string := "openFuyao-cores"
  const OPENFUYAO_NAME: string := "openfuyao-system-controller"

  datatype RequestedAddon = RequestedAddon(name: string, params: map<string, string>)

  // The name of an addon; None for anything the loops here skip.
  function AddonName(v: Value): Option<string> {
    if v.Obj? && "name" in v.fields && v.fields["name"].Str? && v.fields["name"].s != ""
    then Some(v.fields["name"].s) else None
  }

  function Texts(strings: map<string, string>): Fields {
    map k | k in strings :: Str(strings[k])
  }

  // getOrCreateParamMap
  function ParamMap(addon: Fields): Fields {
    if "param" !in addon then map[]
    else match addon["param"]
      case Obj(fields) => fields
      case StringMap(strings) => Texts(strings)
      case _ => map[]
  }

  function Overlay(params: Fields, more: map<string, string>): Fields {
    params + Texts(more)
  }

  // for k, v := range more { params[k] = v }
  method OverlayParams(params: Fields, more: map<string, string>) returns (r: Fields)
    ensures r == Overlay(params, more)
  {
    r := params;
    var todo := more.Keys;
    while todo != {}
      invariant todo <= more.Keys
      invariant r == params + (map k | k in more && k !in todo :: Str(more[k]))
      decreases todo
    {
      var k :| k in todo;
      r := r[k := Str(more[k])];
      todo := todo - {k};
    }
    assert (map k | k in more && k !in todo :: Str(more[k])) == Texts(more);
  }

  function NormalizeAddonName(name: string): string {
    if name == OPENFUYAO_ALIAS then OPENFUYAO_NAME else name
  }

  predicate IsAddonDisabled(addon: RequestedAddon) {
    && "enabled" in addon.params
    && TrimSpace(ToLower(addon.params["enabled"])) in {"false", "0", "no"}
  }

  // ---------- what merging does ----------

  // The requests by normalised name: the last one of a name wins.
  function RequestMap(req: seq<RequestedAddon>): map<string, RequestedAddon> {
    if req == [] then map[]
    else
      var last := req[|req| - 1];
      var name := NormalizeAddonName(last.name);
      RequestMap(req[..|req| - 1])[name := last.(name := name)]
  }

  lemma {:induction false} LastRequestWins(req: seq<RequestedAddon>, i: nat)
    requires i < |req|
    requires forall j :: i < j < |req| ==> NormalizeAddonName(req[j].name) != NormalizeAddonName(req[i].name)
    ensures NormalizeAddonName(req[i].name) in RequestMap(req)
    ensures RequestMap(req)[NormalizeAddonName(req[i].name)].params == req[i].params
  {
    if i < |req| - 1 {
      LastRequestWins(req[..|req| - 1], i);
    }
  }

  lemma {:induction false} RequestNames(req: seq<RequestedAddon>)
    ensures forall n :: n in RequestMap(req) <==> exists r :: r in req && NormalizeAddonName(r.name) == n
    ensures forall n :: n in RequestMap(req) ==> RequestMap(req)[n].name == n
  {
    if req != [] {
      RequestNames(req[..|req| - 1]);
      assert req == req[..|req| - 1] + [req[|req| - 1]];
    }
  }

  // A default addon after merging; None when it is dropped.
  function MergeOne(v: Value, requests: map<string, RequestedAddon>): Option<Value> {
    var name := AddonName(v);
    if name.None? then None
    else if name.value !in requests then
      if name.value == OPENFUYAO_NAME then None else Some(v)
    else if IsAddonDisabled(requests[name.value]) then None
    else Some(Obj(v.fields["param" := Obj(Overlay(ParamMap(v.fields), requests[name.value].params))]))
  }

  function NewAddon(r: RequestedAddon): Value {
    Obj(map["name" := Str(r.name), "param" := Obj(Texts(r.params))])
  }

  // The merged defaults, and the requests that no default has used up.
  function MergeDefaults(defaults: seq<Value>, requests: map<string, RequestedAddon>)
    : (seq<Value>, map<string, RequestedAddon>)
  {
    if defaults == [] then ([], requests)
    else
      var (out, rest) := MergeDefaults(defaults[..|defaults| - 1], requests);
      var v := defaults[|defaults| - 1];
      var merged := MergeOne(v, rest);
      if merged.None? then (out, rest) else (out + [merged.value], rest - {AddonName(v).value})
  }

  function EnabledNames(requests: map<string, RequestedAddon>): set<string> {
    set n | n in requests && !IsAddonDisabled(requests[n])
  }

  // order lists the elements of names, each once.
  ghost predicate IsOrder(order: seq<string>, names: set<string>) {
    && (forall n :: n in order <==> n in names)
    && (forall i, j :: 0 <= i < j < |order| ==> order[i] != order[j])
  }

  function NewAddons(order: seq<string>, requests: map<string, RequestedAddon>): seq<Value> {
    if order == [] then []
    else NewAddons(order[..|order| - 1], requests)
         + (if order[|order| - 1] in requests then [NewAddon(requests[order[|order| - 1]])] else [])
  }

  // The requests left over are appended in the iteration order of a Go map: any order.
  ghost predicate Merged(defaults: seq<Value>, req: seq<RequestedAddon>, order: seq<string>, result: seq<Value>) {
    var (out, rest) := MergeDefaults(defaults, RequestMap(req));
    IsOrder(order, EnabledNames(rest)) && result == out + NewAddons(order, rest)
  }

  method MergeAddons(defaultAddons: seq<Value>, reqAddons: seq<RequestedAddon>)
    returns (result: seq<Value>)
    ensures exists order :: Merged(defaultAddons, reqAddons, order, result)
  {
    if |defaultAddons| == 0 && |reqAddons| == 0 {
      assert Merged(defaultAddons, reqAddons, [], defaultAddons);
      return defaultAddons;
    }
    var reqMap: map<string, RequestedAddon> := map[];
    for i := 0 to |reqAddons|
      invariant reqMap == RequestMap(reqAddons[..i])
    {
      assert reqAddons[..i + 1][..i] == reqAddons[..i];
      var name := NormalizeAddonName(reqAddons[i].name);
      reqMap := reqMap[name := reqAddons[i].(name := name)];
    }
    assert reqAddons[..|reqAddons|] == reqAddons;
    result, reqMap := MergeIntoDefaults(defaultAddons, reqMap);
    var added := NewFromRequests(reqMap);
    ghost var order :| IsOrder(order, EnabledNames(reqMap)) && added == NewAddons(order, reqMap);
    result := result + added;
    assert Merged(defaultAddons, reqAddons, order, result);
  }

  // The loop over the requests left over.
  method NewFromRequests(reqMap: map<string, RequestedAddon>) returns (added: seq<Value>)
    ensures exists order :: IsOrder(order, EnabledNames(reqMap)) && added == NewAddons(order, reqMap)
  {
    added := [];
    ghost var order: seq<string> := [];
    var todo := reqMap.Keys;
    while todo != {}
      invariant todo <= reqMap.Keys
      invariant IsOrder(order, EnabledNames(reqMap) - todo)
      invariant added == NewAddons(order, reqMap)
      decreases todo
    {
      var name :| name in todo;
      todo := todo - {name};
      if IsAddonDisabled(reqMap[name]) { continue; }
      var addon := map["name" := Str(reqMap[name].name), "param" := Obj(map[])];
      if |reqMap[name].params| > 0 {
        var param := OverlayParams(map[], reqMap[name].params);
        assert param == Texts(reqMap[name].params);
        addon := addon["param" := Obj(param)];
      } else {
        assert Texts(reqMap[name].params) == map[];
      }
      assert Obj(addon) == NewAddon(reqMap[name]);
      assert (order + [name])[..|order|] == order;
      order := order + [name];
      added := added + [Obj(addon)];
    }
  }

  // The loop over the default addons, which deletes from the request map as it goes.
  method MergeIntoDefaults(defaultAddons: seq<Value>, requests: map<string, RequestedAddon>)
    returns (result: seq<Value>, reqMap: map<string, RequestedAddon>)
    ensures (result, reqMap) == MergeDefaults(defaultAddons, requests)
  {
    result, reqMap := [], requests;
    for i := 0 to |defaultAddons|
      invariant (result, reqMap) == MergeDefaults(defaultAddons[..i], requests)
    {
      var raw := defaultAddons[i];
      assert defaultAddons[..i + 1][..i] == defaultAddons[..i];
      var maybe := AddonName(raw);
      if maybe.None? { continue; }
      var name := maybe.value;
      if name == OPENFUYAO_NAME && name !in reqMap { continue; }
      var addon := raw.fields;
      if name in reqMap {
        if IsAddonDisabled(reqMap[name]) { continue; }
        var param := OverlayParams(ParamMap(addon), reqMap[name].params);
        addon := addon["param" := Obj(param)];
      }
      result := result + [Obj(addon)];
      reqMap := reqMap - {name};
    }
    assert defaultAddons[..|defaultAddons|] == defaultAddons;
  }

  // ---------- merging defaults with distinct names ----------

  ghost predicate DistinctNames(addons: seq<Value>) {
    forall i, j :: 0 <= i < j < |addons| && AddonName(addons[i]).Some? ==> AddonName(addons[i]) != AddonName(addons[j])
  }

  ghost function Names(addons: seq<Value>): set<string> {
    set i | 0 <= i < |addons| && AddonName(addons[i]).Some? :: AddonName(addons[i]).value
  }

  // The reference for the loop: every default merged against the whole request map.
  function KeepMerged(defaults: seq<Value>, requests: map<string, RequestedAddon>): seq<Value> {
    if defaults == [] then []
    else
      var merged := MergeOne(defaults[|defaults| - 1], requests);
      KeepMerged(defaults[..|defaults| - 1], requests) + (if merged.Some? then [merged.value] else [])
  }

  // A name that is still there after merging.
  predicate Survives(name: string, requests: map<string, RequestedAddon>) {
    if name in requests then !IsAddonDisabled(requests[name]) else name != OPENFUYAO_NAME
  }

  lemma {:induction false} NamesSnoc(addons: seq<Value>)
    requires addons != []
    ensures Names(addons) == Names(addons[..|addons| - 1])
                             + (var n := AddonName(addons[|addons| - 1]); if n.Some? then {n.value} else {})
  {
    var n := |addons| - 1;
    forall x | x in Names(addons)
      ensures x in Names(addons[..n]) || AddonName(addons[n]) == Some(x)
    {
      var i :| 0 <= i < |addons| && AddonName(addons[i]) == Some(x);
      if i < n { assert AddonName(addons[..n][i]) == Some(x); }
    }
    forall x | x in Names(addons[..n])
      ensures x in Names(addons)
    {
      var i :| 0 <= i < n && AddonName(addons[..n][i]) == Some(x);
      assert AddonName(addons[i]) == Some(x);
    }
  }

  lemma {:induction false} MergeDefaultsDistinct(defaults: seq<Value>, requests: map<string, RequestedAddon>)
    requires DistinctNames(defaults)
    ensures MergeDefaults(defaults, requests).0 == KeepMerged(defaults, requests)
    ensures var rest := MergeDefaults(defaults, requests).1;
            && rest.Keys <= requests.Keys && (forall n :: n in rest ==> rest[n] == requests[n])
            && (forall n :: n in requests && n !in rest <==>
                  n in requests && n in Names(defaults) && Survives(n, requests))
  {
    if defaults != [] {
      var before, v := defaults[..|defaults| - 1], defaults[|defaults| - 1];
      MergeDefaultsDistinct(before, requests);
      NamesSnoc(defaults);
      var rest := MergeDefaults(before, requests).1;
      if AddonName(v).Some? {
        var name := AddonName(v).value;
        NamesOfPrefix(defaults);
        assert name in requests <==> name in rest;
        assert MergeOne(v, rest) == MergeOne(v, requests);
      }
    }
  }

  lemma MergedDistinct(defaults: seq<Value>, req: seq<RequestedAddon>, order: seq<string>, result: seq<Value>)
    requires DistinctNames(defaults) && Merged(defaults, req, order, result)
    ensures var requests := RequestMap(req);
            && IsOrder(order, EnabledNames(requests) - Names(defaults))
            && result == KeepMerged(defaults, requests) + NewAddons(order, requests)
  {
    var requests := RequestMap(req);
    MergeDefaultsDistinct(defaults, requests);
    var rest := MergeDefaults(defaults, requests).1;
    assert EnabledNames(rest) == EnabledNames(requests) - Names(defaults);
    NewAddonsAgree(order, rest, requests);
  }

  lemma {:induction false} NewAddonsAgree(order: seq<string>, rest: map<string, RequestedAddon>,
                                          requests: map<string, RequestedAddon>)
    requires forall n :: n in order ==> n in rest && n in requests && rest[n] == requests[n]
    ensures NewAddons(order, rest) == NewAddons(order, requests)
  {
    if order != [] {
      NewAddonsAgree(order[..|order| - 1], rest, requests);
    }
  }

  lemma NamesOfPrefix(addons: seq<Value>)
    requires addons != [] && DistinctNames(addons) && AddonName(addons[|addons| - 1]).Some?
    ensures AddonName(addons[|addons| - 1]).value !in Names(addons[..|addons| - 1])
  {
  }

  lemma MergeOneName(v: Value, requests: map<string, RequestedAddon>)
    ensures MergeOne(v, requests).Some? <==> AddonName(v).Some? && Survives(AddonName(v).value, requests)
    ensures MergeOne(v, requests).Some? ==> AddonName(MergeOne(v, requests).value) == AddonName(v)
  {
  }

  // Exactly the surviving defaults are kept, and they keep distinct names.
  lemma {:induction false} KeptNames(defaults: seq<Value>, requests: map<string, RequestedAddon>)
    ensures var kept := KeepMerged(defaults, requests);
            && (forall i :: 0 <= i < |kept| ==> AddonName(kept[i]).Some?)
            && (forall n :: n in Names(kept) <==> n in Names(defaults) && Survives(n, requests))
    ensures DistinctNames(defaults) ==> DistinctNames(KeepMerged(defaults, requests))
  {
    if defaults != [] {
      var before, v := defaults[..|defaults| - 1], defaults[|defaults| - 1];
      KeptNames(before, requests);
      NamesSnoc(defaults);
      MergeOneName(v, requests);
      var kept := KeepMerged(defaults, requests);
      if MergeOne(v, requests).Some? {
        assert kept[..|kept| - 1] == KeepMerged(before, requests);
        NamesSnoc(kept);
        if DistinctNames(defaults) {
          NamesOfPrefix(defaults);
          SnocDistinct(kept[..|kept| - 1], kept[|kept| - 1]);
        }
      } else {
        assert kept == KeepMerged(before, requests);
      }
    }
  }

  lemma SnocDistinct(addons: seq<Value>, v: Value)
    requires DistinctNames(addons) && AddonName(v).Some? && AddonName(v).value !in Names(addons)
    ensures DistinctNames(addons + [v])
  {
    forall i | 0 <= i < |addons| && AddonName(addons[i]).Some?
      ensures AddonName(addons[i]) != AddonName(v)
    {
      assert AddonName(addons[i]).value in Names(addons);
    }
  }

  // kept is the defaults at the positions at, in order, each merged.
  ghost predicate InOrder(defaults: seq<Value>, requests: map<string, RequestedAddon>, at: seq<nat>, kept: seq<Value>) {
    && |at| == |kept|
    && (forall k :: 0 <= k < |at| ==> at[k] < |defaults| && MergeOne(defaults[at[k]], requests) == Some(kept[k]))
    && (forall j, k :: 0 <= j < k < |at| ==> at[j] < at[k])
  }

  lemma InOrderSnoc(defaults: seq<Value>, requests: map<string, RequestedAddon>, at: seq<nat>, kept: seq<Value>)
    requires defaults != [] && InOrder(defaults[..|defaults| - 1], requests, at, kept)
    ensures InOrder(defaults, requests, at, kept)
    ensures var merged := MergeOne(defaults[|defaults| - 1], requests);
            merged.Some? ==> InOrder(defaults, requests, at + [|defaults| - 1], kept + [merged.value])
  {
  }

  // The surviving defaults come in their order.
  lemma {:induction false} KeptInOrder(defaults: seq<Value>, requests: map<string, RequestedAddon>)
    returns (at: seq<nat>)
    ensures InOrder(defaults, requests, at, KeepMerged(defaults, requests))
  {
    at := [];
    if defaults != [] {
      var n := |defaults| - 1;
      at := KeptInOrder(defaults[..n], requests);
      InOrderSnoc(defaults, requests, at, KeepMerged(defaults[..n], requests));
      if MergeOne(defaults[n], requests).Some? {
        at := at + [n];
      } else {
        assert KeepMerged(defaults, requests) == KeepMerged(defaults[..n], requests);
      }
    }
  }

  lemma {:induction false} NewAddonsAre(order: seq<string>, requests: map<string, RequestedAddon>)
    requires forall n :: n in order ==> n in requests && requests[n].name == n
    ensures |NewAddons(order, requests)| == |order|
    ensures forall i :: 0 <= i < |order| ==> NewAddons(order, requests)[i] == NewAddon(requests[order[i]])
  {
    if order != [] {
      NewAddonsAre(order[..|order| - 1], requests);
    }
  }

  ghost predicate NamedRequests(req: seq<RequestedAddon>) {
    forall r :: r in req ==> r.name != ""
  }

  lemma RequestsAreNamed(req: seq<RequestedAddon>)
    requires NamedRequests(req)
    ensures forall n :: n in RequestMap(req) ==> n != "" && RequestMap(req)[n].name == n
  {
    RequestNames(req);
  }

  // With distinct default names and named requests: the merged addons carry distinct names, and these are the
  // surviving defaults and the enabled requests that are not defaults. The defaults come first.
  lemma MergedNames(defaults: seq<Value>, req: seq<RequestedAddon>, order: seq<string>, result: seq<Value>)
    requires DistinctNames(defaults) && NamedRequests(req) && Merged(defaults, req, order, result)
    ensures DistinctNames(result) && forall i :: 0 <= i < |result| ==> AddonName(result[i]).Some?
    ensures var requests := RequestMap(req);
            forall n :: n in Names(result) <==>
              if n in Names(defaults) then Survives(n, requests) else n in EnabledNames(requests)
    ensures KeepMerged(defaults, RequestMap(req)) <= result
  {
    var requests := RequestMap(req);
    MergedDistinct(defaults, req, order, result);
    RequestsAreNamed(req);
    NewAddonsAre(order, requests);
    KeptNames(defaults, requests);
    var kept, added := KeepMerged(defaults, requests), NewAddons(order, requests);
    assert forall i :: 0 <= i < |added| ==> AddonName(added[i]) == Some(order[i]);
    NamesConcat(kept, added, order);
  }

  lemma NamesConcat(kept: seq<Value>, added: seq<Value>, order: seq<string>)
    requires DistinctNames(kept) && |added| == |order|
    requires forall i :: 0 <= i < |kept| ==> AddonName(kept[i]).Some?
    requires forall i :: 0 <= i < |added| ==> AddonName(added[i]) == Some(order[i]) && order[i] !in Names(kept)
    requires forall i, j :: 0 <= i < j < |order| ==> order[i] != order[j]
    ensures DistinctNames(kept + added)
    ensures forall i :: 0 <= i < |kept + added| ==> AddonName((kept + added)[i]).Some?
    ensures forall n :: n in Names(kept + added) <==> n in Names(kept) || n in order
  {
    var all := kept + added;
    forall i, j | 0 <= i < j < |all| && AddonName(all[i]).Some?
      ensures AddonName(all[i]) != AddonName(all[j])
    {
      if i < |kept| && j >= |kept| {
        assert AddonName(kept[i]).value in Names(kept);
        assert AddonName(all[j]) == AddonName(added[j - |kept|]);
      }
    }
    forall n
      ensures n in Names(all) <==> n in Names(kept) || n in order
    {
      if n in Names(kept) {
        var i :| 0 <= i < |kept| && AddonName(kept[i]) == Some(n);
        assert AddonName(all[i]) == Some(n);
      } else if n in order {
        var i :| 0 <= i < |order| && order[i] == n;
        assert AddonName(all[|kept| + i]) == Some(n);
      }
    }
  }

  // ---------- merging twice ----------

  lemma OverlayTwice(params: Fields, more: map<string, string>)
    ensures Overlay(Overlay(params, more), more) == Overlay(params, more)
  {
  }

  lemma MergeOneTwice(v: Value, requests: map<string, RequestedAddon>)
    requires MergeOne(v, requests).Some?
    ensures MergeOne(MergeOne(v, requests).value, requests) == MergeOne(v, requests)
  {
    var name := AddonName(v).value;
    if name in requests {
      OverlayTwice(ParamMap(v.fields), requests[name].params);
      var f := MergeOne(v, requests).value.fields;
      assert f["param" := f["param"]] == f;
    }
  }

  lemma NewAddonStays(n: string, requests: map<string, RequestedAddon>)
    requires n in requests && n != "" && requests[n].name == n && !IsAddonDisabled(requests[n])
    ensures MergeOne(NewAddon(requests[n]), requests) == Some(NewAddon(requests[n]))
  {
    var f := NewAddon(requests[n]).fields;
    assert Overlay(Texts(requests[n].params), requests[n].params) == Texts(requests[n].params);
    assert f["param" := f["param"]] == f;
  }

  lemma {:induction false} FixedStay(addons: seq<Value>, requests: map<string, RequestedAddon>)
    requires forall i :: 0 <= i < |addons| ==> MergeOne(addons[i], requests) == Some(addons[i])
    ensures KeepMerged(addons, requests) == addons
  {
    if addons != [] {
      FixedStay(addons[..|addons| - 1], requests);
    }
  }

  lemma KeptIsFixed(defaults: seq<Value>, requests: map<string, RequestedAddon>, i: nat)
    requires i < |KeepMerged(defaults, requests)|
    ensures var v := KeepMerged(defaults, requests)[i]; MergeOne(v, requests) == Some(v)
  {
    var at := KeptInOrder(defaults, requests);
    MergeOneTwice(defaults[at[i]], requests);
  }

  lemma NewIsFixed(order: seq<string>, requests: map<string, RequestedAddon>, i: nat)
    requires forall n :: n in order ==> n in EnabledNames(requests)
    requires forall n :: n in requests ==> n != "" && requests[n].name == n
    requires i < |NewAddons(order, requests)|
    ensures var v := NewAddons(order, requests)[i]; MergeOne(v, requests) == Some(v)
  {
    NewAddonsAre(order, requests);
    assert order[i] in order;
    NewAddonStays(order[i], requests);
  }

  lemma MergedIsFixed(defaults: seq<Value>, req: seq<RequestedAddon>, order: seq<string>, once: seq<Value>, i: nat)
    requires DistinctNames(defaults) && NamedRequests(req) && Merged(defaults, req, order, once) && i < |once|
    ensures MergeOne(once[i], RequestMap(req)) == Some(once[i])
  {
    var requests := RequestMap(req);
    MergedDistinct(defaults, req, order, once);
    var kept := KeepMerged(defaults, requests);
    if i < |kept| {
      assert once[i] == kept[i];
      KeptIsFixed(defaults, requests, i);
    } else {
      assert once[i] == NewAddons(order, requests)[i - |kept|];
      RequestsAreNamed(req);
      NewIsFixed(order, requests, i - |kept|);
    }
  }

  lemma OrderOfSome(order: seq<string>, names: set<string>)
    requires IsOrder(order, names)
    ensures order != [] ==> names != {}
  {
    if order != [] {
      assert order[0] in order;
    }
  }

  lemma NothingNew(defaults: seq<Value>, req: seq<RequestedAddon>, order: seq<string>, once: seq<Value>,
                   order': seq<string>)
    requires DistinctNames(defaults) && NamedRequests(req) && Merged(defaults, req, order, once)
    requires IsOrder(order', EnabledNames(RequestMap(req)) - Names(once))
    ensures order' == []
  {
    MergedNames(defaults, req, order, once);
    assert forall n :: n in EnabledNames(RequestMap(req)) ==> n in Names(once);
    OrderOfSome(order', EnabledNames(RequestMap(req)) - Names(once));
  }

  // Merging the same request again changes nothing, in whatever order the second merge goes.
  lemma MergeIsIdempotent(defaults: seq<Value>, req: seq<RequestedAddon>, order: seq<string>, once: seq<Value>,
                          order': seq<string>, twice: seq<Value>)
    requires DistinctNames(defaults) && NamedRequests(req)
    requires Merged(defaults, req, order, once) && Merged(once, req, order', twice)
    ensures twice == once
  {
    forall i | 0 <= i < |once|
      ensures MergeOne(once[i], RequestMap(req)) == Some(once[i])
    {
      MergedIsFixed(defaults, req, order, once, i);
    }
    FixedStay(once, RequestMap(req));
    assert DistinctNames(once) by {
      MergedNames(defaults, req, order, once);
    }
    MergedDistinct(once, req, order', twice);
    NothingNew(defaults, req, order, once, order');
  }

  // ---------- patching addons ----------

  // The patch's addons by name: the last one of a name wins.
  function PatchMap(addons: seq<AddonInfo>): map<string, AddonInfo> {
    if addons == [] then map[]
    else PatchMap(addons[..|addons| - 1])[addons[|addons| - 1].name := addons[|addons| - 1]]
  }

  // No later entry of the patch has the name of entry i.
  ghost predicate IsLastPatch(addons: seq<AddonInfo>, i: nat) {
    i < |addons| && forall j :: i < j < |addons| ==> addons[j].name != addons[i].name
  }

  // m has exactly the names of the patch's addons, each with the last addon of that name.
  ghost predicate LastOfEachName(addons: seq<AddonInfo>, m: map<string, AddonInfo>) {
    && (forall i :: 0 <= i < |addons| ==> addons[i].name in m)
    && (forall n :: n in m ==> m[n] in addons && m[n].name == n)
    && (forall i: nat :: IsLastPatch(addons, i) ==> addons[i].name in m && m[addons[i].name] == addons[i])
  }

  lemma {:induction false} LastPatchWins(addons: seq<AddonInfo>)
    ensures LastOfEachName(addons, PatchMap(addons))
  {
    if addons != [] {
      var before, a := addons[..|addons| - 1], addons[|addons| - 1];
      LastPatchWins(before);
      LastSnoc(before, a, PatchMap(before));
      assert addons == before + [a];
    }
  }

  lemma LastSnoc(before: seq<AddonInfo>, a: AddonInfo, m: map<string, AddonInfo>)
    requires LastOfEachName(before, m)
    ensures LastOfEachName(before + [a], m[a.name := a])
  {
    var addons := before + [a];
    forall i: nat | IsLastPatch(addons, i) && i < |before|
      ensures addons[i].name in m && m[addons[i].name] == addons[i] && addons[i].name != a.name
    {
      assert addons[i] == before[i] && addons[|before|] == a;
      assert forall j :: i < j < |before| ==> addons[j] == before[j];
      assert IsLastPatch(before, i);
    }
    assert forall i :: 0 <= i < |before| ==> addons[i] == before[i];
    assert a in addons && forall x :: x in before ==> x in addons;
  }

  method BuildPatchMap(addons: seq<AddonInfo>) returns (m: map<string, AddonInfo>)
    ensures LastOfEachName(addons, m)
    ensures m == PatchMap(addons)
  {
    m := map[];
    for i := 0 to |addons|
      invariant m == PatchMap(addons[..i])
    {
      assert addons[..i + 1][..i] == addons[..i];
      m := m[addons[i].name := addons[i]];
    }
    assert addons[..|addons|] == addons;
    LastPatchWins(addons);
  }

  function Patched(addon: Fields, patch: AddonInfo): Fields {
    var versioned := if patch.version != "" then addon["version" := Str(patch.version)] else addon;
    var blocked := versioned["block" := Bool(patch.block)];
    if patch.param == map[] then blocked
    else blocked["param" := Obj(Overlay(ParamMap(blocked), patch.param))]
  }

  // The addon has the patch's version unless that is empty, the patch's block, and the patch's parameters over
  // its own; no other field is touched, and an addon without parameters gets none from a patch without them.
  ghost predicate CarriesPatch(addon: Fields, patch: AddonInfo, r: Fields) {
    && (forall k :: k !in {"version", "block", "param"} ==> SameField(addon, r, k))
    && (if patch.version == "" then SameField(addon, r, "version")
        else "version" in r && r["version"] == Str(patch.version))
    && "block" in r && r["block"] == Bool(patch.block)
    && (patch.param == map[] ==> SameField(addon, r, "param"))
    && (forall k :: k in patch.param ==> k in ParamMap(r) && ParamMap(r)[k] == Str(patch.param[k]))
    && (forall k :: k !in patch.param ==> SameField(ParamMap(addon), ParamMap(r), k))
  }

  ghost predicate SameField(a: Fields, b: Fields, k: string) {
    (k in a <==> k in b) && (k in a ==> a[k] == b[k])
  }

  lemma PatchedParam(addon: Fields, patch: AddonInfo)
    ensures var r := Patched(addon, patch);
            ParamMap(r) == if patch.param == map[] then ParamMap(addon) else Overlay(ParamMap(addon), patch.param)
  {
    var versioned := if patch.version != "" then addon["version" := Str(patch.version)] else addon;
    assert ParamMap(versioned["block" := Bool(patch.block)]) == ParamMap(addon);
  }

  lemma PatchedCarries(addon: Fields, patch: AddonInfo)
    ensures CarriesPatch(addon, patch, Patched(addon, patch))
  {
    PatchedParam(addon, patch);
    OverlayByKey(ParamMap(addon), patch.param);
    PatchedRest(addon, patch);
  }

  lemma PatchedRest(addon: Fields, patch: AddonInfo)
    ensures var r := Patched(addon, patch);
            && (forall k :: k !in {"version", "block", "param"} ==> SameField(addon, r, k))
            && (if patch.version == "" then SameField(addon, r, "version")
                else "version" in r && r["version"] == Str(patch.version))
            && "block" in r && r["block"] == Bool(patch.block)
            && (patch.param == map[] ==> SameField(addon, r, "param"))
  {
  }

  lemma OverlayByKey(fields: Fields, texts: map<string, string>)
    ensures forall k :: k in texts ==> k in Overlay(fields, texts) && Overlay(fields, texts)[k] == Str(texts[k])
    ensures forall k :: k !in texts ==> SameField(fields, Overlay(fields, texts), k)
  {
  }

  method ApplyPatchToAddon(addon: Fields, patch: AddonInfo) returns (r: Fields)
    ensures CarriesPatch(addon, patch, r)
    ensures r == Patched(addon, patch)
  {
    PatchedCarries(addon, patch);
    r := addon;
    if patch.version != "" {
      r := r["version" := Str(patch.version)];
    }
    r := r["block" := Bool(patch.block)];
    if |patch.param| == 0 { return; }
    var currentParam := OverlayParams(ParamMap(r), patch.param);
    r := r["param" := Obj(currentParam)];
  }

  function PatchOne(v: Value, patches: map<string, AddonInfo>): Value {
    var name := AddonName(v);
    if name.Some? && name.value in patches then Obj(Patched(v.fields, patches[name.value])) else v
  }

  function PatchAll(addons: seq<Value>, patches: map<string, AddonInfo>): (r: seq<Value>)
    ensures |r| == |addons| && forall i :: 0 <= i < |r| ==> r[i] == PatchOne(addons[i], patches)
  {
    seq(|addons|, i requires 0 <= i < |addons| => PatchOne(addons[i], patches))
  }

  method UpdateCRDAddonsWithPatch(addonsRaw: array<Value>, patchAddons: seq<AddonInfo>)
    modifies addonsRaw
    ensures addonsRaw[..] == PatchAll(old(addonsRaw[..]), PatchMap(patchAddons))
  {
    var patchMap := BuildPatchMap(patchAddons);
    PatchItems(addonsRaw, patchMap);
  }

  // The loop over the items of the list.
  method PatchItems(addonsRaw: array<Value>, patchMap: map<string, AddonInfo>)
    modifies addonsRaw
    ensures addonsRaw[..] == PatchAll(old(addonsRaw[..]), patchMap)
  {
    for i := 0 to addonsRaw.Length
      invariant forall j :: 0 <= j < i ==> addonsRaw[j] == PatchOne(old(addonsRaw[j]), patchMap)
      invariant forall j :: i <= j < addonsRaw.Length ==> addonsRaw[j] == old(addonsRaw[j])
    {
      addonsRaw[i] := PatchItem(addonsRaw[i], patchMap);
    }
  }

  // One item of the list: anything but an addon that the patch names stays.
  method PatchItem(item: Value, patchMap: map<string, AddonInfo>) returns (r: Value)
    ensures r == PatchOne(item, patchMap)
  {
    var name := AddonName(item);
    if name.None? { return item; }
    if name.value !in patchMap { return item; }
    var addon := ApplyPatchToAddon(item.fields, patchMap[name.value]);
    return Obj(addon);
  }

  // The patch pass keeps the length, the order and the names of the list, and leaves alone whatever the patch
  // does not name.
  lemma PatchKeepsNames(addons: seq<Value>, patches: map<string, AddonInfo>)
    ensures |PatchAll(addons, patches)| == |addons|
    ensures forall i :: 0 <= i < |addons| ==> AddonName(PatchAll(addons, patches)[i]) == AddonName(addons[i])
    ensures forall i :: 0 <= i < |addons| && (AddonName(addons[i]).None? || AddonName(addons[i]).value !in patches)
              ==> PatchAll(addons, patches)[i] == addons[i]
  {
  }

  lemma PatchedTwice(addon: Fields, patch: AddonInfo)
    ensures Patched(Patched(addon, patch), patch) == Patched(addon, patch)
  {
    var once := Patched(addon, patch);
    assert patch.version != "" ==> once["version" := Str(patch.version)] == once;
    assert once["block" := Bool(patch.block)] == once;
    if patch.param != map[] {
      var versioned := if patch.version != "" then addon["version" := Str(patch.version)] else addon;
      var blocked := versioned["block" := Bool(patch.block)];
      OverlayTwice(ParamMap(blocked), patch.param);
      assert once["param" := once["param"]] == once;
    }
  }

  lemma PatchIsIdempotent(addons: seq<Value>, patches: map<string, AddonInfo>)
    ensures PatchAll(PatchAll(addons, patches), patches) == PatchAll(addons, patches)
  {
    forall i | 0 <= i < |addons|
      ensures PatchOne(PatchOne(addons[i], patches), patches) == PatchOne(addons[i], patches)
    {
      var name := AddonName(addons[i]);
      if name.Some? && name.value in patches {
        PatchedTwice(addons[i].fields, patches[name.value]);
      }
    }
  }

  // ---------- precedence across the two stages ----------

  // The parameters of the default addon of this name; none when there is no such default.
  ghost function DefaultParams(defaults: seq<Value>, name: string): Fields {
    if exists i :: 0 <= i < |defaults| && AddonName(defaults[i]) == Some(name)
    then
      var i :| 0 <= i < |defaults| && AddonName(defaults[i]) == Some(name);
      ParamMap(defaults[i].fields)
    else map[]
  }

  // Patch over request over default, key by key.
  function Preferred(patches: map<string, AddonInfo>, requests: map<string, RequestedAddon>, name: string,
                     defaults: Fields): Fields {
    var requested := if name in requests then Overlay(defaults, requests[name].params) else defaults;
    if name in patches then Overlay(requested, patches[name].param) else requested
  }

  lemma PreferredByKey(patches: map<string, AddonInfo>, requests: map<string, RequestedAddon>, name: string,
                       defaults: Fields, k: string)
    ensures var p := Preferred(patches, requests, name, defaults);
            if name in patches && k in patches[name].param then k in p && p[k] == Str(patches[name].param[k])
            else if name in requests && k in requests[name].params then k in p && p[k] == Str(requests[name].params[k])
            else (k in p <==> k in defaults) && (k in p ==> p[k] == defaults[k])
  {
  }

  function Field(v: Value, k: string): Option<Value> {
    if v.Obj? && k in v.fields then Some(v.fields[k]) else None
  }

  // A field of the default addon of this name; none when there is no such default.
  ghost function DefaultField(defaults: seq<Value>, name: string, k: string): Option<Value> {
    if i :| 0 <= i < |defaults| && AddonName(defaults[i]) == Some(name) then Field(defaults[i], k) else None
  }

  ghost predicate InPrecedence(defaults: seq<Value>, requests: map<string, RequestedAddon>,
                               patches: map<string, AddonInfo>, final: Value) {
    && AddonName(final).Some?
    && var name := AddonName(final).value;
       && ParamMap(final.fields) == Preferred(patches, requests, name, DefaultParams(defaults, name))
       && Field(final, "version")
       == (if name in patches && patches[name].version != "" then Some(Str(patches[name].version))
           else DefaultField(defaults, name, "version"))
       && Field(final, "block")
       == (if name in patches then Some(Bool(patches[name].block)) else DefaultField(defaults, name, "block"))
  }

  // Every addon that survives the merge takes each parameter from the patch if it defines it, else from the
  // request, else from the default. Its version is the patch's when that is not empty, its block always is, and
  // without a patch both are the default's.
  lemma Precedence(defaults: seq<Value>, req: seq<RequestedAddon>, order: seq<string>, merged: seq<Value>,
                   patchAddons: seq<AddonInfo>, i: nat)
    requires DistinctNames(defaults) && NamedRequests(req) && Merged(defaults, req, order, merged)
    requires i < |merged|
    ensures AddonName(PatchAll(merged, PatchMap(patchAddons))[i]) == AddonName(merged[i])
    ensures InPrecedence(defaults, RequestMap(req), PatchMap(patchAddons), PatchAll(merged, PatchMap(patchAddons))[i])
  {
    var patches := PatchMap(patchAddons);
    MergedNames(defaults, req, order, merged);
    MergedParams(defaults, req, order, merged, i);
    MergedField(defaults, req, order, merged, i, "version");
    MergedField(defaults, req, order, merged, i, "block");
    PatchedParams(merged[i], patches);
    PatchedFields(merged[i], patches);
  }

  lemma AllInPrecedence(defaults: seq<Value>, req: seq<RequestedAddon>, order: seq<string>, merged: seq<Value>,
                        patchAddons: seq<AddonInfo>)
    requires DistinctNames(defaults) && NamedRequests(req) && Merged(defaults, req, order, merged)
    ensures var final := PatchAll(merged, PatchMap(patchAddons));
            forall i :: 0 <= i < |final| ==>
              && AddonName(final[i]) == AddonName(merged[i])
              && InPrecedence(defaults, RequestMap(req), PatchMap(patchAddons), final[i])
  {
    forall i | 0 <= i < |merged|
      ensures AddonName(PatchAll(merged, PatchMap(patchAddons))[i]) == AddonName(merged[i])
      ensures InPrecedence(defaults, RequestMap(req), PatchMap(patchAddons), PatchAll(merged, PatchMap(patchAddons))[i])
    {
      Precedence(defaults, req, order, merged, patchAddons, i);
    }
  }

  lemma PatchedFields(v: Value, patches: map<string, AddonInfo>)
    requires AddonName(v).Some?
    ensures var name, final := AddonName(v).value, PatchOne(v, patches);
            && AddonName(final) == Some(name)
            && Field(final, "version")
            == (if name in patches && patches[name].version != "" then Some(Str(patches[name].version))
                else Field(v, "version"))
            && Field(final, "block") == (if name in patches then Some(Bool(patches[name].block)) else Field(v, "block"))
  {
  }

  // Merging writes no field but the parameters.
  lemma MergedField(defaults: seq<Value>, req: seq<RequestedAddon>, order: seq<string>, merged: seq<Value>,
                    i: nat, k: string)
    requires DistinctNames(defaults) && NamedRequests(req) && Merged(defaults, req, order, merged)
    requires i < |merged| && AddonName(merged[i]).Some? && k !in {"name", "param"}
    ensures Field(merged[i], k) == DefaultField(defaults, AddonName(merged[i]).value, k)
  {
    var requests := RequestMap(req);
    MergedDistinct(defaults, req, order, merged);
    var kept := KeepMerged(defaults, requests);
    if i < |kept| {
      var at := KeptInOrder(defaults, requests);
      MergeOneName(defaults[at[i]], requests);
      var name := AddonName(defaults[at[i]]).value;
      assert forall j :: 0 <= j < |defaults| && AddonName(defaults[j]) == Some(name) ==> j == at[i];
    } else {
      RequestsAreNamed(req);
      NewAddonsAre(order, requests);
      var n := order[i - |kept|];
      assert n in order;
      assert forall j :: 0 <= j < |defaults| ==> AddonName(defaults[j]) != Some(n);
    }
  }

  lemma PatchedParams(v: Value, patches: map<string, AddonInfo>)
    requires AddonName(v).Some?
    ensures var name := AddonName(v).value;
            ParamMap(PatchOne(v, patches).fields)
            == if name in patches then Overlay(ParamMap(v.fields), patches[name].param) else ParamMap(v.fields)
  {
    var name := AddonName(v).value;
    if name in patches && patches[name].param == map[] {
      assert Overlay(ParamMap(v.fields), map[]) == ParamMap(v.fields);
    }
  }

  lemma KeptParams(defaults: seq<Value>, requests: map<string, RequestedAddon>, i: nat)
    requires DistinctNames(defaults) && i < |defaults| && MergeOne(defaults[i], requests).Some?
    ensures AddonName(defaults[i]).Some?
    ensures var name, merged := AddonName(defaults[i]).value, MergeOne(defaults[i], requests).value;
            ParamMap(merged.fields)
            == if name in requests then Overlay(DefaultParams(defaults, name), requests[name].params)
               else DefaultParams(defaults, name)
  {
    DefaultParamsAre(defaults, i);
  }

  lemma NewParams(defaults: seq<Value>, r: RequestedAddon)
    requires r.name !in Names(defaults)
    ensures ParamMap(NewAddon(r).fields) == Overlay(DefaultParams(defaults, r.name), r.params)
  {
    assert forall j :: 0 <= j < |defaults| ==> AddonName(defaults[j]) != Some(r.name);
    assert Overlay(map[], r.params) == Texts(r.params);
  }

  lemma MergedParams(defaults: seq<Value>, req: seq<RequestedAddon>, order: seq<string>, merged: seq<Value>, i: nat)
    requires DistinctNames(defaults) && NamedRequests(req) && Merged(defaults, req, order, merged)
    requires i < |merged| && AddonName(merged[i]).Some?
    ensures var name, requests := AddonName(merged[i]).value, RequestMap(req);
            ParamMap(merged[i].fields)
            == if name in requests then Overlay(DefaultParams(defaults, name), requests[name].params)
               else DefaultParams(defaults, name)
  {
    var requests := RequestMap(req);
    MergedDistinct(defaults, req, order, merged);
    var kept := KeepMerged(defaults, requests);
    if i < |kept| {
      var at := KeptInOrder(defaults, requests);
      MergeOneName(defaults[at[i]], requests);
      KeptParams(defaults, requests, at[i]);
    } else {
      RequestsAreNamed(req);
      NewAddonsAre(order, requests);
      var n := order[i - |kept|];
      assert n in order;
      NewParams(defaults, requests[n]);
    }
  }

  lemma DefaultParamsAre(defaults: seq<Value>, i: nat)
    requires DistinctNames(defaults) && i < |defaults| && AddonName(defaults[i]).Some?
    ensures DefaultParams(defaults, AddonName(defaults[i]).value) == ParamMap(defaults[i].fields)
  {
    var name := AddonName(defaults[i]).value;
    assert forall j :: 0 <= j < |defaults| && AddonName(defaults[j]) == Some(name) ==> j == i;
  }
}
