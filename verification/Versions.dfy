/** Version order, the installable and upgrade filters, and what they imply for chains of upgrades.

    A parsed version is what hashicorp/go-version returns: at least three numeric segments (it pads shorter
    ones with zeros) and an optional prerelease. The order is item 11 of Semantic Versioning 2.0.0, with
    missing segments read as zero. */
module Versions {
  import opened Wrappers

  // ---------- parsed versions and their order ----------

  datatype Identifier = Numeric(n: nat) | Alphanumeric(s: string)

  // An empty prerelease is a release.
  datatype RawVersion = RawVersion(segments: seq<nat>, prerelease: seq<Identifier>)

  type Version = v: RawVersion | |v.segments| >= 3 witness RawVersion([0, 0, 0], [])

  function Sign(a: int, b: int): int {
    if a < b then -1 else if a > b then 1 else 0
  }

  function CompareText(a: string, b: string): int {
    if a == "" || b == "" then Sign(|a|, |b|)
    else if a[0] != b[0] then Sign(a[0] as int, b[0] as int)
    else CompareText(a[1..], b[1..])
  }

  function CompareIdentifier(a: Identifier, b: Identifier): int {
    match (a, b)
    case (Numeric(m), Numeric(n)) => Sign(m, n)
    case (Numeric(_), Alphanumeric(_)) => -1
    case (Alphanumeric(_), Numeric(_)) => 1
    case (Alphanumeric(s), Alphanumeric(t)) => CompareText(s, t)
  }

  function CompareIdentifiers(a: seq<Identifier>, b: seq<Identifier>): int {
    if a == [] || b == [] then Sign(|a|, |b|)
    else
      var c := CompareIdentifier(a[0], b[0]);
      if c != 0 then c else CompareIdentifiers(a[1..], b[1..])
  }

  function ComparePrerelease(a: seq<Identifier>, b: seq<Identifier>): int {
    if a == [] || b == [] then Sign(if a == [] then 1 else 0, if b == [] then 1 else 0)
    else CompareIdentifiers(a, b)
  }

  function Segment(s: seq<nat>, i: nat): nat {
    if i < |s| then s[i] else 0
  }

  function CompareSegments(a: seq<nat>, b: seq<nat>): int
    decreases |a| + |b|
  {
    if a == [] && b == [] then 0
    else
      var c := Sign(Segment(a, 0), Segment(b, 0));
      if c != 0 then c
      else CompareSegments(if a == [] then a else a[1..], if b == [] then b else b[1..])
  }

  function Compare(a: Version, b: Version): int {
    var c := CompareSegments(a.segments, b.segments);
    if c != 0 then c else ComparePrerelease(a.prerelease, b.prerelease)
  }

  predicate Less(a: Version, b: Version) {
    Compare(a, b) < 0
  }

  // Version.GreaterThan
  predicate GreaterThan(a: Version, b: Version) {
    Compare(a, b) > 0
  }

  // ---------- Compare is a total preorder ----------

  lemma {:induction false} TextOrder(a: string, b: string, c: string)
    ensures CompareText(a, b) == -CompareText(b, a)
    ensures CompareText(a, a) == 0
    ensures CompareText(a, b) <= 0 && CompareText(b, c) <= 0 ==> CompareText(a, c) <= 0
    ensures CompareText(a, b) <= 0 && CompareText(b, c) <= 0 && CompareText(a, c) == 0
            ==> CompareText(a, b) == 0 && CompareText(b, c) == 0
    decreases |a| + |b| + |c|
  {
    if a != "" && b != "" && c != "" {
      TextOrder(a[1..], b[1..], c[1..]);
    } else if a != "" && b != "" {
      TextOrder(a[1..], b[1..], "");
    } else if a != "" {
      TextOrder(a[1..], "", "");
    }
  }

  lemma IdentifierOrder(a: Identifier, b: Identifier, c: Identifier)
    ensures CompareIdentifier(a, b) == -CompareIdentifier(b, a)
    ensures CompareIdentifier(a, a) == 0
    ensures CompareIdentifier(a, b) <= 0 && CompareIdentifier(b, c) <= 0 ==> CompareIdentifier(a, c) <= 0
    ensures CompareIdentifier(a, b) <= 0 && CompareIdentifier(b, c) <= 0 && CompareIdentifier(a, c) == 0
            ==> CompareIdentifier(a, b) == 0 && CompareIdentifier(b, c) == 0
  {
    var s := if a.Alphanumeric? then a.s else "";
    var t := if b.Alphanumeric? then b.s else "";
    var u := if c.Alphanumeric? then c.s else "";
    TextOrder(s, t, u);
  }

  lemma {:induction false} IdentifiersOrder(a: seq<Identifier>, b: seq<Identifier>, c: seq<Identifier>)
    ensures CompareIdentifiers(a, b) == -CompareIdentifiers(b, a)
    ensures CompareIdentifiers(a, a) == 0
    ensures CompareIdentifiers(a, b) <= 0 && CompareIdentifiers(b, c) <= 0 ==> CompareIdentifiers(a, c) <= 0
    ensures CompareIdentifiers(a, b) <= 0 && CompareIdentifiers(b, c) <= 0 && CompareIdentifiers(a, c) == 0
            ==> CompareIdentifiers(a, b) == 0 && CompareIdentifiers(b, c) == 0
    decreases |a| + |b| + |c|
  {
    if a != [] && b != [] && c != [] {
      IdentifierOrder(a[0], b[0], c[0]);
      IdentifiersOrder(a[1..], b[1..], c[1..]);
    } else if a != [] && b != [] {
      IdentifierOrder(a[0], b[0], b[0]);
      IdentifiersOrder(a[1..], b[1..], []);
    } else if a != [] {
      IdentifierOrder(a[0], a[0], a[0]);
      IdentifiersOrder(a[1..], [], []);
    }
  }

  function Rest(s: seq<nat>): seq<nat> {
    if s == [] then s else s[1..]
  }

  lemma {:induction false} SegmentsOrder(a: seq<nat>, b: seq<nat>, c: seq<nat>)
    ensures CompareSegments(a, b) == -CompareSegments(b, a)
    ensures CompareSegments(a, a) == 0
    ensures CompareSegments(a, b) <= 0 && CompareSegments(b, c) <= 0 ==> CompareSegments(a, c) <= 0
    ensures CompareSegments(a, b) <= 0 && CompareSegments(b, c) <= 0 && CompareSegments(a, c) == 0
            ==> CompareSegments(a, b) == 0 && CompareSegments(b, c) == 0
    decreases |a| + |b| + |c|
  {
    if a != [] || b != [] || c != [] {
      SegmentsOrder(Rest(a), Rest(b), Rest(c));
      CompareRest(a, b);
      CompareRest(b, a);
      CompareRest(b, c);
      CompareRest(a, c);
      CompareRest(a, a);
    }
  }

  // One step of the comparison, also where both sides have run out.
  lemma CompareRest(a: seq<nat>, b: seq<nat>)
    ensures CompareSegments(a, b)
         == if Sign(Segment(a, 0), Segment(b, 0)) != 0 then Sign(Segment(a, 0), Segment(b, 0))
            else CompareSegments(Rest(a), Rest(b))
  {
  }

  // Padding is invisible: versions compare equal on segments exactly when every segment, read with
  // zeros beyond the end, is the same.
  lemma {:induction false} SegmentsEqualWhenPadded(a: seq<nat>, b: seq<nat>)
    ensures CompareSegments(a, b) == 0 <==> forall i: nat :: Segment(a, i) == Segment(b, i)
    decreases |a| + |b|
  {
    if a != [] || b != [] {
      SegmentsEqualWhenPadded(Rest(a), Rest(b));
      CompareRest(a, b);
      assert forall i: nat :: Segment(Rest(a), i) == Segment(a, i + 1);
      assert forall i: nat :: Segment(Rest(b), i) == Segment(b, i + 1);
      if CompareSegments(a, b) == 0 {
        forall i: nat
          ensures Segment(a, i) == Segment(b, i)
        {
          if i > 0 { assert Segment(Rest(a), i - 1) == Segment(Rest(b), i - 1); }
        }
      }
    }
  }

  lemma Order(a: Version, b: Version, c: Version)
    ensures Compare(a, b) == -Compare(b, a)
    ensures Compare(a, a) == 0
    ensures Less(a, b) && Less(b, c) ==> Less(a, c)
  {
    SegmentsOrder(a.segments, b.segments, c.segments);
    IdentifiersOrder(a.prerelease, b.prerelease, c.prerelease);
  }

  lemma LessTransitive(a: Version, b: Version, c: Version)
    requires Less(a, b) && Less(b, c)
    ensures Less(a, c)
  {
    Order(a, b, c);
  }

  lemma Converse(a: Version, b: Version)
    ensures GreaterThan(b, a) <==> Less(a, b)
    ensures !Less(a, a)
  {
    Order(a, b, b);
  }

  // ---------- what precedence means ----------

  // a comes before b at the first place where they differ, read with zeros beyond the end.
  ghost predicate LowerSegments(a: seq<nat>, b: seq<nat>) {
    exists i: nat :: FirstLower(a, b, i)
  }

  ghost predicate FirstLower(a: seq<nat>, b: seq<nat>, i: nat) {
    Segment(a, i) < Segment(b, i) && forall j: nat :: j < i ==> Segment(a, j) == Segment(b, j)
  }

  lemma {:induction false} SegmentsLower(a: seq<nat>, b: seq<nat>)
    ensures CompareSegments(a, b) < 0 <==> LowerSegments(a, b)
    decreases |a| + |b|
  {
    if a == [] && b == [] {
      assert forall i: nat :: Segment(a, i) == Segment(b, i);
    } else {
      CompareRest(a, b);
      SegmentsLower(Rest(a), Rest(b));
      assert forall i: nat :: Segment(Rest(a), i) == Segment(a, i + 1);
      assert forall i: nat :: Segment(Rest(b), i) == Segment(b, i + 1);
      if Segment(a, 0) == Segment(b, 0) {
        LowerFromRest(a, b);
      } else if Segment(a, 0) < Segment(b, 0) {
        assert FirstLower(a, b, 0);
      }
    }
  }

  lemma LowerFromRest(a: seq<nat>, b: seq<nat>)
    requires Segment(a, 0) == Segment(b, 0)
    ensures LowerSegments(a, b) <==> LowerSegments(Rest(a), Rest(b))
  {
    forall i: nat
      ensures FirstLower(Rest(a), Rest(b), i) <==> FirstLower(a, b, i + 1)
    {
      assert forall j: nat :: Segment(Rest(a), j) == Segment(a, j + 1);
      assert forall j: nat :: Segment(Rest(b), j) == Segment(b, j + 1);
      if FirstLower(Rest(a), Rest(b), i) {
        forall j: nat | j < i + 1
          ensures Segment(a, j) == Segment(b, j)
        {
          if j > 0 { assert Segment(Rest(a), j - 1) == Segment(Rest(b), j - 1); }
        }
      }
    }
    if LowerSegments(a, b) {
      var i: nat :| FirstLower(a, b, i);
      assert i > 0 && FirstLower(Rest(a), Rest(b), i - 1);
    }
  }

  // s comes before t in the dictionary.
  ghost predicate TextBefore(s: string, t: string) {
    exists i: nat :: i <= |s| && i <= |t| && s[..i] == t[..i] && TextEndsOrLower(s, t, i)
  }

  predicate TextEndsOrLower(s: string, t: string, i: nat)
    requires i <= |s| && i <= |t|
  {
    i < |t| && (i == |s| || s[i] < t[i])
  }

  lemma {:induction false} TextLower(s: string, t: string)
    ensures CompareText(s, t) < 0 <==> TextBefore(s, t)
    ensures CompareText(s, t) == 0 <==> s == t
  {
    if s == "" || t == "" {
      assert s[..0] == t[..0];
      if CompareText(s, t) < 0 { assert TextEndsOrLower(s, t, 0); }
    } else {
      TextLower(s[1..], t[1..]);
      assert s == [s[0]] + s[1..] && t == [t[0]] + t[1..];
      if s[0] != t[0] {
        assert s[..0] == t[..0];
        if s[0] < t[0] { assert TextEndsOrLower(s, t, 0); }
        assert forall i: nat :: 0 < i <= |s| && i <= |t| ==> s[..i][0] != t[..i][0];
      } else {
        TextFromRest(s, t);
      }
    }
  }

  lemma TextFromRest(s: string, t: string)
    requires s != "" && t != "" && s[0] == t[0]
    ensures TextBefore(s, t) <==> TextBefore(s[1..], t[1..])
  {
    if TextBefore(s, t) {
      var i: nat :| i <= |s| && i <= |t| && s[..i] == t[..i] && TextEndsOrLower(s, t, i);
      assert i > 0 && s[1..][..i - 1] == s[..i][1..] && t[1..][..i - 1] == t[..i][1..];
      assert TextEndsOrLower(s[1..], t[1..], i - 1);
    }
    if TextBefore(s[1..], t[1..]) {
      var i: nat :| i < |s| && i < |t| && s[1..][..i] == t[1..][..i] && TextEndsOrLower(s[1..], t[1..], i);
      assert s[..i + 1] == [s[0]] + s[1..][..i] && t[..i + 1] == [t[0]] + t[1..][..i];
      assert TextEndsOrLower(s, t, i + 1);
    }
  }

  // Numeric identifiers by value, text in dictionary order, and a number before any text.
  ghost predicate LowerIdentifier(a: Identifier, b: Identifier) {
    if a.Numeric? then b.Numeric? ==> a.n < b.n else b.Alphanumeric? && TextBefore(a.s, b.s)
  }

  lemma IdentifierLower(a: Identifier, b: Identifier)
    ensures CompareIdentifier(a, b) < 0 <==> LowerIdentifier(a, b)
    ensures CompareIdentifier(a, b) == 0 <==> a == b
  {
    if a.Alphanumeric? && b.Alphanumeric? {
      TextLower(a.s, b.s);
    }
  }

  // At the first identifier that differs, or the shorter list when there is none.
  ghost predicate LowerIdentifiers(a: seq<Identifier>, b: seq<Identifier>) {
    exists i: nat :: i <= |a| && i <= |b| && a[..i] == b[..i] && EndsOrLower(a, b, i)
  }

  ghost predicate EndsOrLower(a: seq<Identifier>, b: seq<Identifier>, i: nat)
    requires i <= |a| && i <= |b|
  {
    i < |b| && (i == |a| || LowerIdentifier(a[i], b[i]))
  }

  lemma {:induction false} IdentifiersLower(a: seq<Identifier>, b: seq<Identifier>)
    ensures CompareIdentifiers(a, b) < 0 <==> LowerIdentifiers(a, b)
  {
    if a == [] || b == [] {
      assert a[..0] == b[..0];
      if CompareIdentifiers(a, b) < 0 { assert EndsOrLower(a, b, 0); }
    } else {
      IdentifierLower(a[0], b[0]);
      IdentifiersLower(a[1..], b[1..]);
      if a[0] != b[0] {
        assert a[..0] == b[..0];
        if LowerIdentifier(a[0], b[0]) { assert EndsOrLower(a, b, 0); }
        assert forall i: nat :: 0 < i <= |a| && i <= |b| ==> a[..i][0] != b[..i][0];
      } else {
        IdentifiersFromRest(a, b);
      }
    }
  }

  lemma IdentifiersFromRest(a: seq<Identifier>, b: seq<Identifier>)
    requires a != [] && b != [] && a[0] == b[0]
    ensures LowerIdentifiers(a, b) <==> LowerIdentifiers(a[1..], b[1..])
  {
    if LowerIdentifiers(a, b) {
      LowerInRest(a, b);
    }
    if LowerIdentifiers(a[1..], b[1..]) {
      var i: nat :| i < |a| && i < |b| && a[1..][..i] == b[1..][..i] && EndsOrLower(a[1..], b[1..], i);
      assert a[..i + 1] == [a[0]] + a[1..][..i] && b[..i + 1] == [b[0]] + b[1..][..i];
      assert EndsOrLower(a, b, i + 1);
    }
  }

  lemma LowerInRest(a: seq<Identifier>, b: seq<Identifier>)
    requires a != [] && b != [] && a[0] == b[0] && LowerIdentifiers(a, b)
    ensures LowerIdentifiers(a[1..], b[1..])
  {
    var i: nat :| i <= |a| && i <= |b| && a[..i] == b[..i] && EndsOrLower(a, b, i);
    IdentifierLower(a[0], b[0]);
    assert CompareIdentifier(a[0], a[0]) == 0;
    assert i > 0;
    assert a[1..][..i - 1] == a[..i][1..] && b[1..][..i - 1] == b[..i][1..];
    assert EndsOrLower(a[1..], b[1..], i - 1);
  }

  ghost predicate SameSegments(a: seq<nat>, b: seq<nat>) {
    forall i: nat :: Segment(a, i) == Segment(b, i)
  }

  // Lower segments; or the same segments, and a prerelease before its release or before a later prerelease.
  ghost predicate Precedes(a: Version, b: Version) {
    || LowerSegments(a.segments, b.segments)
    || (SameSegments(a.segments, b.segments) && a.prerelease != []
        && (b.prerelease == [] || LowerIdentifiers(a.prerelease, b.prerelease)))
  }

  // The comparison is exactly the precedence of item 11, place by place.
  lemma LessExactly(a: Version, b: Version)
    ensures Less(a, b) <==> Precedes(a, b)
  {
    SegmentsLower(a.segments, b.segments);
    SegmentsEqualWhenPadded(a.segments, b.segments);
    if a.prerelease != [] && b.prerelease != [] {
      IdentifiersLower(a.prerelease, b.prerelease);
    }
  }

  // ---------- the filters ----------

  const LATEST: string := "latest"

  // hashicorp/go-version's NewVersion
  type Parser = string -> Option<Version>

  predicate SameLine(a: Version, b: Version) {
    a.segments[0] == b.segments[0] && a.segments[1] == b.segments[1]
  }

  predicate Installable(parse: Parser, s: string) {
    s == LATEST || (parse(s).Some? && var v := parse(s).value; |v.segments| == 3 && v.segments[2] == 0)
  }

  predicate Offered(parse: Parser, current: Version, s: string) {
    && parse(s).Some?
    && var v := parse(s).value;
       Less(current, v) && (SameLine(current, v) || v.segments[2] == 0)
  }

  // The subsequence of the elements that satisfy keep.
  function Select(list: seq<string>, keep: string -> bool): seq<string> {
    if list == [] then []
    else Select(list[..|list| - 1], keep) + (if keep(list[|list| - 1]) then [list[|list| - 1]] else [])
  }

  lemma {:induction false} SelectMembers(list: seq<string>, keep: string -> bool)
    ensures forall s :: s in Select(list, keep) <==> s in list && keep(s)
    ensures |Select(list, keep)| <= |list|
  {
    if list != [] {
      SelectMembers(list[..|list| - 1], keep);
      assert list == list[..|list| - 1] + [list[|list| - 1]];
    }
  }

  // result is the elements of list at the positions at, in order; these are the positions kept.
  ghost predicate Picks(list: seq<string>, keep: string -> bool, at: seq<nat>, result: seq<string>) {
    && |at| == |result|
    && (forall k :: 0 <= k < |at| ==> at[k] < |list| && list[at[k]] == result[k])
    && (forall j, k :: 0 <= j < k < |at| ==> at[j] < at[k])
    && (forall i: nat :: i < |list| && keep(list[i]) <==> i in at)
  }

  lemma PicksLast(list: seq<string>, keep: string -> bool, at: seq<nat>, result: seq<string>)
    requires list != [] && Picks(list[..|list| - 1], keep, at, result)
    ensures keep(list[|list| - 1]) ==> Picks(list, keep, at + [|list| - 1], result + [list[|list| - 1]])
    ensures !keep(list[|list| - 1]) ==> Picks(list, keep, at, result)
  {
    var n := |list| - 1;
    assert forall i :: 0 <= i < n ==> list[..n][i] == list[i];
    assert forall i: nat :: i in at + [n] <==> i in at || i == n;
  }

  // Selecting keeps order and multiplicity: the result is a subsequence, at exactly the kept positions.
  lemma {:induction false} SelectIsSubsequence(list: seq<string>, keep: string -> bool) returns (at: seq<nat>)
    ensures Picks(list, keep, at, Select(list, keep))
  {
    at := [];
    if list != [] {
      var n := |list| - 1;
      at := SelectIsSubsequence(list[..n], keep);
      PicksLast(list, keep, at, Select(list[..n], keep));
      if keep(list[n]) { at := at + [n]; }
    }
  }

  // The filtering loop of GetOpenFuyaoVersions.
  method FilterInstallable(parse: Parser, versionList: seq<string>) returns (result: seq<string>)
    ensures result == Select(versionList, s => Installable(parse, s))
  {
    result := [];
    for i := 0 to |versionList|
      invariant result == Select(versionList[..i], s => Installable(parse, s))
    {
      var vStr := versionList[i];
      assert versionList[..i + 1][..i] == versionList[..i];
      if vStr == LATEST {
        result := result + [vStr];
        continue;
      }
      var v := parse(vStr);
      if v.None? { continue; }
      var segments := v.value.segments;
      var isPatch := false;
      if |segments| >= 3 && segments[2] > 0 {
        isPatch := true;
      } else if |segments| > 3 {
        isPatch := true;
      }
      if !isPatch {
        result := result + [vStr];
      }
    }
    assert versionList[..|versionList|] == versionList;
  }

  // The candidates for one upgrade; None stands for "invalid current version".
  ghost function Upgrades(parse: Parser, list: seq<string>, current: string): Option<seq<string>> {
    if current == LATEST then Some([])
    else if parse(current).None? then None
    else Some(Select(list, s => Offered(parse, parse(current).value, s)))
  }

  // The three branches on major and minor are exhaustive: a greater version is never in an earlier line.
  lemma GreaterIsNotInEarlierLine(current: Version, v: Version)
    requires Less(current, v)
    ensures SameLine(current, v)
         || (current.segments[0] == v.segments[0] && current.segments[1] < v.segments[1])
         || current.segments[0] < v.segments[0]
  {
    var a, b := current.segments, v.segments;
    CompareRest(a, b);
    CompareRest(Rest(a), Rest(b));
  }

  // Read from the segments: a listed version that parses as v is an upgrade of c exactly when c precedes v and v
  // has the same first two segments or a third segment of zero. Nothing else is one.
  ghost predicate IsUpgrade(c: Version, v: Version) {
    && Precedes(c, v)
    && ((v.segments[0] == c.segments[0] && v.segments[1] == c.segments[1]) || v.segments[2] == 0)
  }

  lemma UpgradesExactly(parse: Parser, list: seq<string>, current: string)
    requires current != "latest" && parse(current).Some?
    ensures Upgrades(parse, list, current).Some?
    ensures forall s :: s in Upgrades(parse, list, current).value <==>
              s in list && parse(s).Some? && IsUpgrade(parse(current).value, parse(s).value)
  {
    SelectMembers(list, s => Offered(parse, parse(current).value, s));
    forall s | parse(s).Some?
      ensures Offered(parse, parse(current).value, s) <==> IsUpgrade(parse(current).value, parse(s).value)
    {
      LessExactly(parse(current).value, parse(s).value);
    }
  }

  // From a.b.x a listed a.b.y is offered exactly when y is greater; a listed c.d.z of another line with z above
  // zero never is, and neither is what does not exceed the current version.
  lemma PatchReleasesAreOffered(parse: Parser, list: seq<string>, current: string, s: string,
                                a: nat, b: nat, x: nat, c: nat, d: nat, y: nat)
    requires current != "latest" && s in list
    requires parse(current) == Some(RawVersion([a, b, x], [])) && parse(s) == Some(RawVersion([c, d, y], []))
    ensures a == c && b == d ==> (s in Upgrades(parse, list, current).value <==> x < y)
    ensures (a != c || b != d) && y > 0 ==> s !in Upgrades(parse, list, current).value
    ensures (a != c || b != d) && y == 0 ==>
              (s in Upgrades(parse, list, current).value <==> a < c || (a == c && b < d))
  {
    UpgradesExactly(parse, list, current);
    ThreeSegments(a, b, x, c, d, y);
  }

  lemma ThreeSegments(a: nat, b: nat, x: nat, c: nat, d: nat, y: nat)
    ensures Precedes(RawVersion([a, b, x], []), RawVersion([c, d, y], []))
            <==> a < c || (a == c && (b < d || (b == d && x < y)))
  {
    var p, q := [a, b, x], [c, d, y];
    LessExactly(RawVersion(p, []), RawVersion(q, []));
    CompareRest(p, q);
    CompareRest(Rest(p), Rest(q));
    CompareRest(Rest(Rest(p)), Rest(Rest(q)));
    assert Rest(Rest(Rest(p))) == [] && Rest(Rest(Rest(q))) == [];
  }

  // A listed version can be installed afresh exactly when it is "latest" or parses to three segments, the third zero.
  lemma InstallableExactly(parse: Parser, list: seq<string>, s: string)
    ensures s in Select(list, t => Installable(parse, t)) <==>
              && s in list
              && (s == "latest" || (parse(s).Some? && |parse(s).value.segments| == 3
                                    && parse(s).value.segments[2] == 0))
  {
    SelectMembers(list, t => Installable(parse, t));
  }

  // The filtering loop of GetOpenFuyaoUpgradeVersions.
  method FilterUpgrades(parse: Parser, versionList: seq<string>, currentVersion: string)
    returns (r: Option<seq<string>>)
    ensures r == Upgrades(parse, versionList, currentVersion)
    ensures r.Some? && currentVersion != "latest" ==>
              && parse(currentVersion).Some?
              && forall s :: s in r.value <==>
                   s in versionList && parse(s).Some? && IsUpgrade(parse(currentVersion).value, parse(s).value)
  {
    if currentVersion != LATEST && parse(currentVersion).Some? {
      UpgradesExactly(parse, versionList, currentVersion);
    }
    if currentVersion == LATEST { return Some([]); }
    var parsed := parse(currentVersion);
    if parsed.None? { return None; }
    var current := parsed.value;
    var result := [];
    for i := 0 to |versionList|
      invariant result == Select(versionList[..i], s => Offered(parse, current, s))
    {
      var vStr := versionList[i];
      assert versionList[..i + 1][..i] == versionList[..i];
      var pv := parse(vStr);
      if pv.None? { continue; }
      var v := pv.value;
      Converse(current, v);
      if !GreaterThan(v, current) { continue; }
      var curSegments, vSegments := current.segments, v.segments;
      GreaterIsNotInEarlierLine(current, v);
      if curSegments[0] == vSegments[0] && curSegments[1] == vSegments[1] {
        result := result + [vStr];
      } else if curSegments[0] == vSegments[0] && curSegments[1] < vSegments[1] {
        if |vSegments| < 3 || vSegments[2] == 0 {
          result := result + [vStr];
        }
      } else if curSegments[0] < vSegments[0] {
        if |vSegments| < 3 || vSegments[2] == 0 {
          result := result + [vStr];
        }
      }
    }
    assert versionList[..|versionList|] == versionList;
    r := Some(result);
  }

  // Over one list, every installable version that parses and exceeds the current one is offered; and an offer
  // from another line is installable exactly when it has three segments.
  lemma InstallableAndOffered(parse: Parser, list: seq<string>, current: string, s: string)
    requires current != LATEST && parse(current).Some? && parse(s).Some? && s != LATEST && s in list
    ensures var offers := Upgrades(parse, list, current).value;
            var install := Select(list, t => Installable(parse, t));
            var c, v := parse(current).value, parse(s).value;
            && (s in install && Less(c, v) ==> s in offers)
            && (s in offers && !SameLine(c, v) ==> (s in install <==> |v.segments| == 3))
  {
    SelectMembers(list, t => Installable(parse, t));
    SelectMembers(list, t => Offered(parse, parse(current).value, t));
  }

  // So a four-segment version x.y.0.z is offered from another line although it cannot be installed afresh.
  lemma FourSegmentsAreOffered(parse: Parser, current: string, s: string)
    requires parse(current) == Some(RawVersion([25, 9, 0], []))
    requires parse(s) == Some(RawVersion([25, 10, 0, 1], [])) && s != LATEST
    ensures Offered(parse, parse(current).value, s) && !Installable(parse, s)
  {
    var a, b := [25, 9, 0], [25, 10, 0, 1];
    CompareRest(a, b);
    CompareRest(Rest(a), Rest(b));
  }

  // ---------- chains of upgrades over a fixed list ----------

  ghost predicate ChainStep(parse: Parser, list: seq<string>, a: string, b: string) {
    var offers := Upgrades(parse, list, a);
    offers.Some? && b in offers.value
  }

  ghost predicate Chain(parse: Parser, list: seq<string>, chain: seq<string>) {
    |chain| >= 1 && forall i :: 0 < i < |chain| ==> ChainStep(parse, list, chain[i - 1], chain[i])
  }

  lemma ChainStepMeans(parse: Parser, list: seq<string>, a: string, b: string)
    requires ChainStep(parse, list, a, b)
    ensures a != LATEST && parse(a).Some? && b in list && Offered(parse, parse(a).value, b)
  {
    if a != LATEST && parse(a).Some? {
      SelectMembers(list, s => Offered(parse, parse(a).value, s));
    }
  }

  // Later versions of a chain are strictly greater, so no chain returns to where it was.
  lemma {:induction false} ChainIncreases(parse: Parser, list: seq<string>, chain: seq<string>, i: nat, j: nat)
    requires Chain(parse, list, chain) && i < j < |chain|
    ensures parse(chain[i]).Some? && parse(chain[j]).Some?
    ensures Less(parse(chain[i]).value, parse(chain[j]).value)
    ensures chain[i] != chain[j]
    decreases j - i
  {
    assert ChainStep(parse, list, chain[j - 1], chain[j]);
    ChainStepMeans(parse, list, chain[j - 1], chain[j]);
    if i < j - 1 {
      ChainIncreases(parse, list, chain, i, j - 1);
      LessTransitive(parse(chain[i]).value, parse(chain[j - 1]).value, parse(chain[j]).value);
    }
    Converse(parse(chain[i]).value, parse(chain[i]).value);
  }

  lemma {:induction false} DistinctFit(a: seq<string>, list: seq<string>)
    requires forall i :: 0 <= i < |a| ==> a[i] in list
    requires forall i, j :: 0 <= i < j < |a| ==> a[i] != a[j]
    ensures |a| <= |list|
  {
    if a != [] {
      var n := |a| - 1;
      var k :| 0 <= k < |list| && list[k] == a[n];
      var rest := list[..k] + list[k + 1..];
      forall i | 0 <= i < n
        ensures a[..n][i] in rest
      {
        var m :| 0 <= m < |list| && list[m] == a[i];
        assert rest[if m < k then m else m - 1] == a[i];
      }
      DistinctFit(a[..n], rest);
    }
  }

  // A chain has at most as many upgrades as the list has entries.
  lemma ChainIsBounded(parse: Parser, list: seq<string>, chain: seq<string>)
    requires Chain(parse, list, chain)
    ensures |chain| - 1 <= |list|
  {
    var steps := chain[1..];
    forall i | 0 <= i < |steps|
      ensures steps[i] in list
    {
      assert ChainStep(parse, list, chain[i], chain[i + 1]);
      ChainStepMeans(parse, list, chain[i], chain[i + 1]);
    }
    forall i, j | 0 <= i < j < |steps|
      ensures steps[i] != steps[j]
    {
      ChainIncreases(parse, list, chain, i + 1, j + 1);
    }
    DistinctFit(steps, list);
  }

  // A chain that ends in another (major, minor) line has entered that line at a version whose third segment
  // is zero; so one that ends at a patch version has visited that release before.
  lemma {:induction false} LineIsEnteredAtRelease(parse: Parser, list: seq<string>, chain: seq<string>) returns (k: nat)
    requires Chain(parse, list, chain) && |chain| > 1
    requires parse(chain[0]).Some? && parse(chain[|chain| - 1]).Some?
    requires !SameLine(parse(chain[0]).value, parse(chain[|chain| - 1]).value)
    ensures 0 < k < |chain| && parse(chain[k]).Some?
    ensures SameLine(parse(chain[k]).value, parse(chain[|chain| - 1]).value)
    ensures parse(chain[k]).value.segments[2] == 0
    ensures parse(chain[|chain| - 1]).value.segments[2] > 0 ==> k < |chain| - 1
  {
    var n := |chain| - 1;
    assert ChainStep(parse, list, chain[n - 1], chain[n]);
    ChainStepMeans(parse, list, chain[n - 1], chain[n]);
    k := n;
    if SameLine(parse(chain[n - 1]).value, parse(chain[n]).value) {
      k := LineIsEnteredAtRelease(parse, list, chain[..n]);
    }
  }

  // "latest" does not parse: no chain reaches it, and no chain leaves it.
  lemma LatestIsIsolated(parse: Parser, list: seq<string>, chain: seq<string>, i: nat)
    requires parse(LATEST).None?
    requires Chain(parse, list, chain) && |chain| > 1 && i < |chain|
    ensures chain[i] != LATEST
  {
    if i > 0 {
      assert ChainStep(parse, list, chain[i - 1], chain[i]);
      ChainStepMeans(parse, list, chain[i - 1], chain[i]);
    } else {
      assert ChainStep(parse, list, chain[0], chain[1]);
      ChainStepMeans(parse, list, chain[0], chain[1]);
    }
  }
}
