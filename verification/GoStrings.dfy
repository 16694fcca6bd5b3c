/** The functions of Go's `strings` package that the installer calls, and the laws about them
    that the other modules need. A string is a sequence of characters. */
module GoStrings {

  // ---------- prefixes ----------

  function TrimPrefix(s: string, prefix: string): string {
    if prefix <= s then s[|prefix|..] else s
  }

  // Prefixing is injective, and trimming undoes it.
  lemma TrimPrefixUndoes(prefix: string, s: string)
    ensures TrimPrefix(prefix + s, prefix) == s
  {
    assert prefix <= prefix + s;
  }

  // ---------- splitting and joining ----------

  function Split(s: string, sep: char): (parts: seq<string>)
    ensures |parts| >= 1
  {
    if s == "" then [""]
    else
      var rest := Split(s[1..], sep);
      if s[0] == sep then [""] + rest else [[s[0]] + rest[0]] + rest[1..]
  }

  function Join(parts: seq<string>, sep: char): string {
    if parts == [] then ""
    else if |parts| == 1 then parts[0]
    else parts[0] + [sep] + Join(parts[1..], sep)
  }

  lemma {:induction false} SplitFree(s: string, sep: char)
    requires sep !in s
    ensures Split(s, sep) == [s]
  {
    if s != "" {
      SplitFree(s[1..], sep);
      assert [s[0]] + s[1..] == s;
    }
  }

  lemma {:induction false} SplitAtSeparator(s: string, sep: char, t: string)
    requires sep !in s
    ensures Split(s + [sep] + t, sep) == [s] + Split(t, sep)
  {
    var whole := s + [sep] + t;
    if s == "" {
      assert whole[1..] == t;
    } else {
      assert whole[1..] == s[1..] + [sep] + t;
      SplitAtSeparator(s[1..], sep, t);
      assert [s[0]] + s[1..] == s;
      assert ([s[1..]] + Split(t, sep))[1..] == Split(t, sep);
    }
  }

  // Splitting undoes joining, on parts free of the separator.
  lemma {:induction false} SplitJoin(parts: seq<string>, sep: char)
    requires parts != []
    requires forall p :: p in parts ==> sep !in p
    ensures Split(Join(parts, sep), sep) == parts
  {
    if |parts| == 1 {
      SplitFree(parts[0], sep);
    } else {
      SplitJoin(parts[1..], sep);
      SplitAtSeparator(parts[0], sep, Join(parts[1..], sep));
    }
  }

  // Joining undoes splitting, on every string.
  lemma {:induction false} JoinSplit(s: string, sep: char)
    ensures Join(Split(s, sep), sep) == s
  {
    if s != "" {
      JoinSplit(s[1..], sep);
      var rest := Split(s[1..], sep);
      if s[0] == sep {
        assert ([""] + rest)[1..] == rest;
      } else {
        var parts := [[s[0]] + rest[0]] + rest[1..];
        assert parts[1..] == rest[1..];
        assert Join(parts, sep) == [s[0]] + Join(rest, sep);
      }
    }
  }

  // ---------- trimming ----------

  function TrimLeft(s: string, c: char): string {
    if s != "" && s[0] == c then TrimLeft(s[1..], c) else s
  }

  function TrimRight(s: string, c: char): string {
    if s != "" && s[|s| - 1] == c then TrimRight(s[..|s| - 1], c) else s
  }

  function Trim(s: string, c: char): string {
    TrimRight(TrimLeft(s, c), c)
  }

  function Repeat(c: char, n: nat): string {
    seq(n, _ => c)
  }

  lemma {:induction false} TrimRightRepeat(s: string, c: char, n: nat)
    requires s == "" || s[|s| - 1] != c
    ensures TrimRight(s + Repeat(c, n), c) == s
  {
    if n == 0 {
      assert s + Repeat(c, 0) == s;
    } else {
      var t := s + Repeat(c, n);
      assert t[..|t| - 1] == s + Repeat(c, n - 1);
      TrimRightRepeat(s, c, n - 1);
    }
  }

  // unicode.IsSpace
  predicate IsSpace(c: char) {
    || c in ['\t', '\n', '\U{000B}', '\U{000C}', '\r', ' ', '\U{0085}', '\U{00A0}', '\U{1680}']
    || '\U{2000}' <= c <= '\U{200A}'
    || c in ['\U{2028}', '\U{2029}', '\U{202F}', '\U{205F}', '\U{3000}']
  }

  function TrimSpaceLeft(s: string): string {
    if s != "" && IsSpace(s[0]) then TrimSpaceLeft(s[1..]) else s
  }

  function TrimSpaceRight(s: string): string {
    if s != "" && IsSpace(s[|s| - 1]) then TrimSpaceRight(s[..|s| - 1]) else s
  }

  function TrimSpace(s: string): string {
    TrimSpaceRight(TrimSpaceLeft(s))
  }

  // strings.TrimSpace(s) == ""
  predicate Blank(s: string) {
    TrimSpace(s) == ""
  }

  ghost predicate Spaces(s: string) {
    forall i :: 0 <= i < |s| ==> IsSpace(s[i])
  }

  // Trimming takes the spaces off both ends, and nothing else.
  lemma {:induction false} TrimLeftExactly(s: string) returns (l: string)
    ensures Spaces(l) && s == l + TrimSpaceLeft(s)
    ensures TrimSpaceLeft(s) != "" ==> !IsSpace(TrimSpaceLeft(s)[0])
  {
    l := "";
    if s != "" && IsSpace(s[0]) {
      var rest := TrimLeftExactly(s[1..]);
      l := [s[0]] + rest;
      assert s == [s[0]] + s[1..];
    }
  }

  lemma {:induction false} TrimRightIsPrefix(s: string)
    ensures TrimSpaceRight(s) <= s && forall i :: |TrimSpaceRight(s)| <= i < |s| ==> IsSpace(s[i])
    ensures var t := TrimSpaceRight(s); t != "" ==> !IsSpace(t[|t| - 1])
  {
    if s != "" && IsSpace(s[|s| - 1]) {
      TrimRightIsPrefix(s[..|s| - 1]);
    }
  }

  lemma TrimRightExactly(s: string) returns (r: string)
    ensures Spaces(r) && s == TrimSpaceRight(s) + r
    ensures var t := TrimSpaceRight(s); t != "" ==> !IsSpace(t[|t| - 1])
  {
    TrimRightIsPrefix(s);
    var n := |TrimSpaceRight(s)|;
    r := s[n..];
    forall i | 0 <= i < |r|
      ensures IsSpace(r[i])
    {
      assert r[i] == s[n + i];
    }
  }

  lemma TrimSpaceExactly(s: string) returns (l: string, r: string)
    ensures Spaces(l) && Spaces(r) && s == l + TrimSpace(s) + r
    ensures var t := TrimSpace(s); t != "" ==> !IsSpace(t[0]) && !IsSpace(t[|t| - 1])
  {
    l := TrimLeftExactly(s);
    r := TrimRightExactly(TrimSpaceLeft(s));
    assert TrimSpace(s) != "" ==> TrimSpace(s)[0] == TrimSpaceLeft(s)[0];
  }

  // Blank is: nothing but spaces.
  lemma BlankExactly(s: string)
    ensures Blank(s) <==> Spaces(s)
  {
    var l, r := TrimSpaceExactly(s);
    var t := TrimSpace(s);
    if t == "" {
      assert s == l + r;
    } else {
      assert s[|l|] == t[0];
    }
  }

  // strings.Contains
  predicate Contains(s: string, part: string) {
    part <= s || (s != "" && Contains(s[1..], part))
  }

  lemma {:induction false} ContainsExactly(s: string, part: string)
    ensures Contains(s, part) <==> exists i :: 0 <= i <= |s| && part <= s[i..]
  {
    assert s[0..] == s;
    if s != "" {
      ContainsExactly(s[1..], part);
      assert forall i :: 0 <= i < |s| ==> s[1..][i..] == s[i + 1..];
      if Contains(s[1..], part) {
        var i :| 0 <= i <= |s| - 1 && part <= s[1..][i..];
        assert part <= s[i + 1..];
      }
      forall i | 0 < i <= |s| && part <= s[i..]
        ensures Contains(s[1..], part)
      {
        assert part <= s[1..][i - 1..];
      }
    }
  }

  // ---------- replacing ----------

  function ReplaceAll(s: string, pattern: string, substitute: string): string
    requires pattern != ""
  {
    if s == "" then ""
    else if pattern <= s then substitute + ReplaceAll(s[|pattern|..], pattern, substitute)
    else [s[0]] + ReplaceAll(s[1..], pattern, substitute)
  }

  function ToLower(s: string): string {
    seq(|s|, i requires 0 <= i < |s| => if 'A' <= s[i] <= 'Z' then s[i] - 'A' + 'a' else s[i])
  }
}
