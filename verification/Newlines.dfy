/** The newline normalisation applied to every downloaded patch. */
module Newlines {
  import opened GoStrings

  // CRLF to LF, then CR to LF.
  function Normalise(text: string): string {
    ReplaceAll(ReplaceAll(text, "\r\n", "\n"), "\r", "\n")
  }

  // The reference: one pass over the text, in which each CRLF, and each CR on its own, becomes one LF.
  function OnePass(text: string): string {
    if text == "" then ""
    else if text[0] != '\r' then [text[0]] + OnePass(text[1..])
    else "\n" + OnePass(if |text| > 1 && text[1] == '\n' then text[2..] else text[1..])
  }

  lemma {:induction false} NormaliseIsOnePass(text: string)
    ensures Normalise(text) == OnePass(text)
    decreases |text|
  {
    if text == "" {
    } else if "\r\n" <= text {
      NormaliseIsOnePass(text[2..]);
      var rest := ReplaceAll(text[2..], "\r\n", "\n");
      assert ("\n" + rest)[1..] == rest;
    } else {
      NormaliseIsOnePass(text[1..]);
      var rest := ReplaceAll(text[1..], "\r\n", "\n");
      assert ([text[0]] + rest)[1..] == rest;
    }
  }

  lemma {:induction false} OnePassHasNoReturn(text: string)
    ensures '\r' !in OnePass(text)
    decreases |text|
  {
    if text != "" {
      OnePassHasNoReturn(text[1..]);
      if |text| > 1 {
        OnePassHasNoReturn(text[2..]);
      }
    }
  }

  lemma {:induction false} OnePassFixes(text: string)
    requires '\r' !in text
    ensures OnePass(text) == text
  {
    if text != "" {
      OnePassFixes(text[1..]);
    }
  }

  // The output has no carriage return, and normalising again changes nothing.
  lemma NormaliseCleansOnce(text: string)
    ensures '\r' !in Normalise(text)
    ensures Normalise(Normalise(text)) == Normalise(text)
  {
    NormaliseIsOnePass(text);
    OnePassHasNoReturn(text);
    OnePassFixes(OnePass(text));
    NormaliseIsOnePass(OnePass(text));
  }

  // ---------- line by line ----------

  // The lines, each but the last followed by its end.
  function Joined(lines: seq<string>, ends: seq<string>): string
    requires |lines| == |ends| + 1
    decreases ends
  {
    if ends == [] then lines[0] else lines[0] + ends[0] + Joined(lines[1..], ends[1..])
  }

  // Lines without line breaks, ended by CRLF, CR or LF, where no CR meets an LF that is not part of it.
  ghost predicate AreLines(lines: seq<string>, ends: seq<string>) {
    && |lines| == |ends| + 1
    && (forall i :: 0 <= i < |lines| ==> '\r' !in lines[i] && '\n' !in lines[i])
    && (forall i :: 0 <= i < |ends| ==> ends[i] in ["\r\n", "\r", "\n"])
    && (forall i :: 0 <= i < |ends| - 1 && ends[i] == "\r" && lines[i + 1] == "" ==> ends[i + 1] != "\n")
  }

  lemma {:induction false} OnePassLine(line: string, rest: string)
    requires '\r' !in line
    ensures OnePass(line + rest) == line + OnePass(rest)
  {
    if line == "" {
      assert line + rest == rest;
    } else {
      assert (line + rest)[1..] == line[1..] + rest && (line + rest)[0] == line[0];
      OnePassLine(line[1..], rest);
      assert line == [line[0]] + line[1..];
    }
  }

  lemma OnePassEnd(end: string, rest: string)
    requires end in ["\r\n", "\r", "\n"]
    requires end == "\r" && rest != "" ==> rest[0] != '\n'
    ensures OnePass(end + rest) == "\n" + OnePass(rest)
  {
    var text := end + rest;
    assert |end| <= |text| && text[|end|..] == rest;
  }

  lemma JoinedStarts(lines: seq<string>, ends: seq<string>)
    requires AreLines(lines, ends)
    ensures lines[0] != "" ==> Joined(lines, ends) != "" && Joined(lines, ends)[0] == lines[0][0]
    ensures lines[0] == "" && ends != [] ==> Joined(lines, ends) != "" && Joined(lines, ends)[0] == ends[0][0]
    ensures lines[0] == "" && ends == [] ==> Joined(lines, ends) == ""
  {
  }

  function Feeds(n: nat): seq<string> {
    seq(n, _ => "\n")
  }

  lemma {:induction false} OnePassJoined(lines: seq<string>, ends: seq<string>)
    requires AreLines(lines, ends)
    ensures OnePass(Joined(lines, ends)) == Joined(lines, Feeds(|ends|))
    decreases ends
  {
    if ends == [] {
      OnePassFixes(lines[0]);
    } else {
      var rest := Joined(lines[1..], ends[1..]);
      assert AreLines(lines[1..], ends[1..]);
      JoinedStarts(lines[1..], ends[1..]);
      assert lines[1] == "" || lines[1][0] in lines[1];
      OnePassJoined(lines[1..], ends[1..]);
      OnePassEnd(ends[0], rest);
      OnePassLine(lines[0], ends[0] + rest);
      assert lines[0] + (ends[0] + rest) == lines[0] + ends[0] + rest;
      assert Feeds(|ends|)[1..] == Feeds(|ends| - 1) && Feeds(|ends|)[0] == "\n";
    }
  }

  // Whatever mix of CRLF, CR and LF ends them, the lines stay as they are and are all ended by LF.
  lemma LinesAreKept(lines: seq<string>, ends: seq<string>)
    requires AreLines(lines, ends)
    ensures Normalise(Joined(lines, ends)) == Joined(lines, Feeds(|ends|))
  {
    NormaliseIsOnePass(Joined(lines, ends));
    OnePassJoined(lines, ends);
  }
}
