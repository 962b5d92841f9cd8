/** What stripping and splitting a text into lines amount to. */
module TextMeaning {
  import opened Text

  // ----- stripping -----

  /** The stripped text is the one part between two runs of spaces that has no space at its ends. */
  lemma StripIff(s: string, t: string)
    ensures t == Strip(s) <==> IsStripped(s, t)
  {
    StripIs(s);
    if IsStripped(s, t) {
      StripUnique(s, t);
    }
  }

  lemma StripIs(s: string)
    ensures IsStripped(s, Strip(s))
  {
    StripLeftCuts(s);
    StripRightCuts(StripLeft(s));
    StripTrimmed(s);
    var before :| s == before + StripLeft(s) && AllSpace(before);
    var after :| StripLeft(s) == Strip(s) + after && AllSpace(after);
    assert s == before + Strip(s) + after;
    assert Cuts(s, before, Strip(s), after);
  }

  lemma StripUnique(s: string, t: string)
    requires IsStripped(s, t)
    ensures t == Strip(s)
  {
    var before, after :| Cuts(s, before, t, after);
    LeftSkips(before, t + after);
    assert s == before + (t + after);
    if t == [] {
      assert t + after == after;
      AllStripped(after);
    } else {
      assert (t + after)[0] == t[0];
      RightSkips(t, after);
    }
  }

  predicate Cuts(s: string, before: string, t: string, after: string) {
    s == before + t + after && AllSpace(before) && AllSpace(after)
  }

  ghost predicate IsStripped(s: string, t: string) {
    && (t == [] || (!IsSpace(t[0]) && !IsSpace(t[|t| - 1])))
    && exists before, after :: Cuts(s, before, t, after)
  }

  lemma {:induction false} StripLeftCuts(s: string)
    ensures exists before :: s == before + StripLeft(s) && AllSpace(before)
  {
    if s != [] && IsSpace(s[0]) {
      StripLeftCuts(s[1..]);
      var before :| s[1..] == before + StripLeft(s[1..]) && AllSpace(before);
      assert s == [s[0]] + before + StripLeft(s);
    } else {
      assert s == [] + StripLeft(s);
    }
  }

  lemma {:induction false} StripRightCuts(s: string)
    ensures exists after :: s == StripRight(s) + after && AllSpace(after)
  {
    if s != [] && IsSpace(s[|s| - 1]) {
      StripRightCuts(s[..|s| - 1]);
      var after :| s[..|s| - 1] == StripRight(s[..|s| - 1]) + after && AllSpace(after);
      assert s == StripRight(s) + (after + [s[|s| - 1]]);
    } else {
      assert s == StripRight(s) + [];
    }
  }

  lemma {:induction false} LeftSkips(before: string, s: string)
    requires AllSpace(before)
    ensures StripLeft(before + s) == StripLeft(s)
  {
    if before == [] {
      assert before + s == s;
    } else {
      LeftSkips(before[1..], s);
      assert (before + s)[1..] == before[1..] + s;
    }
  }

  lemma {:induction false} RightSkips(s: string, after: string)
    requires AllSpace(after)
    ensures StripRight(s + after) == StripRight(s)
  {
    if after == [] {
      assert s + after == s;
    } else {
      RightSkips(s, after[..|after| - 1]);
      assert (s + after)[..|s + after| - 1] == s + after[..|after| - 1];
    }
  }

  lemma {:induction false} AllStripped(s: string)
    requires AllSpace(s)
    ensures StripLeft(s) == []
  {
    if s != [] {
      AllStripped(s[1..]);
    }
  }

  // ----- lines -----

  predicate IsBreak(b: string) {
    b == "\r\n" || (|b| == 1 && IsLineBreak(b[0]))
  }

  /** Each line followed by its break. */
  function Joined(lines: seq<string>, breaks: seq<string>): string
    requires |lines| == |breaks|
  {
    if lines == [] then "" else lines[0] + breaks[0] + Joined(lines[1..], breaks[1..])
  }

  /**
   * The text is these lines: none has a break inside, each ends in one, only the
   * last may lack it and is then not empty, and CR LF is not taken apart.
   */
  predicate Splits(s: string, lines: seq<string>, breaks: seq<string>) {
    && |lines| == |breaks| && s == Joined(lines, breaks)
    && (forall k :: 0 <= k < |lines| ==> NoBreak(lines[k]))
    && (forall k :: 0 <= k < |lines| ==> IsBreak(breaks[k]) || (breaks[k] == "" && k == |lines| - 1 && lines[k] != ""))
    && (forall k :: 0 <= k < |lines| - 1 ==> breaks[k] == "\r" && lines[k + 1] == "" ==> !("\n" <= breaks[k + 1]))
  }

  lemma SplitLinesIff(s: string, lines: seq<string>)
    ensures lines == SplitLines(s) <==> exists breaks :: Splits(s, lines, breaks)
  {
    if lines == SplitLines(s) {
      var breaks := LinesSplit(s);
      assert Splits(s, lines, breaks);
    }
    if breaks :| Splits(s, lines, breaks) {
      SplitUnique(s, lines, breaks);
    }
  }

  lemma {:induction false} LinesSplit(s: string) returns (breaks: seq<string>)
    ensures Splits(s, SplitLines(s), breaks)
    decreases |s|
  {
    var i := LineEnd(s);
    if s == [] {
      breaks := [];
    } else if i == |s| {
      breaks := [""];
      assert Joined([s], breaks) == s;
    } else {
      var width := if s[i] == '\r' && i + 1 < |s| && s[i + 1] == '\n' then 2 else 1;
      var rest := s[i + width..];
      var later := LinesSplit(rest);
      breaks := [s[i..i + width]] + later;
      assert s == s[..i] + s[i..i + width] + rest;
      assert NoBreak(s[..i]);
      SplitsCons(s[..i], s[i..i + width], rest, SplitLines(rest), later);
    }
  }

  lemma SplitsCons(line: string, b: string, rest: string, lines: seq<string>, later: seq<string>)
    requires Splits(rest, lines, later) && NoBreak(line) && IsBreak(b) && (b == "\r" && rest != "" ==> rest[0] != '\n')
    ensures Splits(line + b + rest, [line] + lines, [b] + later)
  {
    var (all, breaks) := ([line] + lines, [b] + later);
    assert all[1..] == lines && breaks[1..] == later;
    forall k | 0 <= k < |all| - 1 && breaks[k] == "\r" && all[k + 1] == "" ensures !("\n" <= breaks[k + 1]) {
      if k == 0 {
        StartsJoined(lines, later);
      } else {
        assert later[k - 1] == "\r" && lines[k - 1 + 1] == "";
      }
    }
  }

  /** What the first line and its break begin with, the text begins with. */
  lemma StartsJoined(lines: seq<string>, breaks: seq<string>)
    requires |lines| == |breaks| > 0 && lines[0] == ""
    ensures breaks[0] <= Joined(lines, breaks)
  {
  }

  lemma {:induction false} SplitUnique(s: string, lines: seq<string>, breaks: seq<string>)
    requires Splits(s, lines, breaks)
    ensures lines == SplitLines(s)
    decreases |lines|
  {
    if lines != [] {
      var (line, b, rest) := (lines[0], breaks[0], Joined(lines[1..], breaks[1..]));
      HeadSplits(s, lines, breaks);
      if b != "" {
        TailSplits(s, lines, breaks);
        SplitUnique(rest, lines[1..], breaks[1..]);
        BreakWidth(lines, breaks, line, b, rest);
        assert s[..|line|] == line && s[|line| + |b|..] == rest;
      }
    }
  }

  lemma HeadSplits(s: string, lines: seq<string>, breaks: seq<string>)
    requires Splits(s, lines, breaks) && lines != []
    ensures s == lines[0] + breaks[0] + Joined(lines[1..], breaks[1..]) != "" && LineEnd(s) == |lines[0]|
    ensures breaks[0] == "" ==> s == lines[0] && lines == [s]
  {
    var (line, b) := (lines[0], breaks[0]);
    assert forall k :: 0 <= k < |line| ==> s[k] == line[k] && line[k] in line;
    if b == "" {
      assert |lines| == 1 && lines[1..] == [];
    } else {
      assert s[|line|] == b[0];
    }
  }

  lemma TailSplits(s: string, lines: seq<string>, breaks: seq<string>)
    requires Splits(s, lines, breaks) && lines != []
    ensures Splits(Joined(lines[1..], breaks[1..]), lines[1..], breaks[1..])
  {
    forall k | 0 <= k < |lines[1..]| - 1 && breaks[1..][k] == "\r" && lines[1..][k + 1] == "" ensures !("\n" <= breaks[1..][k + 1]) {
      assert breaks[k + 1] == "\r" && lines[k + 2] == "";
    }
  }

  /** A lone CR is not followed by a line feed. */
  lemma BreakWidth(lines: seq<string>, breaks: seq<string>, line: string, b: string, rest: string)
    requires Splits(line + b + rest, lines, breaks) && lines != [] && line == lines[0] && b == breaks[0] != ""
    requires rest == Joined(lines[1..], breaks[1..])
    ensures var s := line + b + rest;
            |b| == if s[|line|] == '\r' && |line| + 1 < |s| && s[|line| + 1] == '\n' then 2 else 1
  {
    if lines[1..] != [] {
      BreakStarts(lines[1..], breaks[1..]);
    }
  }

  /** A text that begins with a line feed begins with an empty line and its break. */
  lemma BreakStarts(lines: seq<string>, breaks: seq<string>)
    requires |lines| == |breaks| > 0 && NoBreak(lines[0])
    ensures var s := Joined(lines, breaks);
            s != "" && s[0] == '\n' ==> lines[0] == "" && (breaks[0] != "" ==> "\n" <= breaks[0])
  {
    assert lines[0] != "" ==> lines[0][0] in lines[0];
    assert breaks[0] != "" ==> breaks[0] == [breaks[0][0]] + breaks[0][1..];
  }

  /** The characters that count as breaks and as spaces, one by one. */
  lemma BreaksAndSpaces(c: char)
    ensures IsLineBreak(c) <==> c in "\n\U{B}\U{C}\r\U{1C}\U{1D}\U{1E}\U{85}\U{2028}\U{2029}"
    ensures IsSpace(c) <==>
            IsLineBreak(c) || c in "\t\U{1F} \U{A0}\U{1680}\U{2000}\U{2001}\U{2002}\U{2003}\U{2004}\U{2005}\U{2006}\U{2007}\U{2008}\U{2009}\U{200A}\U{202F}\U{205F}\U{3000}"
  {
    assert c == (c as int) as char;
  }
}
