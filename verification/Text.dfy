/** The few `str` operations the modelled code relies on, over Unicode scalar values. */
module Text {

  /** `str.isspace` for one character; also what `\s` matches. */
  predicate IsSpace(c: char) {
    var n := c as int;
    || 0x09 <= n <= 0x0D || 0x1C <= n <= 0x20 || n == 0x85 || n == 0xA0 || n == 0x1680
    || 0x2000 <= n <= 0x200A || n == 0x2028 || n == 0x2029 || n == 0x202F || n == 0x205F || n == 0x3000
  }

  /** The separators of `str.splitlines`. */
  predicate IsLineBreak(c: char) {
    var n := c as int;
    0x0A <= n <= 0x0D || 0x1C <= n <= 0x1E || n == 0x85 || n == 0x2028 || n == 0x2029
  }

  predicate AllSpace(s: string) {
    forall c :: c in s ==> IsSpace(c)
  }

  function StripLeft(s: string): string {
    if s != [] && IsSpace(s[0]) then StripLeft(s[1..]) else s
  }

  function StripRight(s: string): string {
    if s != [] && IsSpace(s[|s| - 1]) then StripRight(s[..|s| - 1]) else s
  }

  /** `str.strip()` */
  function Strip(s: string): string {
    StripRight(StripLeft(s))
  }

  /** Index of the first line break, or the length when there is none. */
  function LineEnd(s: string): (i: nat)
    ensures i <= |s|
    ensures forall k :: 0 <= k < i ==> !IsLineBreak(s[k])
    ensures i < |s| ==> IsLineBreak(s[i])
  {
    if s == [] || IsLineBreak(s[0]) then 0 else 1 + LineEnd(s[1..])
  }

  /** `str.splitlines()`: CR LF is one break, and a trailing break opens no line. */
  function SplitLines(s: string): seq<string>
    decreases |s|
  {
    if s == [] then []
    else
      var i := LineEnd(s);
      if i == |s| then [s]
      else
        var width := if s[i] == '\r' && i + 1 < |s| && s[i + 1] == '\n' then 2 else 1;
        [s[..i]] + SplitLines(s[i + width..])
  }

  predicate NoBreak(s: string) {
    forall c :: c in s ==> !IsLineBreak(c)
  }

  /** Stripping is idempotent: it leaves no space at either end. */
  lemma {:induction false} StripLeftEdge(s: string)
    ensures StripLeft(s) == [] || !IsSpace(StripLeft(s)[0])
    ensures StripLeft(StripLeft(s)) == StripLeft(s)
  {
    if s != [] && IsSpace(s[0]) {
      StripLeftEdge(s[1..]);
    }
  }

  lemma {:induction false} StripRightEdge(s: string)
    ensures StripRight(s) <= s
    ensures StripRight(s) == [] || !IsSpace(StripRight(s)[|StripRight(s)| - 1])
    ensures StripRight(StripRight(s)) == StripRight(s)
  {
    if s != [] && IsSpace(s[|s| - 1]) {
      StripRightEdge(s[..|s| - 1]);
    }
  }

  lemma StripTrimmed(s: string)
    ensures Strip(s) == [] || (!IsSpace(Strip(s)[0]) && !IsSpace(Strip(s)[|Strip(s)| - 1]))
    ensures Strip(Strip(s)) == Strip(s)
  {
    StripLeftEdge(s);
    StripRightEdge(StripLeft(s));
  }

  /** Text with a solid character at each end is its own stripped form. */
  lemma StripSolid(s: string)
    requires s == [] || (!IsSpace(s[0]) && !IsSpace(s[|s| - 1]))
    ensures Strip(s) == s
  {
  }

  /** A line that ends in "\n" is split off whole. */
  lemma SplitLinesCons(line: string, rest: string)
    requires NoBreak(line)
    ensures SplitLines(line + "\n" + rest) == [line] + SplitLines(rest)
  {
    var s := line + "\n" + rest;
    var i := LineEnd(s);
    assert s[|line|] == '\n';
    assert forall k :: 0 <= k < |line| ==> s[k] == line[k] && line[k] in line;
    assert i == |line|;
    assert s[..i] == line;
    assert s[i + 1..] == rest;
  }
}
