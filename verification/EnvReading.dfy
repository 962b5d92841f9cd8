/**
 * What reading user.env means, said of the lines alone: which lines are passed
 * over, which bind a key to what, and which is the first that does neither.
 */
module EnvReading {
  import opened Basics
  import opened Text
  import opened EnvFile

  // ----- one line -----

  /** Blank, or with `#` as the first character that is not a space. */
  ghost predicate Skipped(line: string) {
    exists before, rest :: SkipCut(line, before, rest)
  }

  predicate SkipCut(line: string, before: string, rest: string) {
    AllSpace(before) && line == before + rest && (rest == "" || rest[0] == '#')
  }

  ghost predicate LiteralLine(line: string, key: string, body: string) {
    exists before, gap, after :: LiteralCut(line, before, key, body, gap, after)
  }

  ghost predicate PlainLine(line: string, key: string, value: string) {
    exists before :: PlainCut(line, before, key, value)
  }

  ghost predicate NotLiteral(line: string) {
    forall key, body :: !LiteralLine(line, key, body)
  }

  /** The line gives the key its value: the unescaped body of a literal line, else the stripped rest of a plain one. */
  ghost predicate Binds(line: string, key: string, value: string) {
    || (exists body :: LiteralLine(line, key, body) && value == Unescape(body))
    || (NotLiteral(line) && exists rest :: PlainLine(line, key, rest) && value == Strip(rest))
  }

  ghost predicate BindsKey(line: string, key: string) {
    exists value :: Binds(line, key, value)
  }

  /** The line is neither passed over nor a binding. */
  ghost predicate Bad(line: string) {
    !Skipped(line) && forall key :: !BindsKey(line, key)
  }

  /** Unescaping is the only way back: no two bodies stand for the same value. */
  lemma {:induction false} BodyOfValue(body: string)
    requires IsBody(body) && (body == "" || body[0] != '\'')
    ensures Escape(Unescape(body)) == body
    decreases |body|
  {
    if body != "" {
      if |body| >= 2 && body[0] == '\\' && body[1] == '\'' {
        QuoteAlone(body);
        assert forall i :: 0 <= i < |body| - 2 ==> body[2..][i] == body[i + 2];
        BodyOfValue(body[2..]);
        assert Unescape(body)[0] == '\'' && Unescape(body)[1..] == Unescape(body[2..]);
      } else {
        assert forall i :: 0 <= i < |body| - 1 ==> body[1..][i] == body[i + 1];
        BodyOfValue(body[1..]);
        assert Unescape(body)[0] == body[0] && Unescape(body)[1..] == Unescape(body[1..]);
      }
    }
  }

  lemma QuoteAlone(body: string)
    requires IsBody(body) && |body| >= 2 && body[1] == '\''
    ensures |body| > 2 ==> body[2] != '\''
  {
  }

  lemma AllSpaceIsNothing(s: string)
    requires AllSpace(s) && (s == "" || !IsSpace(s[0]))
    ensures s == ""
  {
  }

  lemma HashStays(rest: string)
    requires rest != "" && rest[0] == '#'
    ensures StripLeft(rest) == rest && Strip(rest) != "" && Strip(rest)[0] == '#'
  {
    StripRightCut(rest);
    var after :| AllSpace(after) && rest == StripRight(rest) + after;
    if StripRight(rest) == "" {
      assert rest[0] in after;
    }
  }

  lemma SkippedIff(line: string)
    ensures Skipped(line) <==> Strip(line) == "" || Strip(line)[0] == '#'
  {
    StripLeftCut(line);
    var before :| AllSpace(before) && line == before + StripLeft(line);
    var rest := StripLeft(line);
    StripLeftEdge(line);
    StripRightEdge(rest);
    if Strip(line) == "" {
      StripRightCut(rest);
      var after :| AllSpace(after) && rest == StripRight(rest) + after;
      assert rest == after;
      AllSpaceIsNothing(rest);
      assert SkipCut(line, before, rest);
    } else if Strip(line)[0] == '#' {
      assert SkipCut(line, before, rest);
    }
    if b, r :| SkipCut(line, b, r) {
      StripLeftOf(b, r);
      if r != "" {
        HashStays(r);
      }
    }
  }

  lemma LiteralLineIff(line: string)
    ensures forall key, body :: LiteralLine(line, key, body) <==> Literal(line) == Some((key, body))
  {
    forall key, body ensures LiteralLine(line, key, body) <==> Literal(line) == Some((key, body)) {
      LiteralIffCut(line, key, body);
    }
  }

  lemma PlainLineIff(line: string)
    ensures forall key, value :: PlainLine(line, key, value) <==> Plain(line) == Some((key, value))
  {
    forall key, value ensures PlainLine(line, key, value) <==> Plain(line) == Some((key, value)) {
      PlainIffCut(line, key, value);
    }
  }

  function Bound(line: string): Option<(string, string)> {
    match Literal(line)
    case Some((key, body)) => Some((key, Unescape(body)))
    case None =>
      match Plain(line)
      case Some((key, value)) => Some((key, Strip(value)))
      case None => None
  }

  lemma BindsIff(line: string)
    ensures forall key, value :: Binds(line, key, value) <==> Bound(line) == Some((key, value))
  {
    LiteralLineIff(line);
    PlainLineIff(line);
    forall key, value ensures Binds(line, key, value) <==> Bound(line) == Some((key, value)) {
      if Literal(line).Some? {
        var (k, body) := Literal(line).value;
        assert LiteralLine(line, k, body);
      } else if Plain(line).Some? {
        var (k, rest) := Plain(line).value;
        assert PlainLine(line, k, rest);
      }
    }
  }

  /** A line that is passed over binds nothing. */
  lemma SkippedBindsNothing(line: string)
    requires Skipped(line)
    ensures Bound(line) == None
  {
    if Plain(line).Some? {
      var (key, rest) := Plain(line).value;
      CutIfPlain(line, key, rest);
      var before :| PlainCut(line, before, key, rest);
      var b, r :| SkipCut(line, b, r);
      assert line == before + (key + "=" + rest) && IsKeyStart(key[0]);
      StripLeftOf(before, key + "=" + rest);
      StripLeftOf(b, r);
    }
  }

  /** One line of the loop. */
  lemma LineMeans(env: Env, line: string)
    ensures Skipped(line) ==> ReadLine(env, line) == Some(env) && forall key :: !BindsKey(line, key)
    ensures forall key, value :: Binds(line, key, value) ==> ReadLine(env, line) == Some(Put(env, key, value))
    ensures ReadLine(env, line).None? <==> Bad(line)
  {
    SkippedIff(line);
    BindsIff(line);
    if Skipped(line) {
      SkippedBindsNothing(line);
    } else if Bound(line).Some? {
      assert Binds(line, Bound(line).value.0, Bound(line).value.1);
      assert BindsKey(line, Bound(line).value.0);
    }
  }

  // ----- all lines -----

  /** The last line of the text that binds the key. */
  ghost predicate LastBinds(lines: seq<string>, i: nat, key: string, value: string) {
    i < |lines| && Binds(lines[i], key, value) && forall j :: i < j < |lines| ==> !BindsKey(lines[j], key)
  }

  ghost predicate FirstBad(lines: seq<string>, i: nat) {
    i < |lines| && Bad(lines[i]) && forall j :: 0 <= j < i ==> !Bad(lines[j])
  }

  lemma {:induction false} ReadSnoc(env: Env, lines: seq<string>, line: string, number: nat)
    ensures ReadLines(env, lines + [line], number) ==
            match ReadLines(env, lines, number)
            case Malformed(n) => Malformed(n)
            case Parsed(before) => (match ReadLine(before, line) case None => Malformed(number + |lines|) case Some(next) => Parsed(next))
    decreases |lines|
  {
    var all := lines + [line];
    if lines == [] {
      assert all == [line] && all[1..] == [];
    } else {
      assert all[0] == lines[0] && all[1..] == lines[1..] + [line];
      match ReadLine(env, lines[0])
      case None =>
      case Some(next) => ReadSnoc(next, lines[1..], line, number + 1);
    }
  }

  /** A reading fails at the first bad line, and only there. */
  lemma {:induction false} MalformedIff(lines: seq<string>)
    ensures match ReadLines([], lines, 1)
            case Malformed(n) => n > 0 && FirstBad(lines, n - 1)
            case Parsed(_) => forall i :: 0 <= i < |lines| ==> !Bad(lines[i])
    decreases |lines|
  {
    if lines != [] {
      var n := |lines| - 1;
      assert lines == lines[..n] + [lines[n]];
      MalformedIff(lines[..n]);
      ReadSnoc([], lines[..n], lines[n], 1);
      var before := ReadLines([], lines[..n], 1);
      assert forall i :: 0 <= i < n ==> lines[..n][i] == lines[i];
      if before.Parsed? {
        LineMeans(before.env, lines[n]);
      }
    }
  }

  /** What was read answers each key with the last line that binds it, and no other key. */
  lemma {:induction false} ReadAnswers(lines: seq<string>, key: string, value: string)
    requires ReadLines([], lines, 1).Parsed?
    ensures Lookup(ReadLines([], lines, 1).env, key) == Some(value) <==> exists i: nat :: LastBinds(lines, i, key, value)
    decreases |lines|
  {
    if lines != [] {
      var n, line := |lines| - 1, lines[|lines| - 1];
      assert lines == lines[..n] + [line];
      ReadSnoc([], lines[..n], line, 1);
      var before := ReadLines([], lines[..n], 1).env;
      LineMeans(before, line);
      ReadAnswers(lines[..n], key, value);
      assert !Bad(line);
      LastSplits(lines, n, key, value);
      if Bound(line).Some? && !Skipped(line) {
        BindsIff(line);
        PutLookup(before, Bound(line).value.0, Bound(line).value.1, key);
      } else {
        NothingBound(line);
      }
    }
  }

  lemma NothingBound(line: string)
    requires !Bad(line) && (Bound(line).None? || Skipped(line))
    ensures Skipped(line) && forall key :: !BindsKey(line, key)
  {
    BindsIff(line);
    LineMeans([], line);
  }

  /** The last binding is in the last line, or is the last of the lines before if the last line does not bind the key. */
  lemma LastSplits(lines: seq<string>, n: nat, key: string, value: string)
    requires n == |lines| - 1
    ensures (exists i: nat :: LastBinds(lines, i, key, value)) <==>
            (Binds(lines[n], key, value) || (!BindsKey(lines[n], key) && exists i: nat :: LastBinds(lines[..n], i, key, value)))
  {
    if i: nat :| LastBinds(lines, i, key, value) {
      if i < n {
        assert LastBinds(lines[..n], i, key, value);
      }
    }
    if Binds(lines[n], key, value) {
      assert LastBinds(lines, n, key, value);
    } else if !BindsKey(lines[n], key) {
      if i: nat :| LastBinds(lines[..n], i, key, value) {
        assert lines[..n][i] == lines[i];
        assert forall j :: i < j < n ==> lines[..n][j] == lines[j];
        assert LastBinds(lines, i, key, value);
      }
    }
  }

  /** Blank and comment lines can be put in or taken out anywhere. */
  lemma {:induction false} SkippedIrrelevant(env: Env, before: seq<string>, line: string, after: seq<string>, number: nat)
    requires Skipped(line)
    ensures var (blank, without) := (ReadLines(env, before + [line] + after, number), ReadLines(env, before + after, number));
            if without.Parsed? then blank == without else blank.Malformed?
    decreases |before|
  {
    var all, rest := before + [line] + after, before + after;
    if before == [] {
      assert all == [line] + after && rest == after;
      assert all[0] == line && all[1..] == after;
      LineMeans(env, line);
      NumbersShift(env, after, number, number + 1);
    } else {
      assert all[0] == before[0] && all[1..] == before[1..] + [line] + after;
      assert rest[0] == before[0] && rest[1..] == before[1..] + after;
      match ReadLine(env, before[0])
      case None =>
      case Some(next) => SkippedIrrelevant(next, before[1..], line, after, number + 1);
    }
  }

  lemma {:induction false} NumbersShift(env: Env, lines: seq<string>, m: nat, n: nat)
    ensures var (a, b) := (ReadLines(env, lines, m), ReadLines(env, lines, n)); if a.Parsed? then b == a else b.Malformed?
    decreases |lines|
  {
    if lines != [] {
      match ReadLine(env, lines[0])
      case None =>
      case Some(next) => NumbersShift(next, lines[1..], m + 1, n + 1);
    }
  }

  // ----- the order of the keys -----

  /** The first line of the text that binds the key. */
  ghost predicate FirstBinds(lines: seq<string>, i: nat, key: string) {
    i < |lines| && BindsKey(lines[i], key) && forall j :: 0 <= j < i ==> !BindsKey(lines[j], key)
  }

  ghost predicate IsBound(lines: seq<string>, key: string) {
    exists i: nat :: FirstBinds(lines, i, key)
  }

  /** The keys of the mapping are those the text binds, in the order in which it first binds them. */
  ghost predicate Ordered(lines: seq<string>, keys: seq<string>) {
    && (forall key :: key in keys <==> IsBound(lines, key))
    && forall a: nat, b: nat, i: nat, j: nat :: a < b < |keys| && FirstBinds(lines, i, keys[a]) && FirstBinds(lines, j, keys[b]) ==> i < j
  }

  function KeysOf(env: Env): (keys: seq<string>)
    ensures |keys| == |env| && forall i :: 0 <= i < |env| ==> keys[i] == env[i].0
  {
    seq(|env|, i requires 0 <= i < |env| => env[i].0)
  }

  lemma FirstKept(lines: seq<string>, line: string, i: nat, key: string)
    ensures FirstBinds(lines, i, key) ==> FirstBinds(lines + [line], i, key)
    ensures FirstBinds(lines + [line], i, key) ==> FirstBinds(lines, i, key) || (i == |lines| && !IsBound(lines, key) && BindsKey(line, key))
  {
    assert forall j :: 0 <= j < |lines| ==> (lines + [line])[j] == lines[j];
  }

  lemma {:induction false} FirstOf(lines: seq<string>, j: nat, key: string) returns (i: nat)
    requires j < |lines| && BindsKey(lines[j], key)
    ensures FirstBinds(lines, i, key)
  {
    if k: nat :| k < j && BindsKey(lines[k], key) {
      i := FirstOf(lines, k, key);
    } else {
      i := j;
    }
  }

  lemma BoundKept(lines: seq<string>, line: string, key: string)
    ensures IsBound(lines + [line], key) <==> IsBound(lines, key) || BindsKey(line, key)
  {
    if i: nat :| FirstBinds(lines, i, key) {
      FirstKept(lines, line, i, key);
    }
    if i: nat :| FirstBinds(lines + [line], i, key) {
      FirstKept(lines, line, i, key);
    }
    if BindsKey(line, key) {
      assert (lines + [line])[|lines|] == line;
      var i := FirstOf(lines + [line], |lines|, key);
    }
  }

  /** A line that binds no new key. */
  lemma OrderKept(lines: seq<string>, line: string, keys: seq<string>)
    requires Ordered(lines, keys) && forall key :: BindsKey(line, key) ==> key in keys
    ensures Ordered(lines + [line], keys)
  {
    forall key ensures key in keys <==> IsBound(lines + [line], key) {
      BoundKept(lines, line, key);
    }
    forall a: nat, b: nat, i: nat, j: nat | a < b < |keys| && FirstBinds(lines + [line], i, keys[a]) && FirstBinds(lines + [line], j, keys[b])
      ensures i < j
    {
      FirstKept(lines, line, i, keys[a]);
      FirstKept(lines, line, j, keys[b]);
    }
  }

  /** A line that binds a new key. */
  lemma OrderGrows(lines: seq<string>, line: string, keys: seq<string>, added: string)
    requires Ordered(lines, keys) && added !in keys && forall key :: BindsKey(line, key) <==> key == added
    ensures Ordered(lines + [line], keys + [added])
  {
    var more := keys + [added];
    forall key ensures key in more <==> IsBound(lines + [line], key) {
      BoundKept(lines, line, key);
    }
    forall a: nat, b: nat, i: nat, j: nat | a < b < |more| && FirstBinds(lines + [line], i, more[a]) && FirstBinds(lines + [line], j, more[b])
      ensures i < j
    {
      FirstKept(lines, line, i, more[a]);
      FirstKept(lines, line, j, more[b]);
      assert more[a] == keys[a] && keys[a] in keys;
      assert b < |keys| ==> more[b] == keys[b];
    }
  }

  lemma IndexInKeys(env: Env, key: string)
    ensures IndexOf(env, key) < |env| <==> key in KeysOf(env)
  {
    if IndexOf(env, key) < |env| {
      assert KeysOf(env)[IndexOf(env, key)] == key;
    }
    if key in KeysOf(env) {
      var i :| 0 <= i < |env| && KeysOf(env)[i] == key;
    }
  }

  lemma PutKeys(env: Env, key: string, value: string)
    ensures KeysOf(Put(env, key, value)) == if key in KeysOf(env) then KeysOf(env) else KeysOf(env) + [key]
  {
    IndexInKeys(env, key);
  }

  /** Keys stand in the order in which the text first binds them. */
  lemma {:induction false} KeysInOrder(lines: seq<string>)
    requires ReadLines([], lines, 1).Parsed?
    ensures Ordered(lines, KeysOf(ReadLines([], lines, 1).env))
    decreases |lines|
  {
    if lines != [] {
      var n, line := |lines| - 1, lines[|lines| - 1];
      assert lines == lines[..n] + [line];
      ReadSnoc([], lines[..n], line, 1);
      var before := ReadLines([], lines[..n], 1).env;
      KeysInOrder(lines[..n]);
      LineMeans(before, line);
      assert !Bad(line);
      if Skipped(line) {
        OrderKept(lines[..n], line, KeysOf(before));
      } else {
        var key :| BindsKey(line, key);
        var value :| Binds(line, key, value);
        NextKey(lines[..n], line, before, key, value);
      }
    }
  }

  lemma NextKey(lines: seq<string>, line: string, env: Env, key: string, value: string)
    requires Ordered(lines, KeysOf(env)) && Binds(line, key, value)
    ensures Ordered(lines + [line], KeysOf(Put(env, key, value)))
  {
    BindsIff(line);
    PutKeys(env, key, value);
    assert forall k :: BindsKey(line, k) <==> k == key;
    if key in KeysOf(env) {
      OrderKept(lines, line, KeysOf(env));
    } else {
      OrderGrows(lines, line, KeysOf(env), key);
    }
  }

  // ----- shapes, to the letter -----

  const CAPITALS := "ABCDEFGHIJKLMNOPQRSTUVWXYZ"
  const SMALL := "abcdefghijklmnopqrstuvwxyz"
  const DIGITS := "0123456789"

  /** `[A-Za-z_][A-Za-z0-9_]*` */
  predicate IsName(key: string) {
    key != "" && key[0] !in DIGITS && forall c :: c in key ==> c in CAPITALS || c in SMALL || c in DIGITS || c == '_'
  }

  lemma CapitalIff(c: char)
    ensures 'A' <= c <= 'Z' <==> c in CAPITALS
  {
    assert c == (c as int) as char;
  }

  lemma SmallIff(c: char)
    ensures 'a' <= c <= 'z' <==> c in SMALL
  {
    assert c == (c as int) as char;
  }

  lemma DigitIff(c: char)
    ensures '0' <= c <= '9' <==> c in DIGITS
  {
    assert c == (c as int) as char;
  }

  lemma KeyIff(key: string)
    ensures IsKey(key) <==> IsName(key)
  {
    forall c
      ensures IsKeyChar(c) <==> c in CAPITALS || c in SMALL || c in DIGITS || c == '_'
      ensures IsKeyStart(c) <==> IsKeyChar(c) && c !in DIGITS
    {
      CapitalIff(c);
      SmallIff(c);
      DigitIff(c);
    }
  }

  /** Escaped quotes and characters that are no quotes, one after the other. */
  predicate Units(s: string) {
    || s == ""
    || (|s| >= 2 && s[0] == '\\' && s[1] == '\'' && Units(s[2..]))
    || (s[0] != '\'' && Units(s[1..]))
  }

  lemma {:induction false} BodyIff(s: string)
    ensures IsBody(s) <==> Units(s)
  {
    if s != "" {
      BodyIff(s[1..]);
      assert forall i :: 0 <= i < |s| - 1 ==> s[1..][i] == s[i + 1];
      if |s| >= 2 {
        BodyIff(s[2..]);
        assert forall i :: 0 <= i < |s| - 2 ==> s[2..][i] == s[i + 2];
      }
      if |s| >= 2 && s[1] == '\'' {
        assert !IsBody(s[1..]) by {
          assert s[1..][0] == '\'';
        }
      }
      BodyStep(s);
    }
  }

  /** The first unit of a body, and the rest. */
  lemma BodyStep(s: string)
    requires s != ""
    ensures IsBody(s) <==>
            s[0] != '\'' && if |s| >= 2 && s[1] == '\'' then s[0] == '\\' && IsBody(s[2..]) else IsBody(s[1..])
  {
    assert forall i :: 0 <= i < |s| - 1 ==> s[1..][i] == s[i + 1];
    if |s| >= 2 {
      assert forall i :: 0 <= i < |s| - 2 ==> s[2..][i] == s[i + 2];
    }
  }

  predicate LiteralShape(line: string, before: string, key: string, body: string, gap: string, after: string) {
    && AllSpace(before) && IsName(key) && Units(body) && gap != "" && AllSpace(gap) && AllSpace(after)
    && line == before + key + "='" + body + "'" + gap + "# mediaflux-literal" + after
  }

  /** The literal form, as the expression spells it. */
  lemma LiteralShapeIff(line: string, before: string, key: string, body: string, gap: string, after: string)
    ensures LiteralCut(line, before, key, body, gap, after) <==> LiteralShape(line, before, key, body, gap, after)
  {
    KeyIff(key);
    BodyIff(body);
  }

  /** And the plain one. */
  lemma PlainShapeIff(line: string, before: string, key: string, value: string)
    ensures PlainCut(line, before, key, value) <==> AllSpace(before) && IsName(key) && line == before + key + "=" + value
  {
    KeyIff(key);
  }

  /** What may be written: a name, and a value without NUL and without a line break. */
  lemma ItemIff(item: (string, string))
    ensures ValidItem(item) <==> IsName(item.0) && forall c :: c in item.1 ==> c != '\0' && !IsLineBreak(c)
  {
    KeyIff(item.0);
  }

  /** And how it is written. */
  lemma LineIs(item: (string, string))
    ensures Line(item) == item.0 + "='" + Escape(item.1) + "'" + " # mediaflux-literal"
  {
    assert item.0 + "='" + Escape(item.1) + "' # mediaflux-literal" == item.0 + "='" + Escape(item.1) + ("'" + " # mediaflux-literal");
  }
}
