/**
 * The text form of user.env: `_serialize_env` of app/config.py prints it,
 * `read_env_text` of app/env_file.py parses it. The parser's two regular
 * expressions are stated as relations (a line matches when it can be cut into
 * the parts the expression names), and the reader's decisions are proved to be
 * those relations.
 */
module EnvFile {
  import opened Basics
  import opened Text

  const MARKER := "# mediaflux-literal"
  const TAIL := "' # mediaflux-literal"

  predicate IsKeyStart(c: char) {
    'A' <= c <= 'Z' || 'a' <= c <= 'z' || c == '_'
  }

  predicate IsKeyChar(c: char) {
    IsKeyStart(c) || '0' <= c <= '9'
  }

  predicate IsKey(s: string) {
    s != [] && IsKeyStart(s[0]) && forall c :: c in s ==> IsKeyChar(c)
  }

  predicate IsValue(s: string) {
    forall c :: c in s ==> c != '\0' && !IsLineBreak(c)
  }

  /** A Python dict: insertion-ordered, with distinct keys. */
  type Env = seq<(string, string)>

  predicate Distinct(env: Env) {
    forall i, j :: 0 <= i < j < |env| ==> env[i].0 != env[j].0
  }

  function IndexOf(env: Env, key: string): (i: nat)
    ensures i <= |env| && (i < |env| ==> env[i].0 == key)
    ensures forall k :: 0 <= k < i ==> env[k].0 != key
  {
    if env == [] || env[0].0 == key then 0 else 1 + IndexOf(env[1..], key)
  }

  /** `env[key] = value`: an existing key keeps its place. */
  function Put(env: Env, key: string, value: string): (r: Env)
    ensures Distinct(env) ==> Distinct(r)
    ensures exists i :: 0 <= i < |r| && r[i] == (key, value)
  {
    var i := IndexOf(env, key);
    if i < |env| then
      var r := env[i := (key, value)];
      assert r[i] == (key, value);
      r
    else
      var r := env + [(key, value)];
      assert r[|env|] == (key, value);
      r
  }

  predicate ValidItem(item: (string, string)) {
    IsKey(item.0) && IsValue(item.1)
  }

  predicate ValidEnv(env: Env) {
    Distinct(env) && forall i :: 0 <= i < |env| ==> ValidItem(env[i])
  }

  // ----- quoting -----

  /** `value.replace("'", "\\'")` */
  function Escape(v: string): string {
    if v == [] then []
    else (if v[0] == '\'' then ['\\', '\''] else [v[0]]) + Escape(v[1..])
  }

  /** `encoded.replace("\\'", "'")`, left to right without overlap. */
  function Unescape(s: string): string {
    if s == [] then []
    else if |s| >= 2 && s[0] == '\\' && s[1] == '\'' then ['\''] + Unescape(s[2..])
    else [s[0]] + Unescape(s[1..])
  }

  /** `(?:\\'|[^'])*`: every quote follows a backslash. */
  predicate IsBody(s: string) {
    forall i :: 0 <= i < |s| && s[i] == '\'' ==> i > 0 && s[i - 1] == '\\'
  }

  lemma {:induction false} EscapeInverse(v: string)
    ensures Unescape(Escape(v)) == v
    ensures v == [] || Escape(v)[0] != '\''
  {
    if v != [] {
      EscapeInverse(v[1..]);
      var rest := Escape(v[1..]);
      if v[0] == '\'' {
        assert Escape(v)[2..] == rest;
      } else {
        assert Escape(v) == [v[0]] + rest && Escape(v)[1..] == rest;
      }
    }
  }

  lemma {:induction false} EscapeIsBody(v: string)
    ensures IsBody(Escape(v))
    ensures forall c :: c in Escape(v) ==> c in v || c == '\\'
  {
    if v != [] {
      EscapeIsBody(v[1..]);
      var rest := Escape(v[1..]);
      var front := if v[0] == '\'' then ['\\', '\''] else [v[0]];
      assert Escape(v) == front + rest;
      forall i | 0 <= i < |front + rest| && (front + rest)[i] == '\'' ensures i > 0 && (front + rest)[i - 1] == '\\' {
        if i >= |front| {
          assert rest[i - |front|] == '\'';
        }
      }
    }
  }

  // ----- lines -----

  /** The literal form: spaces, key, quoted body, spaces, marker, spaces. */
  ghost predicate LiteralCut(line: string, before: string, key: string, body: string, gap: string, after: string) {
    && AllSpace(before) && IsKey(key) && IsBody(body) && gap != [] && AllSpace(gap) && AllSpace(after)
    && line == before + key + "='" + body + "'" + gap + MARKER + after
  }

  /** The plain form: spaces, key, and whatever follows the equals sign. */
  ghost predicate PlainCut(line: string, before: string, key: string, value: string) {
    AllSpace(before) && IsKey(key) && line == before + key + "=" + value
  }

  function KeyLength(s: string): (n: nat)
    ensures n <= |s| && (forall c :: c in s[..n] ==> IsKeyChar(c)) && (n < |s| ==> !IsKeyChar(s[n]))
  {
    if s != [] && IsKeyChar(s[0]) then
      var n := KeyLength(s[1..]);
      assert s[..n + 1] == [s[0]] + s[1..][..n];
      n + 1
    else 0
  }

  /** How the plain expression cuts a line: the key ends at the first character that cannot belong to it. */
  function Plain(line: string): Option<(string, string)> {
    var s := StripLeft(line);
    var n := KeyLength(s);
    if n < |s| && s[n] == '=' && IsKey(s[..n]) then Some((s[..n], s[n + 1..])) else None
  }

  function LastQuote(s: string): (q: int)
    ensures -1 <= q < |s| && (q >= 0 ==> s[q] == '\'') && forall k :: q < k < |s| ==> s[k] != '\''
  {
    if s == [] then -1
    else if s[|s| - 1] == '\'' then |s| - 1
    else LastQuote(s[..|s| - 1])
  }

  /** How the literal expression cuts what follows the equals sign: the closing quote is forced to be the last one. */
  function Quoted(rest: string): Option<string> {
    var q := LastQuote(rest);
    if q >= 1 && rest[0] == '\'' && IsBody(rest[1..q]) && q + 1 < |rest| && IsSpace(rest[q + 1]) && Strip(rest[q + 1..]) == MARKER
    then Some(rest[1..q]) else None
  }

  function Literal(line: string): Option<(string, string)> {
    match Plain(line)
    case None => None
    case Some((key, rest)) =>
      match Quoted(rest)
      case None => None
      case Some(body) => Some((key, body))
  }

  lemma {:induction false} StripLeftCut(s: string)
    ensures exists before :: AllSpace(before) && s == before + StripLeft(s)
  {
    if s != [] && IsSpace(s[0]) {
      StripLeftCut(s[1..]);
      var before :| AllSpace(before) && s[1..] == before + StripLeft(s[1..]);
      assert AllSpace([s[0]] + before) && s == ([s[0]] + before) + StripLeft(s);
    } else {
      assert AllSpace([]) && s == [] + StripLeft(s);
    }
  }

  lemma {:induction false} StripRightCut(s: string)
    ensures exists after :: AllSpace(after) && s == StripRight(s) + after
  {
    if s != [] && IsSpace(s[|s| - 1]) {
      StripRightCut(s[..|s| - 1]);
      var after :| AllSpace(after) && s[..|s| - 1] == StripRight(s[..|s| - 1]) + after;
      assert AllSpace(after + [s[|s| - 1]]) && s == StripRight(s) + (after + [s[|s| - 1]]);
    } else {
      assert AllSpace([]) && s == StripRight(s) + [];
    }
  }

  lemma {:induction false} StripLeftOf(before: string, rest: string)
    requires AllSpace(before) && (rest == [] || !IsSpace(rest[0]))
    ensures StripLeft(before + rest) == rest
  {
    if before == [] {
      assert before + rest == rest;
    } else {
      StripLeftOf(before[1..], rest);
      assert (before + rest)[0] in before;
      assert (before + rest)[1..] == before[1..] + rest;
    }
  }

  lemma {:induction false} StripRightOf(front: string, after: string)
    requires AllSpace(after) && (front == [] || !IsSpace(front[|front| - 1]))
    ensures StripRight(front + after) == front
  {
    if after == [] {
      assert front + after == front;
    } else {
      var n := |after| - 1;
      StripRightOf(front, after[..n]);
      assert (front + after)[|front| + n] == after[n] && after[n] in after;
      assert (front + after)[..|front| + n] == front + after[..n];
    }
  }

  lemma {:induction false} KeyLengthOf(key: string, rest: string)
    requires (forall c :: c in key ==> IsKeyChar(c)) && (rest == [] || !IsKeyChar(rest[0]))
    ensures KeyLength(key + rest) == |key|
  {
    if key == [] {
      assert key + rest == rest;
    } else {
      assert forall c :: c in key[1..] ==> c in key;
      KeyLengthOf(key[1..], rest);
      assert (key + rest)[0] in key;
      assert (key + rest)[1..] == key[1..] + rest;
    }
  }

  lemma {:induction false} LastQuoteOf(front: string, rest: string)
    requires front != [] && front[|front| - 1] == '\'' && (forall c :: c in rest ==> c != '\'')
    ensures LastQuote(front + rest) == |front| - 1
  {
    var n := |rest| - 1;
    if rest == [] {
      assert front + rest == front;
    } else {
      assert forall c :: c in rest[..n] ==> c in rest;
      LastQuoteOf(front, rest[..n]);
      assert (front + rest)[|front| + n] == rest[n] && rest[n] in rest;
      assert (front + rest)[..|front| + n] == front + rest[..n];
    }
  }

  lemma PlainIfCut(line: string, before: string, key: string, value: string)
    requires PlainCut(line, before, key, value)
    ensures Plain(line) == Some((key, value))
  {
    var s := key + ("=" + value);
    assert line == before + s;
    assert s[0] == key[0] && IsKeyStart(key[0]);
    StripLeftOf(before, s);
    KeyLengthOf(key, "=" + value);
    assert s[..|key|] == key && s[|key| + 1..] == value;
  }

  lemma CutIfPlain(line: string, key: string, value: string)
    requires Plain(line) == Some((key, value))
    ensures exists before :: PlainCut(line, before, key, value)
  {
    StripLeftCut(line);
    var before :| AllSpace(before) && line == before + StripLeft(line);
    assert StripLeft(line) == key + "=" + value;
    assert line == before + key + "=" + value;
    assert PlainCut(line, before, key, value);
  }

  /** The plain reader decides exactly the plain expression, which therefore cuts a line in one way only. */
  lemma PlainIffCut(line: string, key: string, value: string)
    ensures Plain(line) == Some((key, value)) <==> exists before :: PlainCut(line, before, key, value)
  {
    if Plain(line) == Some((key, value)) {
      CutIfPlain(line, key, value);
    }
    if before :| PlainCut(line, before, key, value) {
      PlainIfCut(line, before, key, value);
    }
  }

  /** The quoted part of a literal line. */
  ghost predicate QuotedCut(rest: string, body: string, gap: string, after: string) {
    IsBody(body) && gap != [] && AllSpace(gap) && AllSpace(after) && rest == "'" + body + "'" + gap + MARKER + after
  }

  lemma MarkerTail(gap: string, after: string)
    requires gap != [] && AllSpace(gap) && AllSpace(after)
    ensures var tail := gap + MARKER + after;
            Strip(tail) == MARKER && IsSpace(tail[0]) && forall c :: c in tail ==> c != '\''
  {
    var tail := gap + MARKER + after;
    assert tail == gap + (MARKER + after);
    assert tail[0] in gap;
    StripLeftOf(gap, MARKER + after);
    StripRightOf(MARKER, after);
    forall i | 0 <= i < |tail| ensures tail[i] != '\'' {
      if i < |gap| {
        assert tail[i] in gap;
      } else if i >= |gap| + |MARKER| {
        assert tail[i] == after[i - |gap| - |MARKER|] && tail[i] in after;
      } else {
        assert tail[i] == MARKER[i - |gap|];
      }
    }
  }

  lemma QuotedIfCut(rest: string, body: string, gap: string, after: string)
    requires QuotedCut(rest, body, gap, after)
    ensures Quoted(rest) == Some(body)
  {
    var front, tail := "'" + body + "'", gap + MARKER + after;
    assert rest == front + tail;
    MarkerTail(gap, after);
    LastQuoteOf(front, tail);
    assert rest[1..|body| + 1] == body;
    assert rest[|front|..] == tail;
  }

  /** A tail that strips to the marker and starts with a space has a gap before the marker. */
  lemma TailCut(tail: string) returns (gap: string, after: string)
    requires tail != [] && IsSpace(tail[0]) && Strip(tail) == MARKER
    ensures gap != [] && AllSpace(gap) && AllSpace(after) && tail == gap + MARKER + after
  {
    StripLeftCut(tail);
    gap :| AllSpace(gap) && tail == gap + StripLeft(tail);
    StripRightCut(StripLeft(tail));
    after :| AllSpace(after) && StripLeft(tail) == MARKER + after;
    assert tail == gap + (MARKER + after) && !IsSpace(MARKER[0]);
    assert (gap + (MARKER + after))[0] == tail[0];
  }

  lemma CutIfQuoted(rest: string)
    requires Quoted(rest).Some?
    ensures exists gap, after :: QuotedCut(rest, Quoted(rest).value, gap, after)
  {
    var q := LastQuote(rest);
    var body, tail := rest[1..q], rest[q + 1..];
    var gap, after := TailCut(tail);
    assert rest == "'" + body + "'" + tail;
    Regroup("'" + body + "'", gap, after);
    assert QuotedCut(rest, body, gap, after);
  }

  lemma Regroup(front: string, gap: string, after: string)
    ensures front + (gap + MARKER + after) == front + gap + MARKER + after
  {
  }

  lemma LiteralIfCut(line: string, before: string, key: string, body: string, gap: string, after: string)
    requires LiteralCut(line, before, key, body, gap, after)
    ensures Literal(line) == Some((key, body))
  {
    var rest := "'" + body + "'" + gap + MARKER + after;
    SameLine(before, key, body, gap, after);
    PlainIfCut(line, before, key, rest);
    QuotedIfCut(rest, body, gap, after);
  }

  lemma CutIfLiteral(line: string, key: string, body: string)
    requires Literal(line) == Some((key, body))
    ensures exists before, gap, after :: LiteralCut(line, before, key, body, gap, after)
  {
    var rest := Plain(line).value.1;
    CutIfPlain(line, key, rest);
    var before :| PlainCut(line, before, key, rest);
    CutIfQuoted(rest);
    var gap, after :| QuotedCut(rest, body, gap, after);
    SameLine(before, key, body, gap, after);
    assert LiteralCut(line, before, key, body, gap, after);
  }

  lemma SameLine(before: string, key: string, body: string, gap: string, after: string)
    ensures before + key + "=" + ("'" + body + "'" + gap + MARKER + after) == before + key + "='" + body + "'" + gap + MARKER + after
  {
    var front, tail := before + key, body + "'" + gap + MARKER + after;
    assert "'" + body + "'" + gap + MARKER + after == "'" + tail;
    assert front + "=" + ("'" + tail) == front + "='" + tail;
    assert front + "='" + tail == front + "='" + body + "'" + gap + MARKER + after;
  }

  /** The literal reader decides exactly the literal expression: the cut, and with it the decoded value, is unique. */
  lemma LiteralIffCut(line: string, key: string, body: string)
    ensures Literal(line) == Some((key, body)) <==> exists before, gap, after :: LiteralCut(line, before, key, body, gap, after)
  {
    if Literal(line) == Some((key, body)) {
      CutIfLiteral(line, key, body);
    }
    if before, gap, after :| LiteralCut(line, before, key, body, gap, after) {
      LiteralIfCut(line, before, key, body, gap, after);
    }
  }

  // ----- reading -----

  datatype Reading = Parsed(env: Env) | Malformed(line: nat)

  /** One line: blank and comment lines are skipped, later keys overwrite. */
  function ReadLine(env: Env, line: string): Option<Env> {
    var stripped := Strip(line);
    if stripped == [] || stripped[0] == '#' then Some(env)
    else
      match Literal(line)
      case Some((key, body)) => Some(Put(env, key, Unescape(body)))
      case None =>
        match Plain(line)
        case Some((key, value)) => Some(Put(env, key, Strip(value)))
        case None => None
  }

  function ReadLines(env: Env, lines: seq<string>, number: nat): Reading
    decreases |lines|
  {
    if lines == [] then Parsed(env)
    else
      match ReadLine(env, lines[0])
      case None => Malformed(number)
      case Some(next) => ReadLines(next, lines[1..], number + 1)
  }

  method ReadOne(env: Env, line: string) returns (next: Option<Env>)
    ensures next == ReadLine(env, line)
  {
    var stripped := Strip(line);
    if stripped == [] || stripped[0] == '#' {
      return Some(env);
    }
    var literal := Literal(line);
    if literal.Some? {
      return Some(Put(env, literal.value.0, Unescape(literal.value.1)));
    }
    var plain := Plain(line);
    if plain.Some? {
      return Some(Put(env, plain.value.0, Strip(plain.value.1)));
    }
    next := None;
  }

  method ReadEnvText(text: string) returns (result: Reading)
    ensures result == ReadLines([], SplitLines(text), 1)
  {
    var lines := SplitLines(text);
    var env: Env := [];
    var i := 0;
    assert lines[0..] == lines;
    while i < |lines|
      invariant i <= |lines| && ReadLines([], lines, 1) == ReadLines(env, lines[i..], i + 1)
    {
      ReadLinesNext(env, lines, i);
      var next := ReadOne(env, lines[i]);
      if next.None? {
        return Malformed(i + 1);
      }
      env := next.value;
      i := i + 1;
    }
    assert lines[i..] == [];
    result := Parsed(env);
  }

  lemma ReadLinesNext(env: Env, lines: seq<string>, i: nat)
    requires i < |lines|
    ensures ReadLines(env, lines[i..], i + 1) ==
            match ReadLine(env, lines[i])
            case None => Malformed(i + 1)
            case Some(next) => ReadLines(next, lines[i + 1..], i + 2)
  {
    assert lines[i..][0] == lines[i] && lines[i..][1..] == lines[i + 1..];
  }

  // ----- printing -----

  function Line(item: (string, string)): string {
    item.0 + "='" + Escape(item.1) + TAIL
  }

  function Document(env: Env): string {
    if env == [] then "" else Line(env[0]) + "\n" + Document(env[1..])
  }

  function Join(lines: seq<string>): string {
    if lines == [] then "" else if |lines| == 1 then lines[0] else lines[0] + "\n" + Join(lines[1..])
  }

  lemma {:induction false} JoinDocument(env: Env, lines: seq<string>)
    requires |lines| == |env| && forall i :: 0 <= i < |env| ==> lines[i] == Line(env[i])
    ensures Document(env) == Join(lines) + (if lines != [] then "\n" else "")
  {
    if |env| == 1 {
      assert Document(env[1..]) == "";
    } else if env != [] {
      JoinDocument(env[1..], lines[1..]);
      assert lines[0] + "\n" + (Join(lines[1..]) + "\n") == Join(lines) + "\n";
    }
  }

  /** Refuses exactly the mappings with an item that the validator rejects. */
  method SerializeEnv(env: Env) returns (text: Option<string>)
    ensures text == if forall i :: 0 <= i < |env| ==> ValidItem(env[i]) then Some(Document(env)) else None
  {
    var lines: seq<string> := [];
    var i := 0;
    while i < |env|
      invariant i <= |env| && |lines| == i
      invariant forall k :: 0 <= k < i ==> ValidItem(env[k]) && lines[k] == Line(env[k])
    {
      if !ValidItem(env[i]) {
        return None;
      }
      var escaped := Escape(env[i].1);
      lines := lines + [env[i].0 + "='" + escaped + TAIL];
      i := i + 1;
    }
    JoinDocument(env, lines);
    text := Some(Join(lines) + (if lines != [] then "\n" else ""));
  }

  // ----- parsing inverts printing -----

  lemma LineReadsBack(item: (string, string))
    requires ValidItem(item)
    ensures Literal(Line(item)) == Some((item.0, Escape(item.1))) && NoBreak(Line(item))
    ensures Strip(Line(item)) != [] && Strip(Line(item))[0] != '#'
  {
    var (key, value) := item;
    var line := Line(item);
    EscapeIsBody(value);
    assert AllSpace([]) && AllSpace(" ");
    assert line == [] + key + "='" + Escape(value) + "'" + " " + MARKER + [];
    LiteralIfCut(line, [], key, Escape(value), " ", []);
    assert line[0] == key[0] && line[|line| - 1] == 'l';
    StripSolid(line);
    LineNoBreak(key, value);
  }

  lemma LineNoBreak(key: string, value: string)
    requires IsKey(key) && IsValue(value)
    ensures NoBreak(Line((key, value)))
  {
    EscapeNoBreak(value);
    FixedNoBreak();
    assert NoBreak(key);
    NoBreakConcat(key, "='");
    NoBreakConcat(key + "='", Escape(value));
    NoBreakConcat(key + "='" + Escape(value), TAIL);
  }

  lemma EscapeNoBreak(value: string)
    requires IsValue(value)
    ensures NoBreak(Escape(value))
  {
    EscapeIsBody(value);
  }

  lemma FixedNoBreak()
    ensures NoBreak("='") && NoBreak(TAIL)
  {
  }

  lemma NoBreakConcat(s: string, t: string)
    requires NoBreak(s) && NoBreak(t)
    ensures NoBreak(s + t)
  {
    forall c | c in s + t ensures !IsLineBreak(c) {
      assert c in s || c in t;
    }
  }

  function Lines(env: Env): seq<string> {
    if env == [] then [] else [Line(env[0])] + Lines(env[1..])
  }

  lemma {:induction false} DocumentLines(env: Env)
    requires forall i :: 0 <= i < |env| ==> ValidItem(env[i])
    ensures SplitLines(Document(env)) == Lines(env)
  {
    if env != [] {
      LineReadsBack(env[0]);
      DocumentLines(env[1..]);
      SplitLinesCons(Line(env[0]), Document(env[1..]));
    }
  }

  lemma LineAppends(done: Env, item: (string, string))
    requires ValidItem(item) && forall k :: 0 <= k < |done| ==> done[k].0 != item.0
    ensures ReadLine(done, Line(item)) == Some(done + [item])
  {
    LineReadsBack(item);
    EscapeInverse(item.1);
    assert IndexOf(done, item.0) == |done|;
  }

  lemma NotYetThere(done: Env, env: Env, all: Env)
    requires ValidEnv(all) && env != [] && all == done + env
    ensures ValidItem(env[0]) && forall k :: 0 <= k < |done| ==> done[k].0 != env[0].0
  {
    assert all[|done|] == env[0];
    assert forall k :: 0 <= k < |done| ==> all[k] == done[k];
  }

  lemma ReadNext(done: Env, env: Env, all: Env)
    requires ValidEnv(all) && env != [] && all == done + env
    ensures ReadLine(done, Line(env[0])) == Some(done + [env[0]])
  {
    NotYetThere(done, env, all);
    LineAppends(done, env[0]);
  }

  lemma ReadLinesCons(env: Env, line: string, next: Env, rest: seq<string>, number: nat)
    requires ReadLine(env, line) == Some(next)
    ensures ReadLines(env, [line] + rest, number) == ReadLines(next, rest, number + 1)
  {
    assert ([line] + rest)[1..] == rest;
  }

  lemma {:induction false} ReadsOnto(done: Env, env: Env, all: Env, number: nat)
    requires ValidEnv(all) && all == done + env
    ensures ReadLines(done, Lines(env), number) == Parsed(all)
    decreases |env|
  {
    if env == [] {
      assert all == done;
    } else {
      var next := done + [env[0]];
      assert all == next + env[1..];
      ReadNext(done, env, all);
      ReadLinesCons(done, Line(env[0]), next, Lines(env[1..]), number);
      ReadsOnto(next, env[1..], all, number + 1);
    }
  }

  /** Parsing inverts printing, for every mapping the validator accepts; the order of the keys is kept too. */
  lemma RoundTrip(env: Env)
    requires ValidEnv(env)
    ensures ReadLines([], SplitLines(Document(env)), 1) == Parsed(env)
  {
    DocumentLines(env);
    ReadsOnto([], env, env, 1);
  }

  // ----- printing what was parsed -----

  lemma {:induction false} UnescapeChars(s: string)
    ensures forall c :: c in Unescape(s) ==> c in s
  {
    if s != [] {
      if |s| >= 2 && s[0] == '\\' && s[1] == '\'' {
        UnescapeChars(s[2..]);
      } else {
        UnescapeChars(s[1..]);
      }
    }
  }

  lemma PutValid(env: Env, key: string, value: string)
    requires ValidEnv(env) && IsKey(key) && IsValue(value)
    ensures ValidEnv(Put(env, key, value))
  {
  }

  lemma StripPart(s: string)
    ensures forall c :: c in Strip(s) ==> c in s
  {
    StripLeftCut(s);
    var before :| AllSpace(before) && s == before + StripLeft(s);
    StripRightCut(StripLeft(s));
    var after :| AllSpace(after) && StripLeft(s) == StripRight(StripLeft(s)) + after;
  }

  lemma PlainParts(line: string)
    requires Plain(line).Some?
    ensures IsKey(Plain(line).value.0) && forall c :: c in Plain(line).value.1 ==> c in line
  {
    var (key, value) := Plain(line).value;
    CutIfPlain(line, key, value);
    var before :| PlainCut(line, before, key, value);
    assert line[|before| + |key| + 1..] == value;
  }

  lemma PartValid(part: string, whole: string, line: string)
    requires IsValue(line) && (forall c :: c in part ==> c in whole) && (forall c :: c in whole ==> c in line)
    ensures IsValue(part) && forall c :: c in part ==> c in line
  {
  }

  lemma ReadLineValid(env: Env, line: string)
    requires ValidEnv(env) && IsValue(line) && ReadLine(env, line).Some?
    ensures ValidEnv(ReadLine(env, line).value)
  {
    if Plain(line).Some? {
      PlainParts(line);
      var (key, value) := Plain(line).value;
      if Quoted(value).Some? {
        var body := Quoted(value).value;
        UnescapeChars(body);
        PartValid(body, value, line);
        PartValid(Unescape(body), body, line);
        PutValid(env, key, Unescape(body));
      } else {
        StripPart(value);
        PartValid(Strip(value), value, line);
        PutValid(env, key, Strip(value));
      }
    }
  }

  lemma {:induction false} ReadLinesValid(env: Env, lines: seq<string>, number: nat)
    requires ValidEnv(env) && (forall i :: 0 <= i < |lines| ==> IsValue(lines[i]))
    requires ReadLines(env, lines, number).Parsed?
    ensures ValidEnv(ReadLines(env, lines, number).env)
    decreases |lines|
  {
    if lines != [] {
      ReadLineValid(env, lines[0]);
      ReadLinesValid(ReadLine(env, lines[0]).value, lines[1..], number + 1);
    }
  }

  lemma {:induction false} SplitLinesValues(text: string)
    requires '\0' !in text
    ensures forall i :: 0 <= i < |SplitLines(text)| ==> IsValue(SplitLines(text)[i])
    decreases |text|
  {
    if text != [] {
      var i := LineEnd(text);
      if i < |text| {
        var width := if text[i] == '\r' && i + 1 < |text| && text[i + 1] == '\n' then 2 else 1;
        SplitLinesValues(text[i + width..]);
      }
    }
  }

  /** Whatever can be read, NUL apart, can be printed again and reads back as the same mapping. */
  lemma ReadThenPrint(text: string)
    requires '\0' !in text && ReadLines([], SplitLines(text), 1).Parsed?
    ensures var env := ReadLines([], SplitLines(text), 1).env;
            ValidEnv(env) && ReadLines([], SplitLines(Document(env)), 1) == Parsed(env)
  {
    SplitLinesValues(text);
    ReadLinesValid([], SplitLines(text), 1);
    RoundTrip(ReadLines([], SplitLines(text), 1).env);
  }

  // ----- merging updates -----

  /** `merged.update(updates)` */
  function Merged(env: Env, updates: Env): Env
    decreases |updates|
  {
    if updates == [] then env else Merged(Put(env, updates[0].0, updates[0].1), updates[1..])
  }

  function Lookup(env: Env, key: string): Option<string> {
    var i := IndexOf(env, key);
    if i < |env| then Some(env[i].1) else None
  }

  lemma PutLookup(env: Env, key: string, value: string, k: string)
    ensures Lookup(Put(env, key, value), k) == if k == key then Some(value) else Lookup(env, k)
  {
    var r := Put(env, key, value);
    var i, j := IndexOf(env, k), IndexOf(r, k);
    if k == key {
      assert j < |r|;
      var n := IndexOf(env, key);
      assert r[n] == (key, value);
      assert j == n;
    } else {
      assert forall n :: 0 <= n < |env| ==> (env[n].0 == k <==> r[n].0 == k) && (env[n].0 == k ==> r[n] == env[n]);
    }
  }

  /** A merge answers an updated key with its new value and every other key as before. */
  lemma {:induction false} MergedLookup(env: Env, updates: Env, k: string)
    requires Distinct(updates)
    ensures Lookup(Merged(env, updates), k) == if Lookup(updates, k).Some? then Lookup(updates, k) else Lookup(env, k)
    decreases |updates|
  {
    if updates != [] {
      var (key, value) := updates[0];
      MergedLookup(Put(env, key, value), updates[1..], k);
      PutLookup(env, key, value, k);
      if k == key {
        assert forall n :: 0 <= n < |updates[1..]| ==> updates[1..][n].0 != key;
      }
    }
  }

  lemma {:induction false} MergedValid(env: Env, updates: Env)
    requires ValidEnv(env) && forall i :: 0 <= i < |updates| ==> ValidItem(updates[i])
    ensures ValidEnv(Merged(env, updates))
    decreases |updates|
  {
    if updates != [] {
      PutValid(env, updates[0].0, updates[0].1);
      MergedValid(Put(env, updates[0].0, updates[0].1), updates[1..]);
    }
  }

  /**
   * An update of readable text (NUL apart) by valid items can always be printed,
   * and what is printed reads as the merge: updated keys with the update, all
   * others as they were.
   */
  lemma UpdateReads(text: string, updates: Env, k: string)
    requires '\0' !in text && ReadLines([], SplitLines(text), 1).Parsed?
    requires Distinct(updates) && forall i :: 0 <= i < |updates| ==> ValidItem(updates[i])
    ensures var env := ReadLines([], SplitLines(text), 1).env;
            var reading := ReadLines([], SplitLines(Document(Merged(env, updates))), 1);
            && ValidEnv(Merged(env, updates)) && reading.Parsed?
            && Lookup(reading.env, k) == if Lookup(updates, k).Some? then Lookup(updates, k) else Lookup(env, k)
  {
    var env := ReadLines([], SplitLines(text), 1).env;
    ReadThenPrint(text);
    MergedValid(env, updates);
    RoundTrip(Merged(env, updates));
    MergedLookup(env, updates, k);
  }
}
