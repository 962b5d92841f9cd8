/**
 * The text primitives of app/notifier.py: length in UTF-16 units, the scanner
 * for HTML tags and entities, and the stack of open tags.
 */
module TelegramText {
  import opened Basics
  import opened Text

  // ----- UTF-16 length -----

  function Width(c: char): nat {
    if c as int > 0xFFFF then 2 else 1
  }

  /** `telegram_text_length` */
  function Length(s: string): nat {
    if s == [] then 0 else Width(s[0]) + Length(s[1..])
  }

  lemma {:induction false} LengthConcat(s: string, t: string)
    ensures Length(s + t) == Length(s) + Length(t)
  {
    if s == [] {
      assert s + t == t;
    } else {
      LengthConcat(s[1..], t);
      assert (s + t)[1..] == s[1..] + t;
    }
  }

  lemma {:induction false} LengthPositive(s: string)
    ensures |s| <= Length(s) <= 2 * |s|
  {
    if s != [] {
      LengthPositive(s[1..]);
    }
  }

  lemma LengthNext(s: string, i: nat)
    requires i < |s|
    ensures Length(s[..i + 1]) == Length(s[..i]) + Width(s[i])
  {
    assert s[..i + 1] == s[..i] + [s[i]];
    LengthConcat(s[..i], [s[i]]);
    assert [s[i]][1..] == [];
  }

  lemma LengthPrefix(s: string, i: nat, j: nat)
    requires i <= j <= |s|
    ensures Length(s[..i]) <= Length(s[..j])
  {
    assert s[..j] == s[..i] + s[i..j];
    LengthConcat(s[..i], s[i..j]);
  }

  /** The longest prefix of whole characters within the limit. */
  method Truncate(text: string, limit: nat) returns (result: string)
    ensures result <= text && Length(result) <= limit
    ensures forall n :: |result| < n <= |text| ==> Length(text[..n]) > limit
  {
    var used := 0;
    var end := 0;
    while end < |text|
      invariant end <= |text| && used == Length(text[..end]) && used <= limit
    {
      var width := Width(text[end]);
      LengthNext(text, end);
      if used + width > limit {
        forall n | end < n <= |text| ensures Length(text[..n]) > limit {
          LengthPrefix(text, end + 1, n);
        }
        return text[..end];
      }
      used := used + width;
      end := end + 1;
    }
    assert text[..|text|] == text;
    result := text;
  }

  // ----- tokens -----

  predicate IsDigit(c: char) { '0' <= c <= '9' }

  predicate IsAlpha(c: char) { 'a' <= c <= 'z' || 'A' <= c <= 'Z' }

  predicate IsAlnum(c: char) { IsDigit(c) || IsAlpha(c) }

  predicate IsHex(c: char) { IsDigit(c) || 'a' <= c <= 'f' || 'A' <= c <= 'F' }

  /** Length of the longest prefix whose characters satisfy the predicate. */
  function Span(s: string, p: char -> bool): (n: nat)
    ensures n <= |s| && (forall i :: 0 <= i < n ==> p(s[i])) && (n < |s| ==> !p(s[n]))
  {
    if s != [] && p(s[0]) then 1 + Span(s[1..], p) else 0
  }

  /** `<[^>]+>` at the start: its length, or zero. */
  function TagLength(s: string): (n: nat)
    ensures n <= |s|
  {
    if s == [] || s[0] != '<' then 0
    else
      var j := Span(s, c => c != '>');
      if 2 <= j < |s| then j + 1 else 0
  }

  /** A name of `n` characters from `start`, closed by a semicolon. */
  function Closed(s: string, start: nat, n: nat): nat {
    if n >= 1 && start + n < |s| && s[start + n] == ';' then start + n + 1 else 0
  }

  /** `&(?:#\d+|#x[0-9a-fA-F]+|[a-zA-Z][a-zA-Z0-9]+);` at the start: its length, or zero. */
  function EntityLength(s: string): (n: nat)
    ensures n <= |s|
  {
    if |s| < 3 || s[0] != '&' then 0
    else if s[1] == '#' then
      if s[2] == 'x' then Closed(s, 3, Span(s[3..], c => IsHex(c)))
      else Closed(s, 2, Span(s[2..], c => IsDigit(c)))
    else if IsAlpha(s[1]) then Closed(s, 2, Span(s[2..], c => IsAlnum(c)))
    else 0
  }

  function NextLength(s: string): (n: nat)
    requires s != []
    ensures 1 <= n <= |s|
  {
    if TagLength(s) > 0 then TagLength(s) else if EntityLength(s) > 0 then EntityLength(s) else 1
  }

  /** Tags and entities whole, everything else character by character. */
  function Scan(s: string): seq<string>
    decreases |s|
  {
    if s == [] then [] else [s[..NextLength(s)]] + Scan(s[NextLength(s)..])
  }

  function Flat(tokens: seq<string>): string {
    if tokens == [] then "" else tokens[0] + Flat(tokens[1..])
  }

  lemma {:induction false} FlatConcat(s: seq<string>, t: seq<string>)
    ensures Flat(s + t) == Flat(s) + Flat(t)
  {
    if s == [] {
      assert s + t == t;
    } else {
      var u := s + t;
      assert u[0] == s[0] && u[1..] == s[1..] + t;
      FlatConcat(s[1..], t);
      assert Flat(u) == s[0] + (Flat(s[1..]) + Flat(t));
    }
  }

  lemma FlatAppend(s: seq<string>, token: string)
    ensures Flat(s + [token]) == Flat(s) + token
  {
    FlatConcat(s, [token]);
    assert [token][1..] == [];
    assert Flat([token]) == token + "";
  }

  /** Scanning loses nothing and makes no empty token. */
  lemma {:induction false} ScanWhole(s: string)
    ensures Flat(Scan(s)) == s && forall i :: 0 <= i < |Scan(s)| ==> Scan(s)[i] != ""
    decreases |s|
  {
    if s != [] {
      var n := NextLength(s);
      ScanWhole(s[n..]);
      assert Scan(s)[1..] == Scan(s[n..]);
      assert s == s[..n] + s[n..];
    }
  }

  // ----- tags -----

  datatype Tag = Tag(closing: bool, name: string)

  function LowerChar(c: char): char {
    if 'A' <= c <= 'Z' then (c as int + 32) as char else c
  }

  function Lower(s: string): (r: string)
    ensures |r| == |s|
  {
    seq(|s|, i requires 0 <= i < |s| => LowerChar(s[i]))
  }

  /** `(?:\s[^>]*)?>` */
  predicate IsTagEnd(rest: string) {
    || rest == ">"
    || (|rest| >= 2 && IsSpace(rest[0]) && rest[|rest| - 1] == '>' && '>' !in rest[..|rest| - 1])
  }

  /** `<\s*(/?)\s*([a-zA-Z0-9]+)(?:\s[^>]*)?>` over the whole token, with the name in lower case. */
  function TagOf(token: string): Option<Tag> {
    if |token| < 2 || token[0] != '<' then None
    else
      var a := StripLeft(token[1..]);
      var closing := a != [] && a[0] == '/';
      var b := if closing then StripLeft(a[1..]) else a;
      var n := Span(b, c => IsAlnum(c));
      if n > 0 && IsTagEnd(b[n..]) then Some(Tag(closing, Lower(b[..n]))) else None
  }

  predicate SelfClosing(token: string) {
    |token| >= 2 && token[|token| - 2..] == "/>"
  }

  /** An open tag: its lower-case name and the token that opened it. */
  type Stack = seq<(string, string)>

  /** Index of the innermost of the first `n` open tags with this name, or -1. */
  function Innermost(stack: Stack, name: string, n: nat): (i: int)
    requires n <= |stack|
    ensures -1 <= i < n && (i >= 0 ==> stack[i].0 == name)
    ensures forall k :: i < k < n ==> stack[k].0 != name
  {
    if n == 0 then -1 else if stack[n - 1].0 == name then n - 1 else Innermost(stack, name, n - 1)
  }

  /** What a token means to the stack. */
  datatype Mark = Plain | Opening(name: string, token: string) | Closing(name: string)

  function MarkOf(token: string): Mark {
    match TagOf(token)
    case None => Plain
    case Some(Tag(closing, name)) => if SelfClosing(token) then Plain else if closing then Closing(name) else Opening(name, token)
  }

  /** `_tag_transition`: a closing tag closes the innermost open tag of its name and all inside it, or nothing. */
  function Transition(stack: Stack, mark: Mark): Stack {
    match mark
    case Plain => stack
    case Opening(name, token) => stack + [(name, token)]
    case Closing(name) => var i := Innermost(stack, name, |stack|); if i >= 0 then stack[..i] else stack
  }

  /** The open tags after reading the marks. */
  function After(stack: Stack, marks: seq<Mark>): Stack
    decreases |marks|
  {
    if marks == [] then stack else After(Transition(stack, marks[0]), marks[1..])
  }

  function Marks(tokens: seq<string>): seq<Mark> {
    if tokens == [] then [] else [MarkOf(tokens[0])] + Marks(tokens[1..])
  }

  function OpenUpTo(stack: Stack, n: nat): seq<string>
    requires n <= |stack|
  {
    if n == 0 then [] else OpenUpTo(stack, n - 1) + [stack[n - 1].1]
  }

  function OpenTokens(stack: Stack): seq<string> {
    OpenUpTo(stack, |stack|)
  }

  function CloseToken(name: string): string {
    "</" + name + ">"
  }

  function CloseFrom(stack: Stack, n: nat): seq<string>
    requires n <= |stack|
  {
    if n == 0 then [] else [CloseToken(stack[n - 1].0)] + CloseFrom(stack, n - 1)
  }

  function CloseTokens(stack: Stack): seq<string> {
    CloseFrom(stack, |stack|)
  }

  /** `_open_tags`, `_close_tags` */
  function Open(stack: Stack): string {
    Flat(OpenTokens(stack))
  }

  function Close(stack: Stack): string {
    Flat(CloseTokens(stack))
  }

  // ----- re-opening and closing, on marks -----

  lemma {:induction false} AfterConcat(stack: Stack, s: seq<Mark>, t: seq<Mark>)
    ensures After(stack, s + t) == After(After(stack, s), t)
    decreases |s|
  {
    if s == [] {
      assert s + t == t;
    } else {
      var u := s + t;
      assert u[0] == s[0] && u[1..] == s[1..] + t;
      AfterConcat(Transition(stack, s[0]), s[1..], t);
    }
  }

  lemma AfterAppend(stack: Stack, s: seq<Mark>, mark: Mark)
    ensures After(stack, s + [mark]) == Transition(After(stack, s), mark)
  {
    AfterConcat(stack, s, [mark]);
    assert [mark][1..] == [];
  }

  function OpenMarks(stack: Stack, n: nat): seq<Mark>
    requires n <= |stack|
  {
    if n == 0 then [] else OpenMarks(stack, n - 1) + [Opening(stack[n - 1].0, stack[n - 1].1)]
  }

  function CloseMarks(stack: Stack, n: nat): seq<Mark>
    requires n <= |stack|
  {
    if n == 0 then [] else [Closing(stack[n - 1].0)] + CloseMarks(stack, n - 1)
  }

  /** Re-opening a stack rebuilds it exactly. */
  lemma {:induction false} OpenRebuilds(stack: Stack, n: nat)
    requires n <= |stack|
    ensures After([], OpenMarks(stack, n)) == stack[..n]
  {
    if n > 0 {
      OpenRebuilds(stack, n - 1);
      OpenNext(stack, n - 1, OpenMarks(stack, n - 1));
    }
  }

  lemma OpenNext(stack: Stack, n: nat, marks: seq<Mark>)
    requires n < |stack| && After([], marks) == stack[..n]
    ensures After([], marks + [Opening(stack[n].0, stack[n].1)]) == stack[..n + 1]
  {
    AfterAppend([], marks, Opening(stack[n].0, stack[n].1));
    assert stack[..n] + [stack[n]] == stack[..n + 1];
  }

  /** Closing a stack empties it. */
  lemma {:induction false} CloseEmpties(stack: Stack, n: nat)
    requires n <= |stack|
    ensures After(stack[..n], CloseMarks(stack, n)) == []
  {
    if n > 0 {
      CloseEmpties(stack, n - 1);
      CloseOne(stack, n);
      AfterCons(stack[..n], Closing(stack[n - 1].0), CloseMarks(stack, n - 1));
    }
  }

  lemma AfterCons(stack: Stack, mark: Mark, rest: seq<Mark>)
    ensures After(stack, [mark] + rest) == After(Transition(stack, mark), rest)
  {
    assert ([mark] + rest)[1..] == rest;
  }

  lemma CloseOne(stack: Stack, n: nat)
    requires 1 <= n <= |stack|
    ensures Transition(stack[..n], Closing(stack[n - 1].0)) == stack[..n - 1]
  {
    var front := stack[..n];
    assert front[n - 1] == stack[n - 1];
    assert Innermost(front, stack[n - 1].0, n) == n - 1;
    assert front[..n - 1] == stack[..n - 1];
  }

  // ----- the generated tokens have these marks -----

  predicate IsName(name: string) {
    name != [] && (forall i :: 0 <= i < |name| ==> IsAlnum(name[i])) && Lower(name) == name
  }

  /** The entry was pushed by its own token. */
  predicate Opens(entry: (string, string)) {
    IsName(entry.0) && MarkOf(entry.1) == Opening(entry.0, entry.1)
  }

  predicate StackOk(stack: Stack) {
    forall i {:trigger Opens(stack[i])} :: 0 <= i < |stack| ==> Opens(stack[i])
  }

  lemma MarkNames(token: string)
    requires MarkOf(token).Opening?
    ensures Opens((MarkOf(token).name, token))
  {
  }

  lemma TransitionOk(stack: Stack, token: string)
    requires StackOk(stack)
    ensures StackOk(Transition(stack, MarkOf(token)))
  {
    var next := Transition(stack, MarkOf(token));
    forall i | 0 <= i < |next| ensures Opens(next[i]) {
      if i < |stack| {
        assert Opens(stack[i]);
      } else {
        MarkNames(token);
      }
    }
  }

  lemma {:induction false} SpanOf(front: string, rest: string, p: char -> bool)
    requires (forall i :: 0 <= i < |front| ==> p(front[i])) && (rest == [] || !p(rest[0]))
    ensures Span(front + rest, p) == |front|
  {
    if front == [] {
      assert front + rest == rest;
    } else {
      var s := front + rest;
      assert s[0] == front[0] && s[1..] == front[1..] + rest;
      SpanOf(front[1..], rest, p);
    }
  }

  lemma SolidStripLeft(s: string)
    requires s != [] && !IsSpace(s[0])
    ensures StripLeft(s) == s
  {
  }

  /** A generated closing tag is read as closing its own name. */
  lemma CloseTokenMark(name: string)
    requires IsName(name)
    ensures MarkOf(CloseToken(name)) == Closing(name)
  {
    var token := CloseToken(name);
    var a := token[1..];
    assert a == "/" + (name + ">");
    SolidStripLeft(a);
    var b := a[1..];
    assert b == name + ">";
    assert b[0] == name[0];
    SolidStripLeft(b);
    SpanOf(name, ">", c => IsAlnum(c));
    assert b[..|name|] == name && b[|name|..] == ">";
    assert token[|token| - 2] == name[|name| - 1];
  }

  lemma {:induction false} MarksConcat(s: seq<string>, t: seq<string>)
    ensures Marks(s + t) == Marks(s) + Marks(t)
  {
    if s == [] {
      assert s + t == t;
    } else {
      var u := s + t;
      assert u[0] == s[0] && u[1..] == s[1..] + t;
      MarksConcat(s[1..], t);
      assert Marks(u) == [MarkOf(s[0])] + (Marks(s[1..]) + Marks(t));
    }
  }

  lemma MarksOne(token: string)
    ensures Marks([token]) == [MarkOf(token)]
  {
    assert [token][1..] == [];
  }

  lemma {:induction false} OpenTokenMarks(stack: Stack, n: nat)
    requires StackOk(stack) && n <= |stack|
    ensures Marks(OpenUpTo(stack, n)) == OpenMarks(stack, n)
  {
    if n > 0 {
      OpenTokenMarks(stack, n - 1);
      MarksConcat(OpenUpTo(stack, n - 1), [stack[n - 1].1]);
      MarksOne(stack[n - 1].1);
      assert Opens(stack[n - 1]);
    }
  }

  lemma {:induction false} CloseTokenMarks(stack: Stack, n: nat)
    requires StackOk(stack) && n <= |stack|
    ensures Marks(CloseFrom(stack, n)) == CloseMarks(stack, n)
  {
    if n > 0 {
      CloseTokenMarks(stack, n - 1);
      var token, rest := CloseToken(stack[n - 1].0), CloseFrom(stack, n - 1);
      assert MarkOf(token) == Closing(stack[n - 1].0) by {
        assert Opens(stack[n - 1]);
        CloseTokenMark(stack[n - 1].0);
      }
      MarksCons(token, rest);
    }
  }

  lemma MarksCons(token: string, rest: seq<string>)
    ensures Marks([token] + rest) == [MarkOf(token)] + Marks(rest)
  {
    assert ([token] + rest)[1..] == rest;
  }
}
