/**
 * What the scanner, the tag expression and the stack of app/notifier.py amount
 * to, said of the characters alone.
 */
module TelegramTokens {
  import opened Basics
  import opened Text
  import opened TelegramText
  import opened TelegramReading
  import TextMeaning

  // ----- length -----

  /** The characters beyond the Basic Multilingual Plane. */
  function Astral(s: string): set<nat> {
    set i | 0 <= i < |s| && s[i] >= '\U{10000}'
  }

  /** Telegram counts these twice. */
  lemma {:induction false} LengthCounts(s: string)
    ensures Length(s) == |s| + |Astral(s)|
  {
    if s != "" {
      var n := |s| - 1;
      LengthCounts(s[..n]);
      LengthNext(s, n);
      assert s[..n + 1] == s;
      assert Astral(s) == Astral(s[..n]) + if s[n] >= '\U{10000}' then {n} else {};
    }
  }

  // ----- scanning -----

  ghost predicate BeginsTag(s: string) {
    exists n :: 0 < n <= |s| && IsTag(s[..n])
  }

  ghost predicate BeginsEntity(s: string) {
    exists n :: 0 < n <= |s| && IsEntity(s[..n])
  }

  /** The first token of a text: its tag, else its entity, else its first character. */
  ghost predicate IsFirst(t: string, s: string) {
    && t <= s
    && if BeginsTag(s) then IsTag(t) else if BeginsEntity(s) then IsEntity(t) else |t| == 1
  }

  lemma FirstIff(t: string, s: string)
    requires s != ""
    ensures IsFirst(t, s) <==> t == s[..NextLength(s)]
  {
    var (tag, entity) := (TagLength(s), EntityLength(s));
    if n :| 0 < n <= |s| && IsTag(s[..n]) {
      TagIff(s, n);
    }
    if tag > 0 {
      TagIff(s, tag);
    }
    if n :| 0 < n <= |s| && IsEntity(s[..n]) {
      EntityIff(s, n);
    }
    if entity > 0 {
      EntityIff(s, entity);
    }
    if t <= s && t != "" {
      assert s[..|t|] == t;
      TagIff(s, |t|);
      EntityIff(s, |t|);
    }
  }

  /** Each token is the first of what is left. */
  ghost predicate AreTokens(s: string, tokens: seq<string>)
    decreases |tokens|
  {
    if tokens == [] then s == "" else s != "" && IsFirst(tokens[0], s) && AreTokens(s[|tokens[0]|..], tokens[1..])
  }

  lemma {:induction false} ScanIff(s: string, tokens: seq<string>)
    ensures tokens == Scan(s) <==> AreTokens(s, tokens)
    decreases |tokens|
  {
    if s != "" {
      assert Scan(s)[0] == s[..NextLength(s)] && Scan(s)[1..] == Scan(s[NextLength(s)..]);
      if tokens != [] {
        FirstIff(tokens[0], s);
        if IsFirst(tokens[0], s) {
          ScanIff(s[|tokens[0]|..], tokens[1..]);
          assert tokens == [tokens[0]] + tokens[1..];
        }
      }
    }
  }

  /** The characters of decimal and hexadecimal entities. */
  lemma DigitsAre(c: char)
    ensures IsDigit(c) <==> c in "0123456789"
    ensures IsHex(c) <==> c in "0123456789abcdefABCDEF"
  {
    assert c == (c as int) as char;
  }

  // ----- tags -----

  predicate Alphanumeric(s: string) {
    forall c :: c in s ==> '0' <= c <= '9' || 'a' <= c <= 'z' || 'A' <= c <= 'Z'
  }

  predicate IsLower(name: string, raw: string) {
    |name| == |raw| && forall i :: 0 <= i < |raw| ==> name[i] as int == if 'A' <= raw[i] <= 'Z' then raw[i] as int + 32 else raw[i] as int
  }

  /** What may follow the name: nothing or a space and attributes, and the end of the tag. */
  predicate Ends(rest: string) {
    rest == ">" || (|rest| >= 2 && IsSpace(rest[0]) && rest[|rest| - 1] == '>' && forall i :: 0 <= i < |rest| - 1 ==> rest[i] != '>')
  }

  /** `<`, spaces, the slash of a closing tag, spaces, the name, and the rest. */
  predicate Spells(token: string, closing: bool, a: string, b: string, raw: string, rest: string) {
    && token == "<" + a + (if closing then "/" else "") + b + raw + rest
    && AllSpace(a) && AllSpace(b) && raw != "" && Alphanumeric(raw) && Ends(rest)
  }

  ghost predicate IsTagOf(token: string, closing: bool, name: string) {
    exists a, b, raw, rest :: Spells(token, closing, a, b, raw, rest) && IsLower(name, raw)
  }

  lemma TagOfIff(token: string, closing: bool, name: string)
    ensures TagOf(token) == Some(Tag(closing, name)) <==> IsTagOf(token, closing, name)
  {
    if TagOf(token) == Some(Tag(closing, name)) {
      TagSpelled(token);
    }
    if IsTagOf(token, closing, name) {
      var a, b, raw, rest :| Spells(token, closing, a, b, raw, rest) && IsLower(name, raw);
      SpelledTag(token, closing, a, b, raw, rest);
      LowerUnique(name, raw);
    }
  }

  lemma LowerUnique(name: string, raw: string)
    ensures IsLower(name, raw) <==> name == Lower(raw)
  {
    if IsLower(name, raw) {
      forall i | 0 <= i < |raw| ensures name[i] == Lower(raw)[i] {
        assert name[i] as int == LowerChar(raw[i]) as int;
      }
      assert name == Lower(raw);
    }
  }

  lemma EndsIff(rest: string)
    ensures Ends(rest) <==> IsTagEnd(rest)
  {
    if |rest| >= 2 {
      var inner := rest[..|rest| - 1];
      assert forall i :: 0 <= i < |inner| ==> inner[i] == rest[i];
    }
  }

  lemma TagSpelled(token: string)
    requires TagOf(token).Some?
    ensures var tag := TagOf(token).value; IsTagOf(token, tag.closing, tag.name)
  {
    TextMeaning.StripLeftCuts(token[1..]);
    var l := StripLeft(token[1..]);
    var a :| token[1..] == a + l && AllSpace(a);
    if l != [] && l[0] == '/' {
      TextMeaning.StripLeftCuts(l[1..]);
      var b :| l[1..] == b + StripLeft(l[1..]) && AllSpace(b);
      Assembled(token, a, true, b, StripLeft(l[1..]), l);
    } else {
      Assembled(token, a, false, "", l, l);
    }
  }

  lemma Assembled(token: string, a: string, closing: bool, b: string, named: string, l: string)
    requires |token| >= 2 && token[0] == '<' && token[1..] == a + l && AllSpace(a) && AllSpace(b)
    requires if closing then |l| > 0 && l[0] == '/' && l[1..] == b + named else l == named && b == ""
    requires var n := Span(named, c => IsAlnum(c)); n > 0 && IsTagEnd(named[n..])
    ensures IsTagOf(token, closing, Lower(named[..Span(named, c => IsAlnum(c))]))
  {
    var raw, rest := NamePart(named);
    var slash := if closing then "/" else "";
    assert l == slash + b + named;
    Joined(a, slash, b, raw, rest, named, l);
    assert token == "<" + token[1..];
    assert Spells(token, closing, a, b, raw, rest);
    LowerUnique(Lower(raw), raw);
  }

  lemma NamePart(named: string) returns (raw: string, rest: string)
    requires var n := Span(named, c => IsAlnum(c)); n > 0 && IsTagEnd(named[n..])
    ensures named == raw + rest && raw == named[..Span(named, c => IsAlnum(c))] != "" && Alphanumeric(raw) && Ends(rest)
  {
    var n := Span(named, c => IsAlnum(c));
    raw, rest := named[..n], named[n..];
    forall c | c in raw ensures '0' <= c <= '9' || 'a' <= c <= 'z' || 'A' <= c <= 'Z' {
      var i :| 0 <= i < |raw| && raw[i] == c;
      assert IsAlnum(named[i]);
    }
    EndsIff(rest);
  }

  lemma Joined(a: string, slash: string, b: string, raw: string, rest: string, named: string, l: string)
    requires named == raw + rest && l == slash + b + named
    ensures "<" + (a + l) == "<" + a + slash + b + raw + rest
  {
    assert slash + b + (raw + rest) == slash + b + raw + rest;
    assert a + (slash + b + raw + rest) == a + slash + b + raw + rest;
  }

  lemma SpelledTag(token: string, closing: bool, a: string, b: string, raw: string, rest: string)
    requires Spells(token, closing, a, b, raw, rest)
    ensures TagOf(token) == Some(Tag(closing, Lower(raw)))
  {
    var named := raw + rest;
    var after := b + named;
    var l := if closing then "/" + after else after;
    assert token[1..] == a + l;
    TextMeaning.LeftSkips(a, l);
    TextMeaning.LeftSkips(b, named);
    NameSolid(raw);
    assert named[0] == raw[0];
    assert StripLeft(named) == named;
    assert closing ==> l[0] == '/' && l[1..] == after;
    SpanOf(raw, rest, c => IsAlnum(c));
    assert named[..|raw|] == raw && named[|raw|..] == rest;
    EndsIff(rest);
  }

  lemma NameSolid(raw: string)
    requires raw != "" && Alphanumeric(raw)
    ensures !IsSpace(raw[0]) && raw[0] != '/' && forall i :: 0 <= i < |raw| ==> IsAlnum(raw[i])
  {
    assert forall i :: 0 <= i < |raw| ==> raw[i] in raw;
  }

  // ----- the stack -----

  /** No open tag has this name. */
  predicate NoneNamed(stack: Stack, name: string) {
    forall i :: 0 <= i < |stack| ==> stack[i].0 != name
  }

  /** The innermost open tag of the name is at `i`. */
  predicate InnermostAt(stack: Stack, name: string, i: nat) {
    i < |stack| && stack[i].0 == name && forall k :: i < k < |stack| ==> stack[k].0 != name
  }

  /**
   * What a token does to the open tags: a tag that does not end in "/>" is added,
   * or removes the innermost open tag of its name with all that is inside it;
   * anything else changes nothing.
   */
  ghost predicate Moves(stack: Stack, token: string, next: Stack) {
    && (forall name :: IsTagOf(token, false, name) && !SlashEnds(token) ==> next == stack + [(name, token)])
    && (forall name :: IsTagOf(token, true, name) && !SlashEnds(token) ==>
          if NoneNamed(stack, name) then next == stack else exists i: nat :: InnermostAt(stack, name, i) && next == stack[..i])
    && ((forall closing, name :: !IsTagOf(token, closing, name)) || SlashEnds(token) ==> next == stack)
  }

  predicate SlashEnds(token: string) {
    |token| >= 2 && token[|token| - 2] == '/' && token[|token| - 1] == '>'
  }

  lemma TransitionMoves(stack: Stack, token: string)
    ensures Moves(stack, token, Transition(stack, MarkOf(token)))
  {
    var next := Transition(stack, MarkOf(token));
    assert SelfClosing(token) <==> SlashEnds(token);
    forall name | IsTagOf(token, false, name) ensures TagOf(token) == Some(Tag(false, name)) {
      TagOfIff(token, false, name);
    }
    forall name | IsTagOf(token, true, name)
      ensures TagOf(token) == Some(Tag(true, name))
      ensures if NoneNamed(stack, name) then Innermost(stack, name, |stack|) == -1
              else Innermost(stack, name, |stack|) >= 0 && InnermostAt(stack, name, Innermost(stack, name, |stack|))
    {
      TagOfIff(token, true, name);
    }
    if TagOf(token).Some? {
      TagOfIff(token, TagOf(token).value.closing, TagOf(token).value.name);
    }
  }
}
