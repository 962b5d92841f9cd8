/**
 * How a text put together from tokens is read back by the scanner of
 * app/notifier.py: when the tokens survive, and when one swallows the next.
 */
module TelegramReading {
  import opened Text
  import opened TelegramText

  // ----- tags and entities by their shape -----

  /** `<[^>]+>` */
  predicate IsTag(t: string) {
    |t| >= 3 && t[0] == '<' && t[|t| - 1] == '>' && forall i :: 0 <= i < |t| - 1 ==> t[i] != '>'
  }

  lemma TagIff(s: string, n: nat)
    requires n > 0
    ensures TagLength(s) == n <==> n <= |s| && IsTag(s[..n])
  {
  }

  /** `&(?:#\d+|#x[0-9a-fA-F]+|[a-zA-Z][a-zA-Z0-9]+);` */
  predicate IsEntity(e: string) {
    && |e| >= 4 && e[0] == '&' && e[|e| - 1] == ';'
    && if e[1] == '#' then
         if e[2] == 'x' then |e| >= 5 && forall i :: 3 <= i < |e| - 1 ==> IsHex(e[i])
         else forall i :: 2 <= i < |e| - 1 ==> IsDigit(e[i])
       else IsAlpha(e[1]) && forall i :: 2 <= i < |e| - 1 ==> IsAlnum(e[i])
  }

  lemma ClosedIff(s: string, start: nat, p: char -> bool, n: nat)
    requires start <= |s| && !p(';') && n > 0
    ensures Closed(s, start, Span(s[start..], p)) == n <==>
            start + 2 <= n <= |s| && s[n - 1] == ';' && forall i {:trigger s[i]} :: start <= i < n - 1 ==> p(s[i])
  {
    var rest := s[start..];
    var k := Span(rest, p);
    forall i {:trigger s[i]} | start <= i < start + k ensures p(s[i]) {
      assert rest[i - start] == s[i];
    }
    if start + 2 <= n <= |s| && s[n - 1] == ';' && forall i {:trigger s[i]} :: start <= i < n - 1 ==> p(s[i]) {
      assert rest[n - 1 - start] == ';';
      assert forall i {:trigger rest[i]} :: 0 <= i < |rest| ==> rest[i] == s[start + i];
    }
  }

  lemma HexIff(s: string, n: nat)
    requires n > 0 && |s| >= 3 && s[0] == '&' && s[1] == '#' && s[2] == 'x'
    ensures EntityLength(s) == n <==> n <= |s| && IsEntity(s[..n])
  {
    ClosedIff(s, 3, c => IsHex(c), n);
    SameChars(s, n);
  }

  lemma DecimalIff(s: string, n: nat)
    requires n > 0 && |s| >= 3 && s[0] == '&' && s[1] == '#' && s[2] != 'x'
    ensures EntityLength(s) == n <==> n <= |s| && IsEntity(s[..n])
  {
    ClosedIff(s, 2, c => IsDigit(c), n);
    SameChars(s, n);
  }

  lemma NamedIff(s: string, n: nat)
    requires n > 0 && |s| >= 3 && s[0] == '&' && s[1] != '#'
    ensures EntityLength(s) == n <==> n <= |s| && IsEntity(s[..n])
  {
    ClosedIff(s, 2, c => IsAlnum(c), n);
    SameChars(s, n);
  }

  lemma SameChars(s: string, n: nat)
    ensures n <= |s| ==> |s[..n]| == n && forall i :: 0 <= i < n ==> s[..n][i] == s[i]
  {
  }

  lemma EntityIff(s: string, n: nat)
    requires n > 0
    ensures EntityLength(s) == n <==> n <= |s| && IsEntity(s[..n])
  {
    if |s| >= 3 && s[0] == '&' {
      if s[1] != '#' {
        NamedIff(s, n);
      } else if s[2] == 'x' {
        HexIff(s, n);
      } else {
        DecimalIff(s, n);
      }
    }
  }

  lemma TagStable(t: string, rest: string)
    requires IsTag(t)
    ensures TagLength(t + rest) == |t|
  {
    assert (t + rest)[..|t|] == t;
    TagIff(t + rest, |t|);
  }

  lemma EntityStable(e: string, rest: string)
    requires IsEntity(e)
    ensures EntityLength(e + rest) == |e|
  {
    assert (e + rest)[..|e|] == e;
    EntityIff(e + rest, |e|);
  }

  lemma {:induction false} StripLeftCut(s: string) returns (spaces: string)
    ensures s == spaces + StripLeft(s) && '>' !in spaces
  {
    spaces := "";
    if s != [] && IsSpace(s[0]) {
      var more := StripLeftCut(s[1..]);
      spaces := [s[0]] + more;
    }
  }

  lemma TagEndShape(front: string, end: string)
    requires |front| >= 2 && front[0] == '<' && '>' !in front && IsTagEnd(end)
    ensures IsTag(front + end)
  {
    var t := front + end;
    forall i | 0 <= i < |t| - 1 ensures t[i] != '>' {
      if i < |front| {
        assert t[i] in front;
      } else {
        assert t[i] == end[..|end| - 1][i - |front|];
      }
    }
  }

  lemma NameCut(b: string) returns (name: string)
    ensures var n := Span(b, c => IsAlnum(c)); name == b[..n] && '>' !in name && b == name + b[n..]
  {
    var n := Span(b, c => IsAlnum(c));
    name := b[..n];
    assert forall i :: 0 <= i < n ==> IsAlnum(b[i]);
  }

  /** What the tag expression matches as a whole is one tag to the scanner too. */
  lemma TagOfIsTag(token: string)
    requires TagOf(token).Some?
    ensures IsTag(token)
  {
    var spaces := StripLeftCut(token[1..]);
    var front, a := ['<'] + spaces, StripLeft(token[1..]);
    assert token == front + a;
    if a != [] && a[0] == '/' {
      ClosingTag(token, front, a);
    } else {
      NamedTag(token, front, a);
    }
  }

  lemma ClosingTag(token: string, front: string, a: string)
    requires token == front + a && front != [] && front[0] == '<' && '>' !in front && a != [] && a[0] == '/'
    requires var b := StripLeft(a[1..]); var n := Span(b, c => IsAlnum(c)); n > 0 && IsTagEnd(b[n..])
    ensures IsTag(token)
  {
    var more := StripLeftCut(a[1..]);
    var b := StripLeft(a[1..]);
    assert token == (front + ['/'] + more) + b;
    NamedTag(token, front + ['/'] + more, b);
  }

  lemma NamedTag(token: string, front: string, b: string)
    requires token == front + b && front != [] && front[0] == '<' && '>' !in front
    requires var n := Span(b, c => IsAlnum(c)); n > 0 && IsTagEnd(b[n..])
    ensures IsTag(token)
  {
    var name := NameCut(b);
    TagEndShape(front + name, b[|name|..]);
    assert token == (front + name) + b[|name|..];
  }

  // ----- when the scanner finds the tokens a text was made of -----

  /** At each token the scanner takes exactly that token. */
  predicate Reads(tokens: seq<string>) {
    tokens == [] || (Flat(tokens) != "" && NextLength(Flat(tokens)) == |tokens[0]| && Reads(tokens[1..]))
  }

  lemma {:induction false} ScanReads(tokens: seq<string>)
    ensures Scan(Flat(tokens)) == tokens <==> Reads(tokens)
  {
    if tokens != [] && Flat(tokens) != "" {
      var s, n := Flat(tokens), NextLength(Flat(tokens));
      ScanReads(tokens[1..]);
      assert Scan(s) == [s[..n]] + Scan(s[n..]);
      assert Scan(s)[0] == s[..n] && Scan(s)[1..] == Scan(s[n..]);
      if n == |tokens[0]| {
        assert s[..n] == tokens[0] && s[n..] == Flat(tokens[1..]);
        assert tokens == [tokens[0]] + tokens[1..];
      }
    }
  }

  lemma ReadsCons(t: string, rest: seq<string>)
    ensures Reads([t] + rest) <==> t != "" && NextLength(t + Flat(rest)) == |t| && Reads(rest)
  {
    assert ([t] + rest)[1..] == rest;
    assert Flat([t] + rest) == t + Flat(rest);
  }

  lemma ReadsRest(t: string, rest: seq<string>)
    requires Reads([t] + rest)
    ensures Reads(rest)
  {
    assert ([t] + rest)[1..] == rest;
  }

  lemma FirstOf(body: seq<string>, rest: seq<string>)
    requires body != []
    ensures body + rest == [body[0]] + (body[1..] + rest)
  {
  }

  lemma {:induction false} ReadsSuffix(a: seq<string>, b: seq<string>)
    requires Reads(a + b)
    ensures Reads(b)
  {
    if a == [] {
      assert a + b == b;
    } else {
      FirstOf(a, b);
      ReadsRest(a[0], a[1..] + b);
      ReadsSuffix(a[1..], b);
    }
  }

  predicate AllTags(tokens: seq<string>) {
    forall i :: 0 <= i < |tokens| ==> IsTag(tokens[i])
  }

  /** Tags are read as they are, whatever follows. */
  lemma {:induction false} ReadsTags(tags: seq<string>, rest: seq<string>)
    requires AllTags(tags) && Reads(rest)
    ensures Reads(tags + rest)
  {
    if tags == [] {
      assert tags + rest == rest;
    } else {
      FirstOf(tags, rest);
      ReadsTags(tags[1..], rest);
      TagStable(tags[0], Flat(tags[1..] + rest));
      ReadsCons(tags[0], tags[1..] + rest);
    }
  }

  /** Each bare `<` has its `>` directly after it. */
  predicate Tied(tokens: seq<string>) {
    forall i :: 0 <= i < |tokens| && tokens[i] == "<" ==> i + 1 < |tokens| && tokens[i + 1] == ">"
  }

  lemma TiedTail(tokens: seq<string>)
    requires tokens != [] && Tied(tokens)
    ensures Tied(tokens[1..])
  {
    assert forall i :: 0 <= i < |tokens| - 1 ==> tokens[1..][i] == tokens[i + 1];
  }

  lemma EntityHasNoTag(e: string)
    requires IsEntity(e)
    ensures forall i :: 0 <= i < |e| ==> e[i] != '<'
  {
  }

  /** No entity runs into a `<` or over the end of the text. */
  lemma EntityEnds(s: string, d: string, c: string)
    requires EntityLength(s + d) > 0 && (d == "" || d[0] == '<')
    ensures EntityLength(s + c) > 0
  {
    var n := EntityLength(s + d);
    EntityIff(s + d, n);
    var e := (s + d)[..n];
    assert n > |s| ==> e[|s|] == '<';
    EntityHasNoTag(e);
    assert e == s[..n];
    EntityStable(e, s[n..] + c);
    assert e + (s[n..] + c) == s + c;
  }

  /** A tag is there however the text goes on. */
  lemma TagGoesOn(s: string, c: string)
    requires TagLength(s) > 0
    ensures TagLength(s + c) > 0
  {
    var n := TagLength(s);
    TagIff(s, n);
    TagStable(s[..n], s[n..] + c);
    assert s[..n] + (s[n..] + c) == s + c;
  }

  /** A token that was read where `u + c` follows is read where `u + d` does. */
  lemma NextKept(t: string, u: string, c: string, d: string)
    requires t != "" && NextLength(t + (u + c)) == |t| && (d == "" || d[0] == '<')
    requires t == "<" && d != "" ==> u != "" && u[0] == '>'
    ensures NextLength(t + (u + d)) == |t|
  {
    var s, s' := t + (u + c), t + (u + d);
    assert s[..|t|] == t;
    if TagLength(s) > 0 {
      TagIff(s, |t|);
      TagStable(t, u + d);
    } else if EntityLength(s) > 0 {
      EntityIff(s, |t|);
      EntityStable(t, u + d);
    } else {
      assert s == (t + u) + c && s' == (t + u) + d;
      if EntityLength((t + u) + d) > 0 {
        EntityEnds(t + u, d, c);
      }
      CharKept(t, u, c, d);
    }
  }

  lemma CharKept(t: string, u: string, c: string, d: string)
    requires |t| == 1 && TagLength((t + u) + c) == 0 && (t == "<" && d != "" ==> u != "" && u[0] == '>')
    ensures TagLength((t + u) + d) == 0
  {
    if t != "<" {
      OneChar(t);
    } else if d == "" {
      assert (t + u) + d == t + u;
      if TagLength(t + u) > 0 {
        TagGoesOn(t + u, c);
      }
    } else {
      assert ((t + u) + d)[1] == '>';
    }
  }

  lemma OneChar(t: string)
    requires |t| == 1 && t != "<"
    ensures t[0] != '<'
  {
    assert t == [t[0]];
  }

  lemma TransplantOne(t: string, rest: seq<string>, c: seq<string>, d: seq<string>)
    requires Reads([t] + (rest + c)) && Reads(rest + d) && (d == [] || IsTag(d[0]))
    requires t == "<" && d != [] ==> rest != [] && rest[0] == ">"
    ensures Reads([t] + (rest + d))
  {
    ReadsCons(t, rest + c);
    FlatConcat(rest, c);
    FlatConcat(rest, d);
    if d != [] {
      FlatFirst(d);
      if t == "<" {
        FlatFirst(rest);
      }
    }
    NextKept(t, Flat(rest), Flat(c), Flat(d));
    ReadsCons(t, rest + d);
  }

  /** Tokens cut out of a longer text are read again if nothing, or a tag, follows them, each bare `<` being tied in the latter case. */
  lemma {:induction false} Transplant(body: seq<string>, c: seq<string>, d: seq<string>)
    requires Reads(body + c) && Reads(d) && (d == [] || (IsTag(d[0]) && Tied(body)))
    ensures Reads(body + d)
  {
    if body == [] {
      assert body + d == d;
    } else {
      var t, rest := body[0], body[1..];
      FirstOf(body, c);
      FirstOf(body, d);
      ReadsRest(t, rest + c);
      if d != [] {
        TiedTail(body);
      }
      Transplant(rest, c, d);
      TransplantOne(t, rest, c, d);
    }
  }

  lemma FlatFirst(tokens: seq<string>)
    requires tokens != [] && tokens[0] != ""
    ensures Flat(tokens) != "" && Flat(tokens)[0] == tokens[0][0]
  {
  }

  /** What is read as `<` has its `>` directly after it, or none at all. */
  lemma BareNext(s: string)
    requires |s| >= 2 && s[0] == '<' && NextLength(s) == 1 && s[1] != '>'
    ensures '>' !in s
  {
    var j := Span(s, c => c != '>');
    assert TagLength(s) == 0;
    assert j == |s|;
  }

  /** A token read that begins with `>` is that character. */
  lemma ReadsCloser(tokens: seq<string>)
    requires tokens != [] && Reads(tokens) && Flat(tokens)[0] == '>'
    ensures tokens[0] == ">"
  {
    assert |tokens[0]| == 1 && Flat(tokens)[..1] == tokens[0];
  }

  /** Tokens that are read before a tag are tied. */
  lemma {:induction false} TiedIfRead(body: seq<string>, d: seq<string>)
    requires Reads(body + d) && d != [] && IsTag(d[0])
    ensures Tied(body)
  {
    if body != [] {
      var all, rest := body + d, body[1..];
      assert all[0] == body[0] && all[1..] == rest + d;
      TiedIfRead(rest, d);
      assert forall i :: 1 <= i < |body| ==> body[i] == rest[i - 1];
      if body[0] == "<" {
        FirstTied(body, d);
      }
    }
  }

  lemma FirstTied(body: seq<string>, d: seq<string>)
    requires Reads(body + d) && d != [] && IsTag(d[0]) && body != [] && body[0] == "<"
    ensures |body| > 1 && body[1] == ">"
  {
    var rest := body[1..];
    FirstOf(body, d);
    ReadsCons("<", rest + d);
    CloserFirst(rest, d);
    ReadsCloser(rest + d);
    assert (rest + d)[0] == ">" && |d[0]| >= 3;
  }

  lemma CloserFirst(rest: seq<string>, d: seq<string>)
    requires d != [] && IsTag(d[0]) && NextLength("<" + Flat(rest + d)) == 1
    ensures Flat(rest + d) != "" && Flat(rest + d)[0] == '>'
  {
    var k := CloserInside(rest, d);
    var s := "<" + Flat(rest + d);
    assert s[k + 1] in s;
    if s[1] != '>' {
      BareNext(s);
    }
  }

  lemma CloserInside(rest: seq<string>, d: seq<string>) returns (k: nat)
    requires d != [] && IsTag(d[0])
    ensures k < |Flat(rest + d)| && Flat(rest + d)[k] == '>'
  {
    FlatConcat(rest, d);
    assert Flat(d) == d[0] + Flat(d[1..]);
    k := |Flat(rest)| + |d[0]| - 1;
    assert Flat(rest + d)[k] == d[0][|d[0]| - 1];
  }

  // ----- a loose `<` swallows the tag after it -----

  predicate Loose(tokens: seq<string>, i: nat)
    requires i < |tokens|
  {
    tokens[i] == "<" && (i + 1 == |tokens| || tokens[i + 1] != ">")
  }

  /** The first bare `<` that is not tied. */
  lemma {:induction false} FirstLoose(tokens: seq<string>, n: nat) returns (i: nat)
    requires (exists k :: n <= k < |tokens| && Loose(tokens, k)) && forall k :: 0 <= k < n ==> !Loose(tokens, k)
    ensures i < |tokens| && Loose(tokens, i) && Tied(tokens[..i])
    decreases |tokens| - n
  {
    if !Loose(tokens, n) {
      i := FirstLoose(tokens, n + 1);
    } else {
      i := n;
      forall k | 0 <= k < i && tokens[..i][k] == "<" ensures k + 1 < i && tokens[..i][k + 1] == ">" {
        assert !Loose(tokens, k) && tokens[i] == "<";
      }
    }
  }

  lemma LooseIffNotTied(tokens: seq<string>)
    ensures !Tied(tokens) <==> exists k :: 0 <= k < |tokens| && Loose(tokens, k)
  {
    if !Tied(tokens) {
      var k :| 0 <= k < |tokens| && tokens[k] == "<" && !(k + 1 < |tokens| && tokens[k + 1] == ">");
      assert Loose(tokens, k);
    }
  }

  lemma NotCloser(tokens: seq<string>)
    requires tokens != [] && Reads(tokens) && tokens[0] != ">"
    ensures Flat(tokens) != "" && Flat(tokens)[0] != '>'
  {
    if Flat(tokens)[0] == '>' {
      ReadsCloser(tokens);
    }
  }

  /** A `<` read with something else than `>` after it has no `>` after it at all. */
  lemma LooseOpens(rest: seq<string>)
    requires Reads(["<"] + rest) && rest != [] && rest[0] != ">"
    ensures '>' !in Flat(rest)
  {
    ReadsCons("<", rest);
    NotCloser(rest);
    var s := "<" + Flat(rest);
    BareNext(s);
    assert forall k :: 0 <= k < |Flat(rest)| ==> Flat(rest)[k] == s[k + 1] && s[k + 1] in s;
  }

  /** From a loose `<` on, there is no `>`. */
  lemma LooseHasNoEnd(rest: seq<string>, c: seq<string>)
    requires Reads(["<"] + (rest + c)) && (rest == [] || rest[0] != ">")
    ensures '>' !in Flat(rest)
  {
    if rest != [] {
      assert (rest + c)[0] == rest[0];
      LooseOpens(rest + c);
      FlatConcat(rest, c);
    }
  }

  lemma OneTag(text: string, tag: string)
    requires text != "" && text[0] == '<' && '>' !in text && IsTag(tag)
    ensures IsTag(text + tag)
  {
    forall i | 0 <= i < |text + tag| - 1 ensures (text + tag)[i] != '>' {
      if i < |text| {
        assert (text + tag)[i] in text;
      }
    }
  }

  /** The loose `<`, the text after it and the tag that follows are one tag to the scanner. */
  lemma LooseSwallows(front: seq<string>, rest: seq<string>, c: seq<string>, tag: string, tags: seq<string>)
    requires Reads(front + (["<"] + (rest + c))) && (rest == [] || rest[0] != ">") && Tied(front) && IsTag(tag) && AllTags(tags)
    ensures Reads(front + ([("<" + Flat(rest)) + tag] + tags))
  {
    ReadsSuffix(front, ["<"] + (rest + c));
    LooseHasNoEnd(rest, c);
    OneTag("<" + Flat(rest), tag);
    var after := [("<" + Flat(rest)) + tag] + tags;
    assert after + [] == after;
    ReadsTags(after, []);
    Transplant(front, ["<"] + (rest + c), after);
  }
}
