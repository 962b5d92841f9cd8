/**
 * The tags of the pieces of a split line: what the splitter in app/notifier.py
 * intends, and how the text it sends is read.
 */
module TelegramBalance {
  import opened TelegramText
  import opened TelegramReading
  import opened TelegramSplit

  /** The tokens a piece is rendered from: what it opens again, its body, what it closes. */
  function TokensOf(p: Piece): seq<string> {
    OpenTokens(p.reopened) + p.body + CloseTokens(p.closed)
  }

  lemma RenderTokens(p: Piece)
    ensures Flat(TokensOf(p)) == Render(p)
  {
    FlatConcat(OpenTokens(p.reopened) + p.body, CloseTokens(p.closed));
    FlatConcat(OpenTokens(p.reopened), p.body);
  }

  lemma Balanced(p: Piece)
    requires PieceOk(p)
    ensures After([], Marks(TokensOf(p))) == []
  {
    var front, n := OpenTokens(p.reopened), |p.reopened|;
    MarksConcat(front + p.body, CloseTokens(p.closed));
    MarksConcat(front, p.body);
    OpenTokenMarks(p.reopened, n);
    CloseTokenMarks(p.closed, |p.closed|);
    OpenRebuilds(p.reopened, n);
    assert p.reopened[..n] == p.reopened && p.closed[..|p.closed|] == p.closed;
    AfterConcat([], Marks(front), Marks(p.body));
    AfterConcat([], Marks(front) + Marks(p.body), CloseMarks(p.closed, |p.closed|));
    CloseEmpties(p.closed, |p.closed|);
  }

  // ----- how the pieces are read -----

  lemma {:induction false} OpenersAreTags(stack: Stack, n: nat)
    requires StackOk(stack) && n <= |stack|
    ensures AllTags(OpenUpTo(stack, n))
  {
    if n > 0 {
      OpenersAreTags(stack, n - 1);
      assert Opens(stack[n - 1]);
      TagOfIsTag(stack[n - 1].1);
    }
  }

  lemma CloserIsTag(entry: (string, string))
    requires Opens(entry)
    ensures IsTag(CloseToken(entry.0))
  {
    CloseTokenMark(entry.0);
    TagOfIsTag(CloseToken(entry.0));
  }

  lemma TagsCons(tag: string, tags: seq<string>)
    requires IsTag(tag) && AllTags(tags)
    ensures AllTags([tag] + tags)
  {
  }

  lemma {:induction false} ClosersAreTags(stack: Stack, n: nat)
    requires StackOk(stack) && n <= |stack|
    ensures AllTags(CloseFrom(stack, n))
  {
    if n > 0 {
      ClosersAreTags(stack, n - 1);
      assert Opens(stack[n - 1]);
      CloserIsTag(stack[n - 1]);
      TagsCons(CloseToken(stack[n - 1].0), CloseFrom(stack, n - 1));
    }
  }

  lemma BodiesAround(pieces: seq<Piece>, i: nat)
    requires i < |pieces|
    ensures Bodies(pieces) == Bodies(pieces[..i]) + (pieces[i].body + Bodies(pieces[i + 1..]))
  {
    assert pieces == pieces[..i] + pieces[i..];
    assert pieces[i..][1..] == pieces[i + 1..];
    BodiesConcat(pieces[..i], pieces[i..]);
  }

  /** The body of a piece, and what follows it in its line, as the scanner read them there. */
  lemma BodyWasRead(line: string, limit: nat, i: nat) returns (rest: seq<string>)
    requires i < |Pieces(line, limit)|
    ensures Reads(Pieces(line, limit)[i].body + rest)
  {
    var pieces := Pieces(line, limit);
    rest := Bodies(pieces[i + 1..]);
    PiecesRecoverLine(line, limit);
    ScanReads(Bodies(pieces));
    BodiesAround(pieces, i);
    ReadsSuffix(Bodies(pieces[..i]), pieces[i].body + rest);
  }

  /** Nothing is closed after the piece, or each bare `<` in it has its `>` directly after it. */
  predicate Meant(p: Piece) {
    p.closed == [] || Tied(p.body)
  }

  lemma MeantIff(p: Piece, rest: seq<string>)
    requires PieceOk(p) && Reads(p.body + rest)
    ensures Reads(TokensOf(p)) <==> Meant(p)
  {
    var open, close := OpenTokens(p.reopened), CloseTokens(p.closed);
    OpenersAreTags(p.reopened, |p.reopened|);
    ClosersAreTags(p.closed, |p.closed|);
    assert TokensOf(p) == open + (p.body + close);
    if Meant(p) {
      assert close + [] == close;
      ReadsTags(close, []);
      Transplant(p.body, rest, close);
      ReadsTags(open, p.body + close);
    }
    if Reads(TokensOf(p)) && p.closed != [] {
      ReadsSuffix(open, p.body + close);
      TiedIfRead(p.body, close);
    }
  }

  /**
   * Every piece of a split line is made of tokens that leave no tag open, and
   * starts by opening again exactly the tags that were open at the cut, which
   * are those left open by all the tokens before it. The text that is sent is
   * read as these tokens, and so leaves no tag open either, if and only if
   * nothing is closed after the piece or each bare `<` in it is tied.
   */
  lemma PiecesBalanced(line: string, limit: nat, i: nat)
    requires i < |Pieces(line, limit)|
    ensures var pieces := Pieces(line, limit);
            && After([], Marks(TokensOf(pieces[i]))) == []
            && pieces[i].reopened == After([], Marks(Bodies(pieces[..i])))
    ensures var p := Pieces(line, limit)[i];
            && (Scan(Render(p)) == TokensOf(p) <==> Meant(p))
            && (Meant(p) ==> After([], Marks(Scan(Render(p)))) == [])
  {
    PiecesChained(line, limit);
    var pieces := Pieces(line, limit);
    assert PieceOk(pieces[i]);
    Balanced(pieces[i]);
    OpenAtCut(pieces, pieces[|pieces| - 1].closed, i);
    var rest := BodyWasRead(line, limit, i);
    MeantIff(pieces[i], rest);
    ScanReads(TokensOf(pieces[i]));
    RenderTokens(pieces[i]);
  }

  lemma {:induction false} NoneBare(tokens: seq<string>)
    requires "<" !in tokens
    ensures Tied(tokens)
  {
  }

  /** A line without bare `<` is always read as meant; escaped text has none. */
  lemma PiecesOfTidyLine(line: string, limit: nat, i: nat)
    requires i < |Pieces(line, limit)| && "<" !in Scan(line)
    ensures var p := Pieces(line, limit)[i]; Scan(Render(p)) == TokensOf(p) && After([], Marks(Scan(Render(p)))) == []
  {
    var pieces := Pieces(line, limit);
    PiecesRecoverLine(line, limit);
    BodiesAround(pieces, i);
    assert forall t :: t in pieces[i].body ==> t in Bodies(pieces);
    NoneBare(pieces[i].body);
    PiecesBalanced(line, limit, i);
  }

  /** What the scanner reads from the loose `<` at `k` on: the text up to and including the first closing tag. */
  function Swallowed(p: Piece, k: nat): string
    requires k < |p.body| && p.closed != []
  {
    "<" + Flat(p.body[k + 1..]) + CloseToken(p.closed[|p.closed| - 1].0)
  }

  /** The tokens read when the closing tag of the innermost open tag is swallowed. */
  function ReadTokens(p: Piece, k: nat): seq<string>
    requires k < |p.body| && p.closed != []
  {
    OpenTokens(p.reopened) + (p.body[..k] + ([Swallowed(p, k)] + CloseFrom(p.closed, |p.closed| - 1)))
  }

  lemma BodyAround(body: seq<string>, rest: seq<string>, k: nat)
    requires k < |body| && Loose(body, k)
    ensures body + rest == body[..k] + (["<"] + (body[k + 1..] + rest))
    ensures body[k + 1..] == [] || body[k + 1..][0] != ">"
  {
  }

  lemma SwallowingReads(p: Piece, rest: seq<string>, k: nat)
    requires PieceOk(p) && Reads(p.body + rest) && p.closed != [] && k < |p.body| && Loose(p.body, k) && Tied(p.body[..k])
    ensures Reads(ReadTokens(p, k)) && '>' !in Flat(p.body[k + 1..])
  {
    var n := |p.closed| - 1;
    var front, later := p.body[..k], p.body[k + 1..];
    var after := [Swallowed(p, k)] + CloseFrom(p.closed, n);
    assert Opens(p.closed[n]);
    CloserIsTag(p.closed[n]);
    ClosersAreTags(p.closed, n);
    BodyAround(p.body, rest, k);
    ReadsSuffix(front, ["<"] + (later + rest));
    LooseHasNoEnd(later, rest);
    LooseSwallows(front, later, rest, CloseToken(p.closed[n].0), CloseFrom(p.closed, n));
    OpenersAreTags(p.reopened, |p.reopened|);
    ReadsTags(OpenTokens(p.reopened), front + after);
  }

  lemma SwallowingRenders(p: Piece, k: nat)
    requires p.closed != [] && k < |p.body| && p.body[k] == "<"
    ensures Flat(ReadTokens(p, k)) == Render(p)
  {
    var n := |p.closed| - 1;
    var open, front, later := OpenTokens(p.reopened), p.body[..k], p.body[k + 1..];
    var close, tag := CloseFrom(p.closed, n), CloseToken(p.closed[n].0);
    FlatConcat(open, front + ([Swallowed(p, k)] + close));
    FlatConcat(front, [Swallowed(p, k)] + close);
    FlatCons(Swallowed(p, k), close);
    FlatCons(tag, close);
    assert p.body == front + (["<"] + later);
    FlatConcat(front, ["<"] + later);
    FlatCons("<", later);
    assert CloseTokens(p.closed) == [tag] + close;
    Rejoin(Flat(open), Flat(front), "<" + Flat(later), tag, Flat(close));
  }

  lemma FlatCons(token: string, rest: seq<string>)
    ensures Flat([token] + rest) == token + Flat(rest)
  {
    assert ([token] + rest)[1..] == rest;
  }

  lemma Rejoin(a: string, b: string, c: string, d: string, e: string)
    ensures a + (b + ((c + d) + e)) == a + (b + c) + (d + e)
  {
  }

  lemma PlainToken(t: string)
    requires '>' !in t
    ensures MarkOf(t) == Plain
  {
    if TagOf(t).Some? {
      TagOfIsTag(t);
    }
  }

  /** Tokens without `>` are no tags. */
  lemma {:induction false} PlainTokens(stack: Stack, tokens: seq<string>)
    requires '>' !in Flat(tokens)
    ensures After(stack, Marks(tokens)) == stack
  {
    if tokens != [] {
      assert Flat(tokens) == tokens[0] + Flat(tokens[1..]);
      PlainToken(tokens[0]);
      PlainTokens(stack, tokens[1..]);
    }
  }

  /** The tags open before the loose `<` are those the piece closes. */
  lemma OpenBeforeLoose(p: Piece, k: nat)
    requires PieceOk(p) && k < |p.body| && p.body[k] == "<" && '>' !in Flat(p.body[k + 1..])
    ensures After(p.reopened, Marks(p.body[..k])) == p.closed
  {
    var front, later := p.body[..k], ["<"] + p.body[k + 1..];
    assert p.body == front + later;
    MarksConcat(front, later);
    AfterConcat(p.reopened, Marks(front), Marks(later));
    FlatCons("<", p.body[k + 1..]);
    PlainTokens(After(p.reopened, Marks(front)), later);
  }

  lemma ReadMarks(p: Piece, k: nat)
    requires PieceOk(p) && p.closed != [] && k < |p.body| && After(p.reopened, Marks(p.body[..k])) == p.closed
    ensures After([], Marks(ReadTokens(p, k))) ==
            After(Transition(p.closed, MarkOf(Swallowed(p, k))), CloseMarks(p.closed, |p.closed| - 1))
  {
    var n := |p.closed| - 1;
    var open, front, close := OpenTokens(p.reopened), p.body[..k], CloseFrom(p.closed, n);
    MarksConcat(open, front + ([Swallowed(p, k)] + close));
    MarksConcat(front, [Swallowed(p, k)] + close);
    MarksCons(Swallowed(p, k), close);
    OpenTokenMarks(p.reopened, |p.reopened|);
    CloseTokenMarks(p.closed, n);
    OpenRebuilds(p.reopened, |p.reopened|);
    assert p.reopened[..|p.reopened|] == p.reopened;
    AfterConcat([], Marks(open), Marks(front) + Marks([Swallowed(p, k)] + close));
    AfterConcat(p.reopened, Marks(front), Marks([Swallowed(p, k)] + close));
    AfterCons(p.closed, MarkOf(Swallowed(p, k)), CloseMarks(p.closed, n));
  }

  /**
   * A piece that is not read as meant: from its first loose `<` on, everything
   * up to and including the first closing tag is one tag to the scanner, and the
   * tags left open are those that this tag and the other closing tags leave. If
   * a single tag is open there, it stays open unless that text closes it itself.
   */
  lemma LooseReading(line: string, limit: nat, i: nat) returns (k: nat)
    requires i < |Pieces(line, limit)| && !Meant(Pieces(line, limit)[i])
    ensures var p := Pieces(line, limit)[i];
            && k < |p.body| && Loose(p.body, k) && Tied(p.body[..k]) && Scan(Render(p)) == ReadTokens(p, k)
            && var left := After([], Marks(Scan(Render(p))));
               && left == After(Transition(p.closed, MarkOf(Swallowed(p, k))), CloseMarks(p.closed, |p.closed| - 1))
               && (|p.closed| == 1 ==> (left == [] <==> MarkOf(Swallowed(p, k)) == Closing(p.closed[0].0)))
  {
    PiecesChained(line, limit);
    var p := Pieces(line, limit)[i];
    assert PieceOk(p);
    var rest := BodyWasRead(line, limit, i);
    LooseIffNotTied(p.body);
    k := FirstLoose(p.body, 0);
    SwallowingReads(p, rest, k);
    SwallowingRenders(p, k);
    ScanReads(ReadTokens(p, k));
    OpenBeforeLoose(p, k);
    ReadMarks(p, k);
    if |p.closed| == 1 {
      ClosesOne(p.closed, MarkOf(Swallowed(p, k)));
    }
  }

  lemma ClosesOne(stack: Stack, mark: Mark)
    requires |stack| == 1
    ensures After(Transition(stack, mark), CloseMarks(stack, 0)) == [] <==> mark == Closing(stack[0].0)
  {
  }

  lemma {:induction false} OpenAtCut(pieces: seq<Piece>, last: Stack, i: nat)
    requires Chained(pieces, last) && i < |pieces|
    ensures pieces[i].reopened == After([], Marks(Bodies(pieces[..i])))
  {
    if i > 0 {
      OpenAtCut(pieces, last, i - 1);
      assert PieceOk(pieces[i - 1]);
      assert pieces[..i] == pieces[..i - 1] + [pieces[i - 1]];
      BodiesAppend(pieces[..i - 1], pieces[i - 1]);
      MarksConcat(Bodies(pieces[..i - 1]), pieces[i - 1].body);
      AfterConcat([], Marks(Bodies(pieces[..i - 1])), Marks(pieces[i - 1].body));
    }
  }
}
