/**
 * How full the pieces and chunks of a split message are: each takes all that
 * still fits, and nothing else cuts a text.
 */
module TelegramPacking {
  import opened Text
  import opened TelegramText
  import opened TelegramReading
  import opened TelegramSplit

  // ----- pieces of a long line -----

  /** The tags opened again, the tokens, and what closes the tags then open, are within the limit. */
  predicate Fitting(reopened: Stack, body: seq<string>, limit: nat) {
    Length(Open(reopened) + Flat(body) + Close(After(reopened, Marks(body)))) <= limit
  }

  /** Every token but the first was added because it still fitted. */
  predicate Filled(reopened: Stack, body: seq<string>, limit: nat) {
    forall k :: 1 < k <= |body| ==> Fitting(reopened, body[..k], limit)
  }

  /** The next token no longer fitted. */
  predicate Full(p: Piece, token: string, limit: nat) {
    !Fitting(p.reopened, p.body + [token], limit)
  }

  /** Each piece holds as many tokens as fit, and at least one. */
  predicate Greedy(pieces: seq<Piece>, limit: nat) {
    && (forall i :: 0 <= i < |pieces| ==> pieces[i].body != [] && Filled(pieces[i].reopened, pieces[i].body, limit))
    && (forall i :: 0 < i < |pieces| ==> FullBefore(pieces, i, limit))
  }

  predicate FullBefore(pieces: seq<Piece>, i: nat, limit: nat)
    requires 0 < i < |pieces|
  {
    pieces[i].body != [] && Full(pieces[i - 1], pieces[i].body[0], limit)
  }

  ghost predicate GreedySoFar(s: Split, limit: nat) {
    && s.stack == After(s.reopened, Marks(s.body)) && Filled(s.reopened, s.body, limit) && Greedy(s.done, limit)
    && (s.done != [] ==> s.body != [] && Full(s.done[|s.done| - 1], s.body[0], limit))
  }

  lemma FilledMore(reopened: Stack, body: seq<string>, token: string, limit: nat)
    requires Filled(reopened, body, limit) && (body != [] ==> Fitting(reopened, body + [token], limit))
    ensures Filled(reopened, body + [token], limit)
  {
    forall k | 1 < k <= |body| + 1 ensures Fitting(reopened, (body + [token])[..k], limit) {
      if k <= |body| {
        assert (body + [token])[..k] == body[..k];
      } else {
        assert (body + [token])[..k] == body + [token];
      }
    }
  }

  lemma GreedyMore(pieces: seq<Piece>, p: Piece, limit: nat)
    requires Greedy(pieces, limit) && p.body != [] && Filled(p.reopened, p.body, limit)
    requires pieces != [] ==> Full(pieces[|pieces| - 1], p.body[0], limit)
    ensures Greedy(pieces + [p], limit)
  {
    forall i | 0 < i <= |pieces| ensures FullBefore(pieces + [p], i, limit) {
      assert i < |pieces| ==> FullBefore(pieces, i, limit);
    }
  }

  lemma StepGreedy(s: Split, token: string, limit: nat)
    requires GreedySoFar(s, limit)
    ensures GreedySoFar(Step(s, token, limit), limit)
  {
    var next := Transition(s.stack, MarkOf(token));
    ReadNext(s.reopened, s.body, token);
    ReadNext(s.stack, [], token);
    FlatAppend(s.body, token);
    assert [] + [token] == [token];
    assert Open(s.reopened) + (Flat(s.body) + token) == Current(s) + token;
    assert Fitting(s.reopened, s.body + [token], limit) <==> Length(Current(s) + token + Close(next)) <= limit;
    if s.body != [] && Length(Current(s) + token + Close(next)) > limit {
      GreedyMore(s.done, Piece(s.reopened, s.body, s.stack), limit);
    } else {
      FilledMore(s.reopened, s.body, token, limit);
    }
  }

  lemma {:induction false} SplitGreedy(s: Split, tokens: seq<string>, limit: nat)
    requires GreedySoFar(s, limit)
    ensures GreedySoFar(SplitFrom(s, tokens, limit), limit)
    decreases |tokens|
  {
    if tokens != [] {
      StepGreedy(s, tokens[0], limit);
      SplitGreedy(Step(s, tokens[0], limit), tokens[1..], limit);
    }
  }

  /** A long line is cut only where the next token no longer fits, and there it is. */
  lemma PiecesGreedy(line: string, limit: nat)
    ensures Greedy(Pieces(line, limit), limit)
  {
    SplitGreedy(START, Scan(line), limit);
    FinishedGreedy(SplitFrom(START, Scan(line), limit), limit);
  }

  lemma FinishedGreedy(s: Split, limit: nat)
    requires GreedySoFar(s, limit)
    ensures Greedy(Finished(s), limit)
  {
    if s.body != [] {
      GreedyMore(s.done, Piece(s.reopened, s.body, s.stack), limit);
    }
  }

  /** A line is taken whole if and only if it is within the limit. */
  lemma LineWhole(line: string, limit: nat)
    ensures Length(line) <= limit ==> Renders(LinePieces(line, limit)) == [line]
    ensures Length(line) > limit ==> LinePieces(line, limit) == Pieces(line, limit) && Greedy(LinePieces(line, limit), limit)
  {
    WholeLine(line);
    PiecesGreedy(line, limit);
  }

  // ----- chunks -----

  /** The texts one under the other. */
  function Under(texts: seq<string>): string {
    if texts == [] then "" else if |texts| == 1 then texts[0] else Under(texts[..|texts| - 1]) + "\n" + texts[|texts| - 1]
  }

  /** Without the empty ones at the front. */
  function Begun(texts: seq<string>): seq<string> {
    if texts != [] && texts[0] == "" then Begun(texts[1..]) else texts
  }

  /** A chunk is its pieces one under the other, from the first that is not empty on. */
  lemma {:induction false} GluedIs(group: seq<Piece>)
    ensures Glued(group) == Under(Begun(Renders(group)))
    ensures Glued(group) == "" <==> Begun(Renders(group)) == []
  {
    if group != [] {
      var front := group[..|group| - 1];
      var text := Render(group[|group| - 1]);
      GluedIs(front);
      assert Renders(group) == Renders(front) + [text];
      BegunAppend(Renders(front), text);
      var texts := Begun(Renders(front));
      if texts != [] {
        assert (texts + [text])[..|texts|] == texts;
      }
    }
  }

  lemma {:induction false} BegunAppend(texts: seq<string>, text: string)
    ensures Begun(texts + [text]) == if Begun(texts) == [] then (if text == "" then [] else [text]) else Begun(texts) + [text]
  {
    if texts == [] {
      assert [text][1..] == [];
    } else if texts[0] == "" {
      assert (texts + [text])[1..] == texts[1..] + [text];
      BegunAppend(texts[1..], text);
    }
  }

  /** One more piece would exceed the limit. */
  predicate Exceeds(group: seq<Piece>, piece: Piece, limit: nat) {
    Glued(group) != "" && Length(Glued(group) + "\n" + Render(piece)) > limit
  }

  /** Each chunk takes pieces as long as they fit, and no longer. */
  predicate Packed(groups: seq<seq<Piece>>, limit: nat) {
    && (forall i :: 0 <= i < |groups| ==> NeverExceeded(groups[i], limit))
    && (forall i :: 0 < i < |groups| ==> CutBefore(groups, i, limit))
  }

  predicate CutBefore(groups: seq<seq<Piece>>, i: nat, limit: nat)
    requires 0 < i < |groups|
  {
    groups[i] != [] && Exceeds(groups[i - 1], groups[i][0], limit)
  }

  predicate NeverExceeded(group: seq<Piece>, limit: nat) {
    forall k :: 0 <= k < |group| ==> !Exceeds(group[..k], group[k], limit)
  }

  ghost predicate PackedSoFar(p: Pack, limit: nat) {
    && Packed(p.groups, limit) && NeverExceeded(p.group, limit)
    && (p.groups != [] ==> p.group != [] && Exceeds(p.groups[|p.groups| - 1], p.group[0], limit))
  }

  lemma NeverMore(group: seq<Piece>, piece: Piece, limit: nat)
    requires NeverExceeded(group, limit) && !Exceeds(group, piece, limit)
    ensures NeverExceeded(group + [piece], limit)
  {
    forall k | 0 <= k <= |group| ensures !Exceeds((group + [piece])[..k], (group + [piece])[k], limit) {
      assert (group + [piece])[..k] == group[..k];
      assert k == |group| ==> group[..k] == group;
    }
  }

  lemma PackedMore(groups: seq<seq<Piece>>, group: seq<Piece>, limit: nat)
    requires Packed(groups, limit) && NeverExceeded(group, limit)
    requires groups != [] ==> group != [] && Exceeds(groups[|groups| - 1], group[0], limit)
    ensures Packed(groups + [group], limit)
  {
    forall i | 0 < i <= |groups| ensures CutBefore(groups + [group], i, limit) {
      assert i < |groups| ==> CutBefore(groups, i, limit);
    }
  }

  lemma PlacePacked(p: Pack, piece: Piece, limit: nat)
    requires PackedSoFar(p, limit)
    ensures PackedSoFar(Place(p, piece, limit), limit)
  {
    if Exceeds(p.group, piece, limit) {
      PackedMore(p.groups, p.group, limit);
      assert Glued([piece][..0]) == "";
    } else {
      NeverMore(p.group, piece, limit);
    }
  }

  lemma {:induction false} PlaceAllPacked(p: Pack, pieces: seq<Piece>, limit: nat)
    requires PackedSoFar(p, limit)
    ensures PackedSoFar(PlaceAll(p, pieces, limit), limit)
    decreases |pieces|
  {
    if pieces != [] {
      PlacePacked(p, pieces[0], limit);
      PlaceAllPacked(Place(p, pieces[0], limit), pieces[1..], limit);
    }
  }

  lemma {:induction false} PlaceLinesPacked(p: Pack, lines: seq<string>, limit: nat)
    requires PackedSoFar(p, limit)
    ensures PackedSoFar(PlaceLines(p, lines, limit), limit)
    decreases |lines|
  {
    if lines != [] {
      PlaceAllPacked(p, LinePieces(lines[0], limit), limit);
      PlaceLinesPacked(PlaceAll(p, LinePieces(lines[0], limit), limit), lines[1..], limit);
    }
  }

  /** No chunk is empty. */
  predicate Filling(groups: seq<seq<Piece>>) {
    forall i :: 0 <= i < |groups| ==> Glued(groups[i]) != ""
  }

  /** A chunk is closed only when it holds something. */
  lemma {:induction false} PlaceAllFilling(p: Pack, pieces: seq<Piece>, limit: nat)
    requires Filling(p.groups)
    ensures Filling(PlaceAll(p, pieces, limit).groups)
    decreases |pieces|
  {
    if pieces != [] {
      PlaceAllFilling(Place(p, pieces[0], limit), pieces[1..], limit);
    }
  }

  lemma {:induction false} PlaceLinesFilling(p: Pack, lines: seq<string>, limit: nat)
    requires Filling(p.groups)
    ensures Filling(PlaceLines(p, lines, limit).groups)
    decreases |lines|
  {
    if lines != [] {
      PlaceAllFilling(p, LinePieces(lines[0], limit), limit);
      PlaceLinesFilling(PlaceAll(p, LinePieces(lines[0], limit), limit), lines[1..], limit);
    }
  }

  lemma GroupsFilling(p: Pack)
    requires Filling(p.groups)
    ensures Groups(p) != [] && (Filling(Groups(p)) || |Groups(p)| == 1)
  {
  }

  /** The pieces of all lines, in order. */
  function AllPieces(lines: seq<string>, limit: nat): seq<Piece> {
    if lines == [] then [] else LinePieces(lines[0], limit) + AllPieces(lines[1..], limit)
  }

  function Together(groups: seq<seq<Piece>>): seq<Piece> {
    if groups == [] then [] else Together(groups[..|groups| - 1]) + groups[|groups| - 1]
  }

  function Taken(p: Pack): seq<Piece> {
    Together(p.groups) + p.group
  }

  lemma PlaceTakes(p: Pack, piece: Piece, limit: nat)
    ensures Taken(Place(p, piece, limit)) == Taken(p) + [piece]
  {
    TogetherAppend(p.groups, p.group);
    Grouped(Together(p.groups), p.group, [piece]);
  }

  lemma TogetherAppend(groups: seq<seq<Piece>>, group: seq<Piece>)
    ensures Together(groups + [group]) == Together(groups) + group
  {
    assert (groups + [group])[..|groups|] == groups;
  }

  lemma {:induction false} PlaceAllTakes(p: Pack, pieces: seq<Piece>, limit: nat)
    ensures Taken(PlaceAll(p, pieces, limit)) == Taken(p) + pieces
    decreases |pieces|
  {
    if pieces == [] {
      assert Taken(p) + [] == Taken(p);
    } else {
      PlaceTakes(p, pieces[0], limit);
      PlaceAllTakes(Place(p, pieces[0], limit), pieces[1..], limit);
      Grouped(Taken(p), [pieces[0]], pieces[1..]);
      assert [pieces[0]] + pieces[1..] == pieces;
    }
  }

  lemma {:induction false} PlaceLinesTakes(p: Pack, lines: seq<string>, limit: nat)
    ensures Taken(PlaceLines(p, lines, limit)) == Taken(p) + AllPieces(lines, limit)
    decreases |lines|
  {
    if lines == [] {
      assert Taken(p) + [] == Taken(p);
    } else {
      var next := PlaceAll(p, LinePieces(lines[0], limit), limit);
      PlaceAllTakes(p, LinePieces(lines[0], limit), limit);
      PlaceLinesTakes(next, lines[1..], limit);
      Grouped(Taken(p), LinePieces(lines[0], limit), AllPieces(lines[1..], limit));
    }
  }

  lemma Grouped(a: seq<Piece>, b: seq<Piece>, c: seq<Piece>)
    ensures a + b + c == a + (b + c)
  {
  }

  /**
   * The chunks of a long text are all pieces of all its lines, in order, cut only
   * where the next piece does not fit; at most an empty end is left out, and no
   * chunk is empty but the only one of a text of empty lines.
   */
  lemma MessagePacked(text: string, limit: nat) returns (end: seq<Piece>)
    ensures var groups := MessageGroups(text, limit);
            Packed(groups, limit) && Together(groups) + end == AllPieces(SplitLines(text), limit) && Glued(end) == ""
    ensures var groups := MessageGroups(text, limit); groups != [] && (Filling(groups) || |groups| == 1)
  {
    var start := Pack([], []);
    assert PackedSoFar(start, limit) && Taken(start) == [];
    PlaceLinesPacked(start, SplitLines(text), limit);
    PlaceLinesTakes(start, SplitLines(text), limit);
    PlaceLinesFilling(start, SplitLines(text), limit);
    GroupsFilling(PlaceLines(start, SplitLines(text), limit));
    end := GroupsTake(PlaceLines(start, SplitLines(text), limit), limit);
    assert [] + AllPieces(SplitLines(text), limit) == AllPieces(SplitLines(text), limit);
  }

  lemma GroupsTake(p: Pack, limit: nat) returns (end: seq<Piece>)
    requires PackedSoFar(p, limit)
    ensures Packed(Groups(p), limit) && Together(Groups(p)) + end == Taken(p) && Glued(end) == ""
  {
    if Groups(p) == p.groups {
      end := p.group;
    } else {
      AllSent(p, limit);
      end := [];
      assert Taken(p) + end == Taken(p);
    }
  }

  lemma AllSent(p: Pack, limit: nat)
    requires PackedSoFar(p, limit)
    ensures Packed(p.groups + [p.group], limit) && Together(p.groups + [p.group]) == Taken(p)
  {
    PackedMore(p.groups, p.group, limit);
    TogetherAppend(p.groups, p.group);
  }

  // ----- short texts and oversized tags -----

  /** A tag that does not fit even with nothing but what closes it. */
  lemma OversizedIff(token: string, limit: nat)
    ensures Oversized(token, limit) <==> TagBegins(token) && Length(token) + Length(Close(Transition([], MarkOf(token)))) > limit
  {
    if token != "" {
      if n :| 0 < n <= |token| && IsTag(token[..n]) {
        TagIff(token, n);
      }
      if TagLength(token) > 0 {
        TagIff(token, TagLength(token));
      }
    }
    match MarkOf(token)
    case Opening(name, t) =>
      CloseLength(name, t);
      assert Transition([], MarkOf(token)) == [(name, t)];
    case Closing(name) => assert Close([]) == "";
    case Plain => assert Close([]) == "";
  }

  ghost predicate TagBegins(token: string) {
    exists n :: 0 < n <= |token| && IsTag(token[..n])
  }

  /** A name of the tag expression has plain characters only. */
  lemma CloseLength(name: string, token: string)
    requires MarkOf(token) == Opening(name, token)
    ensures Length(Close([(name, token)])) == |name| + 3
  {
    MarkNames(token);
    var stack := [(name, token)];
    var none: nat := 0;
    assert CloseFrom(stack, none) == [];
    assert CloseTokens(stack) == [CloseToken(name)] + [] == [] + [CloseToken(name)];
    FlatAppend([], CloseToken(name));
    assert Close(stack) == "" + CloseToken(name) == CloseToken(name);
    PlainLength(CloseToken(name));
  }

  lemma {:induction false} PlainLength(s: string)
    requires forall i :: 0 <= i < |s| ==> s[i] as int <= 0xFFFF
    ensures Length(s) == |s|
  {
    if s != [] {
      PlainLength(s[1..]);
    }
  }

  /** A text without an oversized tag stays as it is, and in one chunk if it is short. */
  lemma ShortWhole(text: string, limit: nat)
    requires forall token :: token in Scan(text) ==> !Oversized(token, limit)
    ensures Length(text) <= limit ==> MessageChunks(text, limit) == [text]
    ensures Length(text) > limit ==> MessageChunks(text, limit) == Chunks(MessageGroups(text, limit))
  {
  }

  /** And one with an oversized tag is escaped as a whole. */
  lemma OversizedEscaped(text: string, limit: nat, token: string)
    requires token in Scan(text) && Oversized(token, limit)
    ensures var safe := EscapeHtml(text);
            MessageChunks(text, limit) == if Length(safe) <= limit then [safe] else Chunks(MessageGroups(safe, limit))
  {
  }

  // ----- escaping -----

  /** What a reader of HTML makes of the front of a text: a character, and how many it stands for. */
  function Decoded(s: string): (r: (char, nat))
    requires s != ""
    ensures 1 <= r.1 <= |s|
  {
    if "&amp;" <= s then ('&', 5)
    else if "&lt;" <= s then ('<', 4)
    else if "&gt;" <= s then ('>', 4)
    else if "&quot;" <= s then ('"', 6)
    else if "&#x27;" <= s then ('\'', 6)
    else (s[0], 1)
  }

  function Unescaped(s: string): string
    decreases |s|
  {
    if s == "" then "" else [Decoded(s).0] + Unescaped(s[Decoded(s).1..])
  }

  /** Escaping is undone by reading, and (below) leaves no character that could begin or end a tag or an attribute. */
  lemma {:induction false} EscapeUndone(s: string)
    ensures Unescaped(EscapeHtml(s)) == s
  {
    if s != "" {
      EscapeUndone(s[1..]);
      EscapeOne(s[0], EscapeHtml(s[1..]));
      assert s == [s[0]] + s[1..];
    }
  }

  lemma {:induction false} EscapedPlain(s: string)
    ensures forall c :: c in EscapeHtml(s) ==> c != '<' && c != '>' && c != '"' && c != '\''
  {
    if s != "" {
      EscapedPlain(s[1..]);
    }
  }

  lemma EscapeOne(c: char, rest: string)
    ensures var s := EscapeChar(c) + rest; Decoded(s) == (c, |EscapeChar(c)|) && s[|EscapeChar(c)|..] == rest
  {
    var s := EscapeChar(c) + rest;
    assert s[|EscapeChar(c)|..] == rest && s[0] == EscapeChar(c)[0];
    if EscapeChar(c) != [c] {
      assert EscapeChar(c) <= s && s[1] == EscapeChar(c)[1];
    }
  }
}
