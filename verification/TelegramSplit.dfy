/**
 * Splitting a Telegram message in app/notifier.py: by lines where possible, a
 * long line between HTML tokens, closing the open tags at each cut and opening
 * them again after it.
 */
module TelegramSplit {
  import opened Text
  import opened TelegramText

  /** A stretch of a line between two cuts: the tags opened again, its own tokens, the tags closed. */
  datatype Piece = Piece(reopened: Stack, body: seq<string>, closed: Stack)

  function Render(p: Piece): string {
    Open(p.reopened) + Flat(p.body) + Close(p.closed)
  }

  /** The state of the split: finished pieces, and the open one. */
  datatype Split = Split(done: seq<Piece>, reopened: Stack, body: seq<string>, stack: Stack)

  const START := Split([], [], [], [])

  function Current(s: Split): string {
    Open(s.reopened) + Flat(s.body)
  }

  function Step(s: Split, token: string, limit: nat): Split {
    StepTo(s, token, Transition(s.stack, MarkOf(token)), limit)
  }

  /** The token, after which the tags in `next` are open, joins the piece or starts a new one. */
  function StepTo(s: Split, token: string, next: Stack, limit: nat): Split {
    if s.body != [] && Length(Current(s) + token + Close(next)) > limit then
      Split(s.done + [Piece(s.reopened, s.body, s.stack)], s.stack, [token], next)
    else Split(s.done, s.reopened, s.body + [token], next)
  }

  function SplitFrom(s: Split, tokens: seq<string>, limit: nat): Split
    decreases |tokens|
  {
    if tokens == [] then s else SplitFrom(Step(s, tokens[0], limit), tokens[1..], limit)
  }

  function Finished(s: Split): seq<Piece> {
    if s.body == [] then s.done else s.done + [Piece(s.reopened, s.body, s.stack)]
  }

  /** The pieces of a long line. */
  function Pieces(line: string, limit: nat): seq<Piece> {
    Finished(SplitFrom(START, Scan(line), limit))
  }

  function Renders(pieces: seq<Piece>): seq<string> {
    seq(|pieces|, i requires 0 <= i < |pieces| => Render(pieces[i]))
  }

  predicate Solid(tokens: seq<string>) {
    forall i :: 0 <= i < |tokens| ==> tokens[i] != ""
  }

  lemma FlatSolid(tokens: seq<string>)
    requires Solid(tokens)
    ensures Flat(tokens) == "" <==> tokens == []
  {
  }

  lemma RendersAppend(pieces: seq<Piece>, p: Piece)
    ensures Renders(pieces + [p]) == Renders(pieces) + [Render(p)]
  {
  }

  /** The source asks whether anything was added to the re-opened tags; that is whether the body has tokens. */
  lemma GrewIffBody(s: Split)
    requires Solid(s.body)
    ensures s.body != [] <==> Length(Current(s)) > Length(Open(s.reopened))
    ensures s.body != [] ==> Current(s) != ""
  {
    LengthConcat(Open(s.reopened), Flat(s.body));
    LengthPositive(Flat(s.body));
    FlatSolid(s.body);
  }

  lemma StepText(s: Split, token: string, limit: nat)
    requires Solid(s.body) && token != ""
    ensures Solid(Step(s, token, limit).body) && Step(s, token, limit).body != []
    ensures var s' := Step(s, token, limit);
            if s.body != [] && Length(Current(s) + token + Close(s'.stack)) > limit then
              Renders(s'.done) == Renders(s.done) + [Current(s) + Close(s.stack)] && Current(s') == Open(s.stack) + token && s'.reopened == s.stack
            else s'.done == s.done && Current(s') == Current(s) + token && s'.reopened == s.reopened
  {
    RendersAppend(s.done, Piece(s.reopened, s.body, s.stack));
    FlatAppend(s.body, token);
    FlatAppend([], token);
    assert [] + [token] == [token];
    assert "" + token == token;
    assert Open(s.reopened) + (Flat(s.body) + token) == Current(s) + token;
  }

  method SplitLongLine(line: string, limit: nat) returns (chunks: seq<string>)
    ensures chunks == if line == "" then [""] else Renders(Pieces(line, limit))
  {
    ScanWhole(line);
    var tokens := Scan(line);
    chunks := [];
    var stack: Stack := [];
    var current := "";
    var prefixLength := 0;
    ghost var s := START;
    var i := 0;
    while i < |tokens|
      invariant i <= |tokens| && SplitFrom(START, tokens, limit) == SplitFrom(s, tokens[i..], limit)
      invariant chunks == Renders(s.done) && stack == s.stack && current == Current(s)
      invariant prefixLength == Length(Open(s.reopened)) && Solid(s.body) && (i > 0 ==> s.body != [])
    {
      var token := tokens[i];
      var nextStack := Transition(stack, MarkOf(token));
      var suffix := Close(nextStack);
      SplitNext(s, tokens, i, limit);
      GrewIffBody(s);
      StepText(s, token, limit);
      if current != "" && Length(current + token + suffix) > limit && Length(current) > prefixLength {
        current := current + Close(stack);
        chunks := chunks + [current];
        current := Open(stack);
        prefixLength := Length(current);
      }
      current := current + token;
      stack := nextStack;
      s := Step(s, token, limit);
      i := i + 1;
    }
    GrewIffBody(s);
    assert tokens[i..] == [];
    if current != "" {
      chunks := chunks + [current + Close(stack)];
      RendersAppend(s.done, Piece(s.reopened, s.body, s.stack));
      assert line != "";
    } else {
      chunks := [""];
      assert line == "";
    }
  }

  lemma SplitNext(s: Split, tokens: seq<string>, i: nat, limit: nat)
    requires i < |tokens|
    ensures SplitFrom(s, tokens[i..], limit) == SplitFrom(Step(s, tokens[i], limit), tokens[i + 1..], limit)
  {
    assert tokens[i..][0] == tokens[i] && tokens[i..][1..] == tokens[i + 1..];
  }

  // ----- nothing is lost, and tags are opened again -----

  function Bodies(pieces: seq<Piece>): seq<string> {
    if pieces == [] then [] else pieces[0].body + Bodies(pieces[1..])
  }

  lemma {:induction false} BodiesConcat(s: seq<Piece>, t: seq<Piece>)
    ensures Bodies(s + t) == Bodies(s) + Bodies(t)
  {
    if s == [] {
      assert s + t == t;
    } else {
      var u := s + t;
      assert u[0] == s[0] && u[1..] == s[1..] + t;
      BodiesConcat(s[1..], t);
      assert Bodies(u) == s[0].body + (Bodies(s[1..]) + Bodies(t));
    }
  }

  lemma BodiesAppend(s: seq<Piece>, p: Piece)
    ensures Bodies(s + [p]) == Bodies(s) + p.body
  {
    BodiesConcat(s, [p]);
    assert [p][1..] == [];
  }

  function Consumed(s: Split): seq<string> {
    Bodies(s.done) + s.body
  }

  lemma StepConsumes(s: Split, token: string, limit: nat)
    ensures Consumed(Step(s, token, limit)) == Consumed(s) + [token]
  {
    BodiesAppend(s.done, Piece(s.reopened, s.body, s.stack));
  }

  lemma {:induction false} SplitConsumes(s: Split, tokens: seq<string>, limit: nat)
    ensures Consumed(SplitFrom(s, tokens, limit)) == Consumed(s) + tokens
    decreases |tokens|
  {
    if tokens == [] {
      assert Consumed(s) + [] == Consumed(s);
    } else {
      var next := Step(s, tokens[0], limit);
      StepConsumes(s, tokens[0], limit);
      SplitConsumes(next, tokens[1..], limit);
      Regroup(Consumed(s), [tokens[0]], tokens[1..]);
      assert [tokens[0]] + tokens[1..] == tokens;
    }
  }

  /** Dropping the inserted tags, the pieces are the tokens of the line, in order. */
  lemma PiecesRecoverLine(line: string, limit: nat)
    ensures Bodies(Pieces(line, limit)) == Scan(line) && Flat(Bodies(Pieces(line, limit))) == line
  {
    var s := SplitFrom(START, Scan(line), limit);
    SplitConsumes(START, Scan(line), limit);
    BodiesAppend(s.done, Piece(s.reopened, s.body, s.stack));
    ScanWhole(line);
    assert Consumed(START) + Scan(line) == Scan(line);
    assert s.body == [] ==> Bodies(s.done) + s.body == Bodies(s.done);
  }

  /** A piece closes exactly the tags open after its tokens. */
  ghost predicate PieceOk(p: Piece) {
    && p.body != [] && Solid(p.body) && StackOk(p.reopened) && StackOk(p.closed)
    && p.closed == After(p.reopened, Marks(p.body))
  }

  /** Each piece opens again what the one before it closed. */
  ghost predicate Chained(pieces: seq<Piece>, last: Stack) {
    && (forall i {:trigger PieceOk(pieces[i])} :: 0 <= i < |pieces| ==> PieceOk(pieces[i]))
    && (pieces != [] ==> pieces[0].reopened == [] && pieces[|pieces| - 1].closed == last)
    && (pieces == [] ==> last == [])
    && forall i :: 0 < i < |pieces| ==> pieces[i].reopened == pieces[i - 1].closed
  }

  ghost predicate SplitOk(s: Split) {
    && Chained(s.done, s.reopened) && StackOk(s.reopened) && StackOk(s.stack) && Solid(s.body)
    && s.stack == After(s.reopened, Marks(s.body))
  }

  lemma ChainedAppend(pieces: seq<Piece>, p: Piece)
    requires Chained(pieces, p.reopened) && PieceOk(p)
    ensures Chained(pieces + [p], p.closed)
  {
    var all := pieces + [p];
    forall i | 0 <= i < |all| ensures PieceOk(all[i]) {
      if i < |pieces| {
        assert PieceOk(pieces[i]);
      }
    }
  }

  lemma ReadNext(stack: Stack, body: seq<string>, token: string)
    ensures After(stack, Marks(body + [token])) == Transition(After(stack, Marks(body)), MarkOf(token))
  {
    MarksConcat(body, [token]);
    MarksOne(token);
    AfterAppend(stack, Marks(body), MarkOf(token));
  }

  lemma StepOk(s: Split, token: string, limit: nat)
    requires SplitOk(s) && token != ""
    ensures SplitOk(Step(s, token, limit))
  {
    TransitionOk(s.stack, token);
    ReadNext(s.reopened, s.body, token);
    ReadNext(s.stack, [], token);
    assert [] + [token] == [token];
    if s.body != [] {
      ChainedAppend(s.done, Piece(s.reopened, s.body, s.stack));
    }
  }

  lemma {:induction false} SplitFromOk(s: Split, tokens: seq<string>, limit: nat)
    requires SplitOk(s) && Solid(tokens)
    ensures SplitOk(SplitFrom(s, tokens, limit))
    decreases |tokens|
  {
    if tokens != [] {
      StepOk(s, tokens[0], limit);
      SplitFromOk(Step(s, tokens[0], limit), tokens[1..], limit);
    }
  }

  lemma PiecesChained(line: string, limit: nat)
    ensures var pieces := Pieces(line, limit); Chained(pieces, if pieces == [] then [] else pieces[|pieces| - 1].closed)
  {
    ScanWhole(line);
    var s := SplitFrom(START, Scan(line), limit);
    SplitFromOk(START, Scan(line), limit);
    if s.body != [] {
      ChainedAppend(s.done, Piece(s.reopened, s.body, s.stack));
    }
  }

  // ----- the limit -----

  /** At every token: the open tags, the token, and the tags to close after it fit together. */
  predicate Fits(stack: Stack, tokens: seq<string>, limit: nat)
    decreases |tokens|
  {
    tokens == [] ||
    (var next := Transition(stack, MarkOf(tokens[0]));
     Length(Open(stack)) + Length(tokens[0]) + Length(Close(next)) <= limit && Fits(next, tokens[1..], limit))
  }

  predicate Small(pieces: seq<Piece>, limit: nat) {
    forall i :: 0 <= i < |pieces| ==> Length(Render(pieces[i])) <= limit
  }

  /** The open piece could be closed right now. */
  predicate Closable(s: Split, limit: nat) {
    && (s.body == [] ==> s.reopened == [] && s.stack == [])
    && Length(Current(s) + Close(s.stack)) <= limit
  }

  lemma SmallAppend(pieces: seq<Piece>, p: Piece, limit: nat)
    requires Small(pieces, limit) && Length(Render(p)) <= limit
    ensures Small(pieces + [p], limit)
  {
  }

  lemma CutCloses(s: Split, token: string, next: Stack, limit: nat)
    requires Closable(s, limit) && Small(s.done, limit) && s.body != []
    requires Length(Open(s.stack)) + Length(token) + Length(Close(next)) <= limit
    ensures Closable(Split(s.done + [Piece(s.reopened, s.body, s.stack)], s.stack, [token], next), limit)
    ensures Small(s.done + [Piece(s.reopened, s.body, s.stack)], limit)
  {
    Fresh(s.stack, token, next, limit);
    SmallAppend(s.done, Piece(s.reopened, s.body, s.stack), limit);
  }

  lemma StayCloses(s: Split, token: string, next: Stack, limit: nat)
    requires Closable(s, limit) && (s.body != [] ==> Length(Current(s) + token + Close(next)) <= limit)
    requires Length(Open(s.stack)) + Length(token) + Length(Close(next)) <= limit
    ensures Closable(Split(s.done, s.reopened, s.body + [token], next), limit)
  {
    if s.body == [] {
      assert s.body + [token] == [token];
      Fresh(s.stack, token, next, limit);
    } else {
      FlatAppend(s.body, token);
      assert Open(s.reopened) + (Flat(s.body) + token) == Current(s) + token;
    }
  }

  lemma StepCloses(s: Split, token: string, next: Stack, limit: nat)
    requires Closable(s, limit) && Small(s.done, limit)
    requires Length(Open(s.stack)) + Length(token) + Length(Close(next)) <= limit
    ensures Closable(StepTo(s, token, next, limit), limit) && Small(StepTo(s, token, next, limit).done, limit)
  {
    if s.body != [] && Length(Current(s) + token + Close(next)) > limit {
      CutCloses(s, token, next, limit);
    } else {
      StayCloses(s, token, next, limit);
    }
  }

  /** A piece of one token is closable when it fits between the tags. */
  lemma Fresh(stack: Stack, token: string, next: Stack, limit: nat)
    requires Length(Open(stack)) + Length(token) + Length(Close(next)) <= limit
    ensures Length(Open(stack) + Flat([token]) + Close(next)) <= limit
  {
    FlatAppend([], token);
    assert [] + [token] == [token] && "" + token == token;
    LengthConcat(Open(stack) + token, Close(next));
    LengthConcat(Open(stack), token);
  }

  lemma {:induction false} SplitFromCloses(s: Split, tokens: seq<string>, limit: nat)
    requires Closable(s, limit) && Small(s.done, limit) && Fits(s.stack, tokens, limit)
    ensures Closable(SplitFrom(s, tokens, limit), limit) && Small(SplitFrom(s, tokens, limit).done, limit)
    decreases |tokens|
  {
    if tokens != [] {
      StepCloses(s, tokens[0], Transition(s.stack, MarkOf(tokens[0])), limit);
      SplitFromCloses(Step(s, tokens[0], limit), tokens[1..], limit);
    }
  }

  /** If re-opened tags, one token and the closing tags always fit, every piece is within the limit. */
  lemma PiecesWithinLimit(line: string, limit: nat)
    requires Fits([], Scan(line), limit)
    ensures Small(Pieces(line, limit), limit)
  {
    assert Flat(CloseTokens([])) == "";
    SplitFromCloses(START, Scan(line), limit);
  }

  // ----- whole messages -----

  /** A line as it enters the chunks: whole if it is short enough. */
  function LinePieces(line: string, limit: nat): seq<Piece> {
    if Length(line) <= limit then [Piece([], Scan(line), [])] else Pieces(line, limit)
  }

  /** Pieces are joined by newlines; an empty start adds none. */
  function Glue(current: string, piece: string): string {
    if current != "" then current + "\n" + piece else piece
  }

  function Glued(group: seq<Piece>): string {
    if group == [] then "" else Glue(Glued(group[..|group| - 1]), Render(group[|group| - 1]))
  }

  /** Chunks as groups of pieces: the finished ones and the open one. */
  datatype Pack = Pack(groups: seq<seq<Piece>>, group: seq<Piece>)

  function Place(p: Pack, piece: Piece, limit: nat): Pack {
    if Glued(p.group) != "" && Length(Glue(Glued(p.group), Render(piece))) > limit then Pack(p.groups + [p.group], [piece])
    else Pack(p.groups, p.group + [piece])
  }

  function PlaceAll(p: Pack, pieces: seq<Piece>, limit: nat): Pack
    decreases |pieces|
  {
    if pieces == [] then p else PlaceAll(Place(p, pieces[0], limit), pieces[1..], limit)
  }

  function PlaceLines(p: Pack, lines: seq<string>, limit: nat): Pack
    decreases |lines|
  {
    if lines == [] then p else PlaceLines(PlaceAll(p, LinePieces(lines[0], limit), limit), lines[1..], limit)
  }

  function Groups(p: Pack): seq<seq<Piece>> {
    if Glued(p.group) != "" || p.groups == [] then p.groups + [p.group] else p.groups
  }

  function Chunks(groups: seq<seq<Piece>>): seq<string> {
    seq(|groups|, i requires 0 <= i < |groups| => Glued(groups[i]))
  }

  function EscapeChar(c: char): string {
    if c == '&' then "&amp;"
    else if c == '<' then "&lt;"
    else if c == '>' then "&gt;"
    else if c == '"' then "&quot;"
    else if c == '\'' then "&#x27;"
    else [c]
  }

  /** `html.escape` */
  function EscapeHtml(s: string): string {
    if s == [] then [] else EscapeChar(s[0]) + EscapeHtml(s[1..])
  }

  /** A tag that with its own closing tag exceeds the limit by itself. */
  predicate Oversized(token: string, limit: nat) {
    && token != "" && token[0] == '<' && TagLength(token) > 0
    && var overhead := match TagOf(token)
         case Some(Tag(false, name)) => if SelfClosing(token) then 0 else |name| + 3
         case _ => 0;
       Length(token) + overhead > limit
  }

  predicate HasOversized(text: string, limit: nat) {
    exists i :: 0 <= i < |Scan(text)| && Oversized(Scan(text)[i], limit)
  }

  function Safe(text: string, limit: nat): string {
    if HasOversized(text, limit) then EscapeHtml(text) else text
  }

  /** The groups of pieces that a text over the limit is sent as. */
  function MessageGroups(text: string, limit: nat): seq<seq<Piece>> {
    Groups(PlaceLines(Pack([], []), SplitLines(text), limit))
  }

  /** The chunks of a text: itself if it is short, else its groups of pieces. */
  function MessageChunks(text: string, limit: nat): seq<string> {
    var safe := Safe(text, limit);
    if Length(safe) <= limit then [safe] else Chunks(MessageGroups(safe, limit))
  }

  lemma PlaceNext(p: Pack, pieces: seq<Piece>, i: nat, limit: nat)
    requires i < |pieces|
    ensures PlaceAll(p, pieces[i..], limit) == PlaceAll(Place(p, pieces[i], limit), pieces[i + 1..], limit)
  {
    assert pieces[i..][0] == pieces[i] && pieces[i..][1..] == pieces[i + 1..];
  }

  lemma PlaceNextLine(p: Pack, lines: seq<string>, i: nat, limit: nat)
    requires i < |lines|
    ensures PlaceLines(p, lines[i..], limit) == PlaceLines(PlaceAll(p, LinePieces(lines[i], limit), limit), lines[i + 1..], limit)
  {
    assert lines[i..][0] == lines[i] && lines[i..][1..] == lines[i + 1..];
  }

  lemma GluedAppend(group: seq<Piece>, piece: Piece)
    ensures Glued(group + [piece]) == Glue(Glued(group), Render(piece))
  {
    assert (group + [piece])[..|group|] == group;
  }

  lemma GluedOne(piece: Piece)
    ensures Glued([piece]) == Render(piece)
  {
    assert [piece][..0] == [];
  }

  lemma WholeLine(line: string)
    ensures Render(Piece([], Scan(line), [])) == line
  {
    ScanWhole(line);
  }

  /** The rendered pieces of one line, as the source computes them. */
  method LineTexts(line: string, limit: nat) returns (texts: seq<string>)
    ensures texts == Renders(LinePieces(line, limit))
  {
    WholeLine(line);
    if Length(line) <= limit {
      texts := [line];
    } else {
      texts := SplitLongLine(line, limit);
    }
  }

  method SplitMessage(text: string, limit: nat) returns (chunks: seq<string>)
    requires limit >= 1
    ensures chunks == MessageChunks(text, limit)
  {
    var safe := Safe(text, limit);
    if Length(safe) <= limit {
      return [safe];
    }
    chunks := PackLines(SplitLines(safe), limit);
  }

  method PackLines(lines: seq<string>, limit: nat) returns (chunks: seq<string>)
    ensures chunks == Chunks(Groups(PlaceLines(Pack([], []), lines, limit)))
  {
    chunks := [];
    var current := "";
    ghost var p := Pack([], []);
    var i := 0;
    assert lines[0..] == lines;
    while i < |lines|
      invariant i <= |lines| && chunks == Chunks(p.groups) && current == Glued(p.group)
      invariant PlaceLines(Pack([], []), lines, limit) == PlaceLines(p, lines[i..], limit)
    {
      PlaceNextLine(p, lines, i, limit);
      chunks, current, p := PlaceLine(chunks, current, lines[i], limit, p);
      i := i + 1;
    }
    assert lines[i..] == [];
    ChunksAppend(p.groups, p.group);
    if current != "" || chunks == [] {
      chunks := chunks + [current];
    }
  }

  lemma ChunksAppend(groups: seq<seq<Piece>>, group: seq<Piece>)
    ensures Chunks(groups + [group]) == Chunks(groups) + [Glued(group)] && |Chunks(groups)| == |groups|
  {
  }

  lemma PlaceText(p: Pack, piece: Piece, limit: nat)
    ensures var p' := Place(p, piece, limit);
            var candidate := Glue(Glued(p.group), Render(piece));
            if Glued(p.group) != "" && Length(candidate) > limit then
              Chunks(p'.groups) == Chunks(p.groups) + [Glued(p.group)] && Glued(p'.group) == Render(piece)
            else p'.groups == p.groups && Glued(p'.group) == candidate
  {
    GluedAppend(p.group, piece);
    GluedOne(piece);
    ChunksAppend(p.groups, p.group);
  }

  /** The inner loop: each piece joins the open chunk if it still fits, and starts the next one otherwise. */
  method PlaceLine(done: seq<string>, open: string, line: string, limit: nat, ghost before: Pack)
    returns (chunks: seq<string>, current: string, ghost p: Pack)
    requires done == Chunks(before.groups) && open == Glued(before.group)
    ensures p == PlaceAll(before, LinePieces(line, limit), limit)
    ensures chunks == Chunks(PlaceAll(before, LinePieces(line, limit), limit).groups)
    ensures current == Glued(PlaceAll(before, LinePieces(line, limit), limit).group)
  {
    chunks, current, p := done, open, before;
    var texts := LineTexts(line, limit);
    ghost var pieces := LinePieces(line, limit);
    var k := 0;
    assert pieces[0..] == pieces;
    while k < |texts|
      invariant k <= |texts| && chunks == Chunks(p.groups) && current == Glued(p.group)
      invariant PlaceAll(before, pieces, limit) == PlaceAll(p, pieces[k..], limit)
    {
      PlaceNext(p, pieces, k, limit);
      PlaceText(p, pieces[k], limit);
      var candidate := if current != "" then current + "\n" + texts[k] else texts[k];
      if current != "" && Length(candidate) > limit {
        chunks := chunks + [current];
        current := texts[k];
      } else {
        current := candidate;
      }
      p := Place(p, pieces[k], limit);
      k := k + 1;
    }
    assert pieces[k..] == [];
  }

  // ----- whole messages: nothing lost, and the limit -----

  function LineTokens(lines: seq<string>): seq<string> {
    if lines == [] then [] else Scan(lines[0]) + LineTokens(lines[1..])
  }

  function GroupBodies(groups: seq<seq<Piece>>): seq<string> {
    if groups == [] then [] else Bodies(groups[0]) + GroupBodies(groups[1..])
  }

  lemma {:induction false} GroupBodiesAppend(groups: seq<seq<Piece>>, group: seq<Piece>)
    ensures GroupBodies(groups + [group]) == GroupBodies(groups) + Bodies(group)
  {
    if groups == [] {
      assert groups + [group] == [group] && [group][1..] == [];
    } else {
      var all := groups + [group];
      assert all[0] == groups[0] && all[1..] == groups[1..] + [group];
      GroupBodiesAppend(groups[1..], group);
      assert GroupBodies(all) == Bodies(groups[0]) + (GroupBodies(groups[1..]) + Bodies(group));
    }
  }

  function Placed(p: Pack): seq<string> {
    GroupBodies(p.groups) + Bodies(p.group)
  }

  lemma BodiesOne(piece: Piece)
    ensures Bodies([piece]) == piece.body
  {
    assert [piece][1..] == [];
  }

  lemma PlaceKeeps(p: Pack, piece: Piece, limit: nat)
    ensures Placed(Place(p, piece, limit)) == Placed(p) + piece.body
  {
    BodiesOne(piece);
    if Place(p, piece, limit).groups == p.groups {
      BodiesAppend(p.group, piece);
      assert GroupBodies(p.groups) + (Bodies(p.group) + piece.body) == Placed(p) + piece.body;
    } else {
      GroupBodiesAppend(p.groups, p.group);
    }
  }

  lemma {:induction false} PlaceAllKeeps(p: Pack, pieces: seq<Piece>, limit: nat)
    ensures Placed(PlaceAll(p, pieces, limit)) == Placed(p) + Bodies(pieces)
    decreases |pieces|
  {
    if pieces == [] {
      assert Placed(p) + [] == Placed(p);
    } else {
      var next := Place(p, pieces[0], limit);
      PlaceKeeps(p, pieces[0], limit);
      PlaceAllKeeps(next, pieces[1..], limit);
      Regroup(Placed(p), pieces[0].body, Bodies(pieces[1..]));
    }
  }

  lemma LineBodies(line: string, limit: nat)
    ensures Bodies(LinePieces(line, limit)) == Scan(line)
  {
    if Length(line) <= limit {
      BodiesAppend([], Piece([], Scan(line), []));
      assert [] + [Piece([], Scan(line), [])] == [Piece([], Scan(line), [])];
    } else {
      PiecesRecoverLine(line, limit);
    }
  }

  lemma PlaceLineKeeps(p: Pack, line: string, limit: nat)
    ensures Placed(PlaceAll(p, LinePieces(line, limit), limit)) == Placed(p) + Scan(line)
  {
    LineBodies(line, limit);
    PlaceAllKeeps(p, LinePieces(line, limit), limit);
  }

  lemma {:induction false} PlaceLinesKeeps(p: Pack, lines: seq<string>, limit: nat)
    ensures Placed(PlaceLines(p, lines, limit)) == Placed(p) + LineTokens(lines)
    decreases |lines|
  {
    if lines == [] {
      assert Placed(p) + [] == Placed(p);
    } else {
      var next := PlaceAll(p, LinePieces(lines[0], limit), limit);
      PlaceLineKeeps(p, lines[0], limit);
      PlaceLinesKeeps(next, lines[1..], limit);
      Regroup(Placed(p), Scan(lines[0]), LineTokens(lines[1..]));
    }
  }

  lemma Regroup(a: seq<string>, b: seq<string>, c: seq<string>)
    ensures a + b + c == a + (b + c)
  {
  }
}
