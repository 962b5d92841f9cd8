/**
 * What `split_message` of app/notifier.py promises: the chunks hold the whole
 * text in order, and each is within the limit.
 */
module TelegramMessage {
  import opened Text
  import opened TelegramText
  import opened TelegramReading
  import opened TelegramSplit
  import opened TelegramBalance

  // ----- nothing is lost -----

  predicate SolidPieces(pieces: seq<Piece>) {
    forall i {:trigger pieces[i]} :: 0 <= i < |pieces| ==> Solid(pieces[i].body)
  }

  lemma {:induction false} EmptyGroup(group: seq<Piece>)
    requires SolidPieces(group) && Glued(group) == ""
    ensures Bodies(group) == []
  {
    if group != [] {
      var n := |group| - 1;
      assert group == group[..n] + [group[n]];
      GluedAppend(group[..n], group[n]);
      EmptyGroup(group[..n]);
      EmptyPiece(group[n]);
      BodiesAppend(group[..n], group[n]);
    }
  }

  lemma EmptyPiece(p: Piece)
    requires Solid(p.body) && Render(p) == ""
    ensures p.body == []
  {
    FlatSolid(p.body);
  }

  lemma LineSolid(line: string, limit: nat)
    ensures SolidPieces(LinePieces(line, limit))
  {
    ScanWhole(line);
    if Length(line) > limit {
      PiecesChained(line, limit);
      var pieces := Pieces(line, limit);
      forall i | 0 <= i < |pieces| ensures Solid(pieces[i].body) {
        assert PieceOk(pieces[i]);
      }
    }
  }

  lemma {:induction false} PlaceAllSolid(p: Pack, pieces: seq<Piece>, limit: nat)
    requires SolidPieces(p.group) && SolidPieces(pieces)
    ensures SolidPieces(PlaceAll(p, pieces, limit).group)
    decreases |pieces|
  {
    if pieces != [] {
      PlaceAllSolid(Place(p, pieces[0], limit), pieces[1..], limit);
    }
  }

  lemma {:induction false} PlaceLinesSolid(p: Pack, lines: seq<string>, limit: nat)
    requires SolidPieces(p.group)
    ensures SolidPieces(PlaceLines(p, lines, limit).group)
    decreases |lines|
  {
    if lines != [] {
      var next := PlaceAll(p, LinePieces(lines[0], limit), limit);
      LineSolid(lines[0], limit);
      PlaceAllSolid(p, LinePieces(lines[0], limit), limit);
      PlaceLinesSolid(next, lines[1..], limit);
    }
  }

  /** An open group that is not sent holds nothing. */
  lemma GroupsHoldAll(p: Pack)
    requires SolidPieces(p.group)
    ensures GroupBodies(Groups(p)) == Placed(p)
  {
    GroupBodiesAppend(p.groups, p.group);
    if Glued(p.group) == "" {
      EmptyGroup(p.group);
      assert GroupBodies(p.groups) + [] == GroupBodies(p.groups);
    }
  }

  /** The tokens of the lines spell the lines. */
  lemma {:induction false} LineTokensSpell(lines: seq<string>)
    ensures Flat(LineTokens(lines)) == Flat(lines)
  {
    if lines != [] {
      LineTokensSpell(lines[1..]);
      FlatConcat(Scan(lines[0]), LineTokens(lines[1..]));
      ScanWhole(lines[0]);
    }
  }

  /** Dropping the inserted tags and newlines, the chunks are the tokens of the lines, in order, and so spell the text without its line breaks. */
  lemma MessageRecovered(text: string, limit: nat)
    ensures GroupBodies(MessageGroups(text, limit)) == LineTokens(SplitLines(text))
    ensures Flat(GroupBodies(MessageGroups(text, limit))) == Flat(SplitLines(text))
  {
    var lines, start := SplitLines(text), Pack([], []);
    assert SolidPieces(start.group) && Placed(start) == [];
    PlaceLinesSolid(start, lines, limit);
    PlaceLinesKeeps(start, lines, limit);
    GroupsHoldAll(PlaceLines(start, lines, limit));
    LineTokensSpell(lines);
  }

  // ----- the limit -----

  predicate GroupsWithin(groups: seq<seq<Piece>>, limit: nat) {
    forall i {:trigger groups[i]} :: 0 <= i < |groups| ==> Length(Glued(groups[i])) <= limit
  }

  predicate Within(p: Pack, limit: nat) {
    GroupsWithin(p.groups, limit) && Length(Glued(p.group)) <= limit
  }

  lemma GlueLength(current: string, piece: string)
    ensures Length(Glue(current, piece)) >= Length(current) && Length(Glue(current, piece)) >= Length(piece)
  {
    LengthConcat(current + "\n", piece);
    LengthConcat(current, "\n");
  }

  /** Placing a piece makes a chunk too long exactly if the piece itself is. */
  lemma PlaceWithin(p: Pack, piece: Piece, limit: nat)
    ensures Within(Place(p, piece, limit), limit) <==> Within(p, limit) && Length(Render(piece)) <= limit
  {
    GluedAppend(p.group, piece);
    GluedOne(piece);
    GlueLength(Glued(p.group), Render(piece));
    var next := Place(p, piece, limit);
    if next.groups != p.groups {
      assert next.groups[|p.groups|] == p.group && next.groups[..|p.groups|] == p.groups;
      assert forall i {:trigger p.groups[i]} :: 0 <= i < |p.groups| ==> next.groups[i] == p.groups[i];
    }
  }

  lemma {:induction false} PlaceAllWithin(p: Pack, pieces: seq<Piece>, limit: nat)
    ensures Within(PlaceAll(p, pieces, limit), limit) <==> Within(p, limit) && Small(pieces, limit)
    decreases |pieces|
  {
    if pieces != [] {
      PlaceWithin(p, pieces[0], limit);
      PlaceAllWithin(Place(p, pieces[0], limit), pieces[1..], limit);
      assert Small(pieces, limit) <==> Length(Render(pieces[0])) <= limit && Small(pieces[1..], limit) by {
        assert forall i :: 1 <= i < |pieces| ==> pieces[i] == pieces[1..][i - 1];
      }
    }
  }

  ghost predicate LinesSmall(lines: seq<string>, limit: nat) {
    forall line :: line in lines ==> Small(LinePieces(line, limit), limit)
  }

  lemma {:induction false} PlaceLinesWithin(p: Pack, lines: seq<string>, limit: nat)
    ensures Within(PlaceLines(p, lines, limit), limit) <==> Within(p, limit) && LinesSmall(lines, limit)
    decreases |lines|
  {
    if lines != [] {
      var pieces := LinePieces(lines[0], limit);
      PlaceAllWithin(p, pieces, limit);
      PlaceLinesWithin(PlaceAll(p, pieces, limit), lines[1..], limit);
      FirstLine(lines, limit);
    }
  }

  lemma FirstLine(lines: seq<string>, limit: nat)
    requires lines != []
    ensures LinesSmall(lines, limit) <==> Small(LinePieces(lines[0], limit), limit) && LinesSmall(lines[1..], limit)
  {
    assert lines == [lines[0]] + lines[1..];
  }

  lemma PackWithin(p: Pack, limit: nat)
    ensures Within(p, limit) <==> GroupsWithin(Groups(p), limit)
  {
    var groups := Groups(p);
    assert forall i {:trigger p.groups[i]} :: 0 <= i < |p.groups| ==> groups[i] == p.groups[i];
    assert |groups| > |p.groups| ==> groups[|p.groups|] == p.group;
  }

  lemma GroupsOfWithin(text: string, limit: nat)
    ensures GroupsWithin(MessageGroups(text, limit), limit) <==> LinesSmall(SplitLines(text), limit)
  {
    var start := Pack([], []);
    assert Within(start, limit);
    PlaceLinesWithin(start, SplitLines(text), limit);
    PackWithin(PlaceLines(start, SplitLines(text), limit), limit);
  }

  // ----- which pieces are too long -----

  /** A piece of a single token has room for it between the tags opened again and those closed. */
  predicate Roomy(p: Piece, limit: nat) {
    |p.body| == 1 ==> Length(Open(p.reopened)) + Length(p.body[0]) + Length(Close(p.closed)) <= limit
  }

  /** The open piece is closable, or has a single token. */
  predicate ClosableOrOne(s: Split, limit: nat) {
    s.body != [] ==> |s.body| == 1 || Length(Current(s) + Close(s.stack)) <= limit
  }

  predicate LongIsOne(pieces: seq<Piece>, limit: nat) {
    forall i {:trigger pieces[i]} :: 0 <= i < |pieces| ==> |pieces[i].body| == 1 || Length(Render(pieces[i])) <= limit
  }

  lemma StepLong(s: Split, token: string, limit: nat)
    requires ClosableOrOne(s, limit) && LongIsOne(s.done, limit)
    ensures ClosableOrOne(Step(s, token, limit), limit) && LongIsOne(Step(s, token, limit).done, limit)
  {
    if s.body != [] {
      FlatAppend(s.body, token);
      assert Open(s.reopened) + (Flat(s.body) + token) == Current(s) + token;
    }
  }

  lemma {:induction false} SplitLong(s: Split, tokens: seq<string>, limit: nat)
    requires ClosableOrOne(s, limit) && LongIsOne(s.done, limit)
    ensures var s' := SplitFrom(s, tokens, limit); ClosableOrOne(s', limit) && LongIsOne(s'.done, limit)
    decreases |tokens|
  {
    if tokens != [] {
      StepLong(s, tokens[0], limit);
      SplitLong(Step(s, tokens[0], limit), tokens[1..], limit);
    }
  }

  lemma OneLength(p: Piece)
    requires |p.body| == 1
    ensures Length(Render(p)) == Length(Open(p.reopened)) + Length(p.body[0]) + Length(Close(p.closed))
  {
    FlatAppend([], p.body[0]);
    assert [] + [p.body[0]] == p.body;
    assert "" + p.body[0] == p.body[0];
    LengthConcat(Open(p.reopened) + p.body[0], Close(p.closed));
    LengthConcat(Open(p.reopened), p.body[0]);
  }

  /** A piece of a split line is over the limit if and only if it has one token only, for which there is no room. */
  lemma PieceWithinIff(line: string, limit: nat, i: nat)
    requires i < |Pieces(line, limit)|
    ensures Length(Render(Pieces(line, limit)[i])) <= limit <==> Roomy(Pieces(line, limit)[i], limit)
  {
    SplitLong(START, Scan(line), limit);
    var pieces := Pieces(line, limit);
    assert LongIsOne(pieces, limit);
    if |pieces[i].body| == 1 {
      OneLength(pieces[i]);
    }
  }

  predicate LineRoomy(line: string, limit: nat) {
    Length(line) <= limit || forall i {:trigger Pieces(line, limit)[i]} :: 0 <= i < |Pieces(line, limit)| ==> Roomy(Pieces(line, limit)[i], limit)
  }

  lemma LineSmallIff(line: string, limit: nat)
    ensures Small(LinePieces(line, limit), limit) <==> LineRoomy(line, limit)
  {
    if Length(line) <= limit {
      WholeLine(line);
    } else {
      forall i | 0 <= i < |Pieces(line, limit)|
        ensures Length(Render(Pieces(line, limit)[i])) <= limit <==> Roomy(Pieces(line, limit)[i], limit)
      {
        PieceWithinIff(line, limit, i);
      }
    }
  }

  /** A line is short, or at each of its tokens the tags around it and the token fit. */
  predicate LineFits(line: string, limit: nat) {
    Length(line) <= limit || Fits([], Scan(line), limit)
  }

  ghost predicate LinesFit(lines: seq<string>, limit: nat) {
    forall line :: line in lines ==> LineFits(line, limit)
  }

  lemma FitIsSmall(lines: seq<string>, limit: nat)
    requires LinesFit(lines, limit)
    ensures LinesSmall(lines, limit)
  {
    forall line | line in lines ensures Small(LinePieces(line, limit), limit) {
      if Length(line) <= limit {
        WholeLine(line);
      } else {
        PiecesWithinLimit(line, limit);
      }
    }
  }

  // ----- escaped text always fits -----

  /** No tag starts here, and every ampersand is closed by a semicolon within five characters of the same line. */
  ghost predicate Escaped(s: string) {
    forall i :: 0 <= i < |s| ==> s[i] != '<' && (s[i] == '&' ==> SemicolonNear(s, i))
  }

  ghost predicate SemicolonNear(s: string, i: nat)
    requires i < |s|
  {
    exists k :: SemicolonAt(s, i, k)
  }

  predicate SemicolonAt(s: string, i: nat, k: int)
    requires i < |s|
  {
    i < k <= i + 5 && k < |s| && s[k] == ';' && forall j :: i <= j <= k ==> !IsLineBreak(s[j])
  }

  lemma EscapeCharLocal(c: char)
    ensures var e := EscapeChar(c);
            e != "" && e[0] != '<' && (forall i :: 0 < i < |e| ==> e[i] != '<' && e[i] != '&')
            && (e[0] == '&' ==> SemicolonAt(e, 0, |e| - 1))
  {
  }

  lemma EscapedPrepend(e: string, rest: string)
    requires e != "" && e[0] != '<' && (forall i :: 0 < i < |e| ==> e[i] != '<' && e[i] != '&')
    requires (e[0] == '&' ==> SemicolonAt(e, 0, |e| - 1)) && Escaped(rest)
    ensures Escaped(e + rest)
  {
    var s := e + rest;
    forall i | 0 <= i < |s| ensures s[i] != '<' && (s[i] == '&' ==> SemicolonNear(s, i)) {
      if i >= |e| {
        assert s[i] == rest[i - |e|];
        if s[i] == '&' {
          var k :| SemicolonAt(rest, i - |e|, k);
          assert SemicolonAt(s, i, k + |e|);
        }
      } else if s[i] == '&' {
        assert SemicolonAt(s, 0, |e| - 1);
      }
    }
  }

  lemma {:induction false} EscapeHtmlEscaped(s: string)
    ensures Escaped(EscapeHtml(s))
  {
    if s != [] {
      EscapeHtmlEscaped(s[1..]);
      EscapeCharLocal(s[0]);
      EscapedPrepend(EscapeChar(s[0]), EscapeHtml(s[1..]));
    }
  }

  /** Cutting at a line break keeps both sides escaped. */
  lemma EscapedCut(s: string, from: nat, to: nat)
    requires from <= to <= |s| && Escaped(s) && (to < |s| ==> IsLineBreak(s[to]))
    ensures Escaped(s[from..to])
  {
    var part := s[from..to];
    forall i | 0 <= i < |part| ensures part[i] != '<' && (part[i] == '&' ==> SemicolonNear(part, i)) {
      assert part[i] == s[from + i];
      if part[i] == '&' {
        var k :| SemicolonAt(s, from + i, k);
        assert SemicolonAt(part, i, k - from);
      }
    }
  }

  lemma {:induction false} EscapedLines(s: string)
    requires Escaped(s)
    ensures forall line :: line in SplitLines(s) ==> Escaped(line)
    decreases |s|
  {
    if s != [] {
      var i := LineEnd(s);
      EscapedCut(s, 0, i);
      if i < |s| {
        var width := if s[i] == '\r' && i + 1 < |s| && s[i + 1] == '\n' then 2 else 1;
        EscapedCut(s, i + width, |s|);
        assert s[i + width..|s|] == s[i + width..];
        EscapedLines(s[i + width..]);
      }
    }
  }

  lemma {:induction false} Narrow(s: string)
    requires forall i :: 0 <= i < |s| ==> Width(s[i]) == 1
    ensures Length(s) == |s|
  {
    if s != [] {
      Narrow(s[1..]);
    }
  }

  lemma ClosedShort(s: string, start: nat, p: char -> bool, k: nat)
    requires start <= |s| && start <= k < |s| && s[k] == ';' && !p(';')
    ensures Closed(s, start, Span(s[start..], p)) <= k + 1
  {
    var n := Span(s[start..], p);
    assert s[start..][k - start] == ';';
    assert forall i :: 0 <= i < n ==> p(s[start..][i]);
  }

  lemma SpanNarrow(s: string, start: nat, p: char -> bool)
    requires start <= |s| && forall c :: p(c) ==> Width(c) == 1
    ensures forall i :: start <= i < start + Span(s[start..], p) ==> Width(s[i]) == 1
  {
    forall i | start <= i < start + Span(s[start..], p) ensures Width(s[i]) == 1 {
      assert p(s[start..][i - start]);
    }
  }

  /** In escaped text an entity is at most six characters, all of them narrow. */
  lemma EntityShort(s: string)
    requires s != [] && Escaped(s) && EntityLength(s) > 0
    ensures EntityLength(s) <= 6 && Length(s[..EntityLength(s)]) == EntityLength(s)
  {
    var k :| SemicolonAt(s, 0, k);
    if s[1] == '#' && s[2] == 'x' {
      ClosedShort(s, 3, c => IsHex(c), k);
      SpanNarrow(s, 3, c => IsHex(c));
    } else if s[1] == '#' {
      ClosedShort(s, 2, c => IsDigit(c), k);
      SpanNarrow(s, 2, c => IsDigit(c));
    } else {
      ClosedShort(s, 2, c => IsAlnum(c), k);
      SpanNarrow(s, 2, c => IsAlnum(c));
    }
    Narrow(s[..EntityLength(s)]);
  }

  /** Escaped text has no tags, and no token over six units. */
  lemma {:induction false} EscapedFits(s: string, limit: nat)
    requires Escaped(s) && limit >= 6
    ensures Fits([], Scan(s), limit)
    decreases |s|
  {
    if s != [] {
      var n := NextLength(s);
      var token := s[..n];
      assert s[0] != '<';
      if EntityLength(s) > 0 {
        EntityShort(s);
      } else {
        assert token[1..] == [];
      }
      assert token[0] != '<' && MarkOf(token) == Plain;
      EscapedCut(s, n, |s|);
      assert s[n..|s|] == s[n..];
      EscapedFits(s[n..], limit);
      assert Scan(s)[0] == token && Scan(s)[1..] == Scan(s[n..]);
      assert Open([]) == "" && Close([]) == "";
    }
  }

  lemma {:induction false} TokenInside(tokens: seq<string>, token: string)
    requires token in tokens && token != ""
    ensures token[0] in Flat(tokens)
  {
    if token != tokens[0] {
      TokenInside(tokens[1..], token);
    }
  }

  /** The lines of escaped text have no bare `<`. */
  lemma EscapedIsTidy(text: string, line: string)
    requires line in SplitLines(EscapeHtml(text))
    ensures "<" !in Scan(line)
  {
    EscapeHtmlEscaped(text);
    EscapedLines(EscapeHtml(text));
    ScanWhole(line);
    if "<" in Scan(line) {
      TokenInside(Scan(line), "<");
    }
  }

  // ----- the promises of split_message -----

  /** With a tag too large for the limit, the text is escaped, and then every chunk is within any limit of at least six. */
  lemma OversizedTextWithinLimit(text: string, limit: nat)
    requires HasOversized(text, limit) && limit >= 6
    ensures AllWithin(MessageChunks(text, limit), limit)
  {
    var safe := EscapeHtml(text);
    EscapeHtmlEscaped(text);
    EscapedLines(safe);
    forall line | line in SplitLines(safe) ensures LineFits(line, limit) {
      EscapedFits(line, limit);
    }
    FitIsSmall(SplitLines(safe), limit);
    GroupsOfWithin(safe, limit);
  }

  ghost predicate AllWithin(chunks: seq<string>, limit: nat) {
    forall i :: 0 <= i < |chunks| ==> Length(chunks[i]) <= limit
  }

  lemma ChunksOfGroups(groups: seq<seq<Piece>>, limit: nat)
    ensures AllWithin(Chunks(groups), limit) <==> GroupsWithin(groups, limit)
  {
    assert forall i :: 0 <= i < |groups| ==> Chunks(groups)[i] == Glued(groups[i]);
  }

  /** Every long line is cut into pieces that have room for their tokens. */
  ghost predicate LinesRoomy(lines: seq<string>, limit: nat) {
    forall line :: line in lines ==> LineRoomy(line, limit)
  }

  lemma SmallIffRoomy(lines: seq<string>, limit: nat)
    ensures LinesSmall(lines, limit) <==> LinesRoomy(lines, limit)
  {
    forall line | line in lines ensures Small(LinePieces(line, limit), limit) <==> LineRoomy(line, limit) {
      LineSmallIff(line, limit);
    }
  }

  /**
   * Every chunk is within the limit if and only if, unless the text is short,
   * each piece cut from a long line that consists of one token has room for it.
   */
  lemma ChunksWithinIff(text: string, limit: nat)
    ensures var safe := Safe(text, limit);
            AllWithin(MessageChunks(text, limit), limit) <==> Length(safe) <= limit || LinesRoomy(SplitLines(safe), limit)
  {
    var safe := Safe(text, limit);
    GroupsOfWithin(safe, limit);
    ChunksOfGroups(MessageGroups(safe, limit), limit);
    SmallIffRoomy(SplitLines(safe), limit);
  }

  /** A condition on the text alone that suffices: each long line fits its tags around every one of its tokens. */
  lemma ChunksWithinLimit(text: string, limit: nat)
    requires if HasOversized(text, limit) then limit >= 6 else LinesFit(SplitLines(text), limit)
    ensures AllWithin(MessageChunks(text, limit), limit)
  {
    if HasOversized(text, limit) {
      OversizedTextWithinLimit(text, limit);
    } else {
      FitIsSmall(SplitLines(text), limit);
      GroupsOfWithin(text, limit);
    }
  }

  lemma ShortTag(c: char)
    requires IsAlpha(c) && LowerChar(c) == c
    ensures MarkOf(['<', c, '>']) == Opening([c], ['<', c, '>'])
  {
    var token := ['<', c, '>'];
    assert token[1..] == [c, '>'];
    SolidStripLeft([c, '>']);
    SpanOf([c], ">", x => IsAlnum(x));
    assert [c] + ">" == [c, '>'];
    assert [c, '>'][1..] == ">" && [c, '>'][..1] == [c];
    assert token[|token| - 2..] == [c, '>'];
  }

  // ----- a message whose nested tags do not fit -----

  function TagToken(c: char): string {
    ['<', c, '>']
  }

  /** Two tags with names of one letter, and a character three times. */
  predicate Letters(b: char, i: char, x: char) {
    && IsAlpha(b) && LowerChar(b) == b && IsAlpha(i) && LowerChar(i) == i
    && x != '<' && x != '&' && !IsLineBreak(x)
  }

  function NestedTokens(b: char, i: char, x: char): seq<string> {
    [TagToken(b), TagToken(i), [x]] + [[x], [x]]
  }

  /** For instance `<b><i>xxx`. */
  function Nested(b: char, i: char, x: char): string {
    TagToken(b) + (TagToken(i) + ([x] + ([x] + ([x] + ""))))
  }

  lemma ScanTag(c: char, rest: string)
    requires IsAlpha(c)
    ensures Scan(TagToken(c) + rest) == [TagToken(c)] + Scan(rest)
  {
    var s := TagToken(c) + rest;
    assert ['<', c] + (['>'] + rest) == s;
    SpanOf(['<', c], ['>'] + rest, x => x != '>');
    assert s[..3] == TagToken(c) && s[3..] == rest;
  }

  lemma ScanChar(c: char, rest: string)
    requires c != '<' && c != '&'
    ensures Scan([c] + rest) == [[c]] + Scan(rest)
  {
    var s := [c] + rest;
    assert s[..1] == [c] && s[1..] == rest;
  }

  lemma ScanThree(x: char)
    requires x != '<' && x != '&'
    ensures Scan([x] + ([x] + ([x] + ""))) == [[x], [x], [x]]
  {
    ScanChar(x, [x] + ([x] + ""));
    ScanChar(x, [x] + "");
    ScanChar(x, "");
  }

  lemma NestedAppended(b: char, i: char, x: char)
    ensures [TagToken(b)] + ([TagToken(i)] + [[x], [x], [x]]) == NestedTokens(b, i, x)
  {
  }

  lemma NestedScan(b: char, i: char, x: char)
    requires Letters(b, i, x)
    ensures Scan(Nested(b, i, x)) == NestedTokens(b, i, x)
  {
    ScanTag(b, TagToken(i) + ([x] + ([x] + ([x] + ""))));
    ScanTag(i, [x] + ([x] + ([x] + "")));
    ScanThree(x);
    NestedAppended(b, i, x);
  }

  lemma ShortTagFits(c: char)
    requires IsAlpha(c) && LowerChar(c) == c
    ensures !Oversized(TagToken(c), 8)
  {
    ShortTag(c);
    Narrow(TagToken(c));
  }

  /** Each tag fits a limit of eight with its closing tag. */
  lemma NestedTagsFitAlone(b: char, i: char, x: char)
    requires Letters(b, i, x)
    ensures !HasOversized(Nested(b, i, x), 8)
  {
    ShortTagFits(b);
    ShortTagFits(i);
    NestedScan(b, i, x);
    forall k | 0 <= k < 5 ensures !Oversized(NestedTokens(b, i, x)[k], 8) {
      assert k >= 2 ==> NestedTokens(b, i, x)[k] == [x];
    }
  }

  function Entry(c: char): (string, string) {
    ([c], TagToken(c))
  }

  lemma OpenOne(c: char)
    requires IsAlpha(c)
    ensures Open([Entry(c)]) == TagToken(c) && Length(TagToken(c)) == 3
  {
    Narrow(TagToken(c));
    FlatAppend([], TagToken(c));
    assert [] + [TagToken(c)] == [TagToken(c)] == OpenUpTo([Entry(c)], 1) && "" + TagToken(c) == TagToken(c);
  }

  lemma CloseTwo(b: char, i: char)
    ensures |Close([Entry(b), Entry(i)])| == 8
  {
    var stack := [Entry(b), Entry(i)];
    var inner, outer := CloseToken([i]), CloseToken([b]);
    assert CloseFrom(stack, 0) == [];
    assert CloseFrom(stack, 1) == [outer];
    assert CloseFrom(stack, 2) == [inner] + [outer];
    FlatAppend([inner], outer);
    FlatAppend([], inner);
    assert [] + [inner] == [inner] && "" + inner == inner;
  }

  lemma Cut(s: Split, token: string, next: Stack, limit: nat)
    requires s.body != [] && |Current(s)| + |token| + |Close(next)| > limit
    ensures StepTo(s, token, next, limit) == Split(s.done + [Piece(s.reopened, s.body, s.stack)], s.stack, [token], next)
  {
    LengthPositive(Current(s) + token + Close(next));
  }

  /** The second piece: the inner tag between the outer one opened again and both closed. */
  function Inner(b: char, i: char): Piece {
    Piece([Entry(b)], [TagToken(i)], [Entry(b), Entry(i)])
  }

  function AfterOne(b: char): Split {
    Split([], [], [TagToken(b)], [Entry(b)])
  }

  function AfterTwo(b: char, i: char): Split {
    Split([Piece([], [TagToken(b)], [Entry(b)])], [Entry(b)], [TagToken(i)], [Entry(b), Entry(i)])
  }

  lemma FirstToken(b: char)
    requires IsAlpha(b) && LowerChar(b) == b
    ensures Step(START, TagToken(b), 8) == AfterOne(b)
  {
    ShortTag(b);
    assert Transition([], Opening([b], TagToken(b))) == [Entry(b)];
  }

  lemma SecondToken(b: char, i: char)
    requires IsAlpha(i) && LowerChar(i) == i
    ensures Step(AfterOne(b), TagToken(i), 8) == AfterTwo(b, i)
  {
    ShortTag(i);
    CloseTwo(b, i);
    assert Transition([Entry(b)], Opening([i], TagToken(i))) == [Entry(b), Entry(i)];
    Cut(AfterOne(b), TagToken(i), [Entry(b), Entry(i)], 8);
    assert [] + [Piece([], [TagToken(b)], [Entry(b)])] == AfterTwo(b, i).done;
  }

  lemma ThirdToken(b: char, i: char, x: char)
    ensures Step(AfterTwo(b, i), [x], 8).done == [Piece([], [TagToken(b)], [Entry(b)]), Inner(b, i)]
  {
    CloseTwo(b, i);
    assert MarkOf([x]) == Plain;
    Cut(AfterTwo(b, i), [x], [Entry(b), Entry(i)], 8);
  }

  /** What is cut off stays cut off. */
  lemma {:induction false} DoneStays(s: Split, tokens: seq<string>, limit: nat)
    ensures s.done <= Finished(SplitFrom(s, tokens, limit))
    decreases |tokens|
  {
    if tokens != [] {
      DoneStays(Step(s, tokens[0], limit), tokens[1..], limit);
    }
  }

  lemma SplitThree(a: string, b: string, c: string, rest: seq<string>, limit: nat)
    ensures SplitFrom(START, [a, b, c] + rest, limit) == SplitFrom(Step(Step(Step(START, a, limit), b, limit), c, limit), rest, limit)
  {
    var all := [a, b, c] + rest;
    assert all[0..] == all && all[3..] == rest;
    SplitNext(START, all, 0, limit);
    SplitNext(Step(START, a, limit), all, 1, limit);
    SplitNext(Step(Step(START, a, limit), b, limit), all, 2, limit);
  }

  lemma NestedCut(b: char, i: char, x: char)
    requires Letters(b, i, x)
    ensures |Pieces(Nested(b, i, x), 8)| > 1 && Pieces(Nested(b, i, x), 8)[1] == Inner(b, i)
  {
    NestedScan(b, i, x);
    FirstToken(b);
    SecondToken(b, i);
    ThirdToken(b, i, x);
    SplitThree(TagToken(b), TagToken(i), [x], [[x], [x]], 8);
    DoneStays(Step(AfterTwo(b, i), [x], 8), [[x], [x]], 8);
  }

  lemma InnerTooLong(b: char, i: char)
    requires IsAlpha(b) && IsAlpha(i)
    ensures !Roomy(Inner(b, i), 8)
  {
    OpenOne(b);
    CloseTwo(b, i);
    LengthPositive(Close([Entry(b), Entry(i)]));
  }

  lemma SingleLine(s: string)
    requires s != "" && forall i :: 0 <= i < |s| ==> !IsLineBreak(s[i])
    ensures SplitLines(s) == [s]
  {
    assert LineEnd(s) == |s|;
  }

  lemma NestedLine(b: char, i: char, x: char)
    requires Letters(b, i, x)
    ensures SplitLines(Nested(b, i, x)) == [Nested(b, i, x)] && Length(Nested(b, i, x)) > 8
  {
    var s := Nested(b, i, x);
    assert s == ['<', b, '>', '<', i, '>', x, x, x];
    SingleLine(s);
    LengthPositive(s);
  }

  /**
   * The condition is needed: tags that fit the limit one by one need not fit
   * nested. A message such as `<b><i>xxx` is split at a limit of eight into
   * chunks one of which exceeds it.
   */
  lemma NestedTagsExceed(b: char, i: char, x: char)
    requires Letters(b, i, x)
    ensures !HasOversized(Nested(b, i, x), 8) && !AllWithin(MessageChunks(Nested(b, i, x), 8), 8)
  {
    NestedTagsFitAlone(b, i, x);
    NestedLine(b, i, x);
    NestedCut(b, i, x);
    InnerTooLong(b, i);
    assert !LineRoomy(Nested(b, i, x), 8) by {
      assert !Roomy(Pieces(Nested(b, i, x), 8)[1], 8);
    }
    ChunksWithinIff(Nested(b, i, x), 8);
    assert Nested(b, i, x) in SplitLines(Nested(b, i, x));
  }

  // ----- a message with a bare `<` -----

  /** A tag name of one letter, and a character that is no markup. */
  predicate Plainly(b: char, x: char) {
    IsAlpha(b) && LowerChar(b) == b && x != '<' && x != '>' && x != '&' && !IsLineBreak(x)
  }

  function BareTokens(b: char, x: char): seq<string> {
    [TagToken(b), "<", [x]] + [[x], [x], [x], [x]]
  }

  function Five(x: char): string {
    [x] + ([x] + ([x] + ([x] + ([x] + ""))))
  }

  /** For instance `<b><xxxxx`. */
  function Bare(b: char, x: char): string {
    TagToken(b) + ("<" + Five(x))
  }

  lemma NoTagWithoutEnd(s: string)
    requires '>' !in s
    ensures TagLength(s) == 0
  {
    assert forall i :: 0 <= i < |s| ==> s[i] in s;
  }

  lemma ScanBare(rest: string)
    requires '>' !in rest
    ensures Scan("<" + rest) == ["<"] + Scan(rest)
  {
    var s := "<" + rest;
    NoTagWithoutEnd(s);
    assert s[..1] == "<" && s[1..] == rest;
  }

  lemma ScanFive(x: char)
    requires x != '<' && x != '&'
    ensures Scan(Five(x)) == [[x], [x], [x], [x], [x]]
  {
    ScanChar(x, [x] + ([x] + ([x] + ([x] + ""))));
    ScanChar(x, [x] + ([x] + ([x] + "")));
    ScanChar(x, [x] + ([x] + ""));
    ScanChar(x, [x] + "");
    ScanChar(x, "");
  }

  lemma BareScan(b: char, x: char)
    requires Plainly(b, x)
    ensures Scan(Bare(b, x)) == BareTokens(b, x)
  {
    ScanTag(b, "<" + Five(x));
    FiveIsPlain(x);
    ScanBare(Five(x));
    ScanFive(x);
    BareAppended(b, x);
  }

  lemma BareAppended(b: char, x: char)
    ensures [TagToken(b)] + (["<"] + [[x], [x], [x], [x], [x]]) == BareTokens(b, x)
  {
  }

  lemma FiveIsPlain(x: char)
    requires x != '>'
    ensures '>' !in Five(x)
  {
  }

  lemma BareNotOversized(b: char, x: char)
    requires Plainly(b, x)
    ensures !HasOversized(Bare(b, x), 8)
  {
    ShortTagFits(b);
    BareScan(b, x);
    forall k | 0 <= k < 7 ensures !Oversized(BareTokens(b, x)[k], 8) {
      assert k >= 1 ==> |BareTokens(b, x)[k]| == 1;
    }
  }

  /** The first piece: the tag and the bare `<`, closed. */
  function BarePiece(b: char): Piece {
    Piece([], [TagToken(b), "<"], [Entry(b)])
  }

  function BareText(b: char): string {
    TagToken(b) + "<" + CloseToken([b])
  }

  lemma BareRenders(b: char)
    requires IsAlpha(b)
    ensures Render(BarePiece(b)) == BareText(b) && Length(BareText(b)) == 8
    ensures Close([Entry(b)]) == CloseToken([b])
  {
    FlatAppend([TagToken(b)], "<");
    FlatAppend([], TagToken(b));
    assert [] + [TagToken(b)] == [TagToken(b)] && "" + TagToken(b) == TagToken(b);
    assert [TagToken(b)] + ["<"] == [TagToken(b), "<"];
    assert CloseFrom([Entry(b)], 0) == [] && CloseFrom([Entry(b)], 1) == [CloseToken([b])];
    FlatAppend([], CloseToken([b]));
    assert [] + [CloseToken([b])] == [CloseToken([b])] && "" + CloseToken([b]) == CloseToken([b]);
    assert Open([]) == "";
    Narrow(BareText(b));
  }

  lemma StayWith(s: Split, token: string, next: Stack, limit: nat)
    requires Length(Current(s) + token + Close(next)) <= limit
    ensures StepTo(s, token, next, limit) == Split(s.done, s.reopened, s.body + [token], next)
  {
  }

  function AfterBare(b: char): Split {
    Split([], [], [TagToken(b), "<"], [Entry(b)])
  }

  lemma BareToken(b: char)
    requires IsAlpha(b)
    ensures Step(AfterOne(b), "<", 8) == AfterBare(b)
  {
    BareRenders(b);
    OpenOne(b);
    assert MarkOf("<") == Plain;
    FlatAppend([], TagToken(b));
    assert [] + [TagToken(b)] == [TagToken(b)] && "" + TagToken(b) == TagToken(b);
    assert Current(AfterOne(b)) == TagToken(b);
    StayWith(AfterOne(b), "<", [Entry(b)], 8);
    assert [TagToken(b)] + ["<"] == [TagToken(b), "<"];
  }

  lemma BareCut(b: char, x: char)
    requires Plainly(b, x)
    ensures Step(AfterBare(b), [x], 8) == Split([BarePiece(b)], [Entry(b)], [[x]], [Entry(b)])
  {
    BareRenders(b);
    assert MarkOf([x]) == Plain;
    assert Current(AfterBare(b)) + Close([Entry(b)]) == Render(BarePiece(b));
    Cut(AfterBare(b), [x], [Entry(b)], 8);
    assert [] + [BarePiece(b)] == [BarePiece(b)];
  }

  lemma BareFirst(b: char, x: char)
    requires Plainly(b, x)
    ensures |Pieces(Bare(b, x), 8)| > 1 && Pieces(Bare(b, x), 8)[0] == BarePiece(b)
  {
    BareScan(b, x);
    FirstToken(b);
    BareToken(b);
    BareCut(b, x);
    var rest := [[x], [x], [x], [x]];
    SplitThree(TagToken(b), "<", [x], rest, 8);
    DoneStays(Step(AfterBare(b), [x], 8), rest, 8);
    MoreThanDone(Step(AfterBare(b), [x], 8), rest, 8);
  }

  /** An open piece is finished after all that is cut off. */
  lemma {:induction false} MoreThanDone(s: Split, tokens: seq<string>, limit: nat)
    requires s.body != []
    ensures |Finished(SplitFrom(s, tokens, limit))| > |s.done|
    decreases |tokens|
  {
    if tokens != [] {
      MoreThanDone(Step(s, tokens[0], limit), tokens[1..], limit);
    }
  }

  lemma {:induction false} GroupsStay(p: Pack, pieces: seq<Piece>, limit: nat)
    ensures p.groups <= PlaceAll(p, pieces, limit).groups
    decreases |pieces|
  {
    if pieces != [] {
      GroupsStay(Place(p, pieces[0], limit), pieces[1..], limit);
    }
  }

  /** A first piece that fills the limit is a chunk by itself. */
  lemma FullPieceAlone(pieces: seq<Piece>, limit: nat)
    requires |pieces| > 1 && Length(Render(pieces[0])) == limit > 0
    ensures var groups := PlaceAll(Pack([], []), pieces, limit).groups; groups != [] && groups[0] == [pieces[0]]
  {
    var one := Place(Pack([], []), pieces[0], limit);
    assert one == Pack([], [pieces[0]]) by {
      assert [] + [pieces[0]] == [pieces[0]];
    }
    GluedOne(pieces[0]);
    GlueLonger(Render(pieces[0]), Render(pieces[1]));
    var two := Place(one, pieces[1], limit);
    assert two.groups == [[pieces[0]]];
    PlaceNext(Pack([], []), pieces, 0, limit);
    PlaceNext(one, pieces, 1, limit);
    assert pieces[0..] == pieces;
    GroupsStay(two, pieces[2..], limit);
  }

  lemma GlueLonger(current: string, piece: string)
    requires current != ""
    ensures Length(Glue(current, piece)) > Length(current)
  {
    LengthConcat(current + "\n", piece);
    LengthConcat(current, "\n");
    LengthPositive("\n");
  }

  lemma BareChunks(b: char, x: char)
    requires Plainly(b, x)
    ensures var chunks := MessageChunks(Bare(b, x), 8); chunks != [] && chunks[0] == BareText(b)
  {
    var text, start := Bare(b, x), Pack([], []);
    BareNotOversized(b, x);
    LengthPositive(text);
    assert text == ['<', b, '>', '<', x, x, x, x, x];
    SingleLine(text);
    BareFirst(b, x);
    BareRenders(b);
    FullPieceAlone(Pieces(text, 8), 8);
    OneLine(start, text, 8);
    var groups := MessageGroups(text, 8);
    assert groups[0] == [BarePiece(b)];
    GluedOne(BarePiece(b));
    assert Chunks(groups)[0] == Glued(groups[0]);
  }

  lemma OneLine(p: Pack, line: string, limit: nat)
    ensures PlaceLines(p, [line], limit) == PlaceAll(p, LinePieces(line, limit), limit)
  {
    assert [line][1..] == [];
  }

  lemma SwallowIsPlain(b: char)
    ensures MarkOf("<" + CloseToken([b])) == Plain
  {
    var token := "<" + CloseToken([b]);
    assert token[1..] == CloseToken([b]);
    SolidStripLeft(CloseToken([b]));
  }

  lemma BareIsLoose(b: char)
    ensures !Meant(BarePiece(b)) && forall k: nat :: k < 2 && Loose(BarePiece(b).body, k) ==> k == 1
    ensures Swallowed(BarePiece(b), 1) == "<" + CloseToken([b])
  {
    var body := BarePiece(b).body;
    assert Loose(body, 1);
    LooseIffNotTied(body);
    assert |TagToken(b)| == 3 && |body[0]| == 3;
    assert body[2..] == [];
  }

  lemma BareReading(b: char, x: char)
    requires Plainly(b, x)
    ensures After([], Marks(Scan(BareText(b)))) != []
  {
    BareFirst(b, x);
    BareRenders(b);
    BareIsLoose(b);
    SwallowIsPlain(b);
    var k := LooseReading(Bare(b, x), 8, 0);
  }

  /**
   * The condition on bare `<` is needed: a message such as `<b><xxxxx` is split
   * at a limit of eight, and its first chunk, `<b><</b>`, is read with the tag
   * left open.
   */
  lemma BareLeavesOpen(b: char, x: char)
    requires Plainly(b, x)
    ensures var chunks := MessageChunks(Bare(b, x), 8);
            && !HasOversized(Bare(b, x), 8) && chunks != [] && chunks[0] == BareText(b)
            && After([], Marks(Scan(chunks[0]))) != []
  {
    BareNotOversized(b, x);
    BareChunks(b, x);
    BareReading(b, x);
  }
}
