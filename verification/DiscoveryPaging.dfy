/**
 * `collect_discovery_recommendations` of app/services.py: a bounded collection
 * over the pages of a source that returns a cursor to go on from. The source is
 * taken to be unchanged between calls.
 */
module DiscoveryPaging {
  import opened Basics

  const MAX_PAGES := 8
  const LAST_PAGE := 100

  /** `year` is absent unless it reads as a year of the twentieth or twenty-first century; `mapped` says that the id can be looked up. */
  datatype Card = Card(kind: string, key: string, year: Option<int>, mapped: bool)

  datatype Page = Page(items: seq<Card>, hasMore: bool)

  type Source = nat -> Page

  /** What is asked for; `missing` is what the library would answer for a mapped card. */
  datatype Query = Query(kind: string, yearFrom: Option<int>, yearTo: Option<int>, exclude: bool, missing: Card -> bool)

  /** A card with the position that follows it. */
  datatype Found = Found(card: Card, page: nat, next: nat)

  predicate YearOk(c: Card, q: Query) {
    (q.yearFrom.None? && q.yearTo.None?) ||
    (c.year.Some? && (q.yearFrom.Some? ==> q.yearFrom.value <= c.year.value) && (q.yearTo.Some? ==> c.year.value <= q.yearTo.value))
  }

  /** The keys of the cards of the asked kind before index `n`. */
  function Keys(items: seq<Card>, n: nat, kind: string): set<string>
    requires n <= |items|
  {
    if n == 0 then {}
    else Keys(items, n - 1, kind) + (if items[n - 1].kind == kind then {items[n - 1].key} else {})
  }

  /** A card counts if it is of the kind, the first of its key on the page, and of the years. */
  predicate Counts(items: seq<Card>, i: nat, q: Query)
    requires i < |items|
  {
    items[i].kind == q.kind && items[i].key !in Keys(items, i, q.kind) && YearOk(items[i], q)
  }

  function On(page: nat, items: seq<Card>, from: nat, to: nat, q: Query): seq<Found>
    requires to <= |items|
  {
    if to <= from then []
    else On(page, items, from, to - 1, q) + (if Counts(items, to - 1, q) then [Found(items[to - 1], page, to)] else [])
  }

  function OnPage(source: Source, page: nat, offset: nat, q: Query): seq<Found> {
    On(page, source(page).items, offset, |source(page).items|, q)
  }

  /** Everything that counts from a position on, to the last page there is. */
  function Ahead(source: Source, page: nat, offset: nat, q: Query): seq<Found>
    decreases LAST_PAGE - page
  {
    OnPage(source, page, offset, q) + (if source(page).hasMore && page < LAST_PAGE then Ahead(source, page + 1, 0, q) else [])
  }

  predicate Accepts(c: Card, q: Query) {
    q.exclude ==> c.mapped && q.missing(c)
  }

  function Kept(found: seq<Found>, q: Query): seq<Found> {
    if found == [] then []
    else Kept(found[..|found| - 1], q) + (if Accepts(found[|found| - 1].card, q) then [found[|found| - 1]] else [])
  }

  datatype Cursor = Cursor(page: nat, offset: nat)

  /** The sequence that the batches are to deliver from a cursor on. */
  function Remaining(source: Source, cursor: Option<Cursor>, q: Query): seq<Found> {
    if cursor.None? then [] else Kept(Ahead(source, cursor.value.page, cursor.value.offset, q), q)
  }

  /** No card of the kind appears on two pages. */
  ghost predicate NoRepeats(source: Source, kind: string) {
    forall p: nat, r: nat, k: string {:trigger OnPages(source, p, kind, k), OnPages(source, r, kind, k)} ::
      OnPages(source, p, kind, k) && OnPages(source, r, kind, k) ==> p == r
  }

  predicate OnPages(source: Source, page: nat, kind: string, key: string) {
    key in Keys(source(page).items, |source(page).items|, kind)
  }

  /** The outside world during one call: interruptions at each check, provider failures at each page, the library. */
  datatype Weather = Weather(interrupted: nat -> bool, fails: nat -> bool, libraryLoads: bool)

  datatype Stop = Going | Interrupted | ProviderError | TargetReached | SourceExhausted | PageLimit

  /** `library`: whether the library was asked, and answered. */
  datatype Batch = Batch(items: seq<Found>, next: Option<Cursor>, pagesRead: nat, stop: Stop, library: Option<bool>)

  // ----- sequences -----

  lemma {:induction false} KeptConcat(a: seq<Found>, b: seq<Found>, q: Query)
    ensures Kept(a + b, q) == Kept(a, q) + Kept(b, q)
  {
    if b == [] {
      assert a + b == a;
    } else {
      var n := |b| - 1;
      var u := a + b;
      assert u[..|u| - 1] == a + b[..n] && u[|u| - 1] == b[n];
      KeptConcat(a, b[..n], q);
    }
  }

  lemma {:induction false} KeysGrow(items: seq<Card>, n: nat, m: nat, kind: string)
    requires n <= m <= |items|
    ensures Keys(items, n, kind) <= Keys(items, m, kind)
  {
    if n < m {
      KeysGrow(items, n, m - 1, kind);
    }
  }

  lemma {:induction false} OnSplit(page: nat, items: seq<Card>, from: nat, mid: nat, to: nat, q: Query)
    requires from <= mid <= to <= |items|
    ensures On(page, items, from, to, q) == On(page, items, from, mid, q) + On(page, items, mid, to, q)
  {
    if mid < to {
      OnSplit(page, items, from, mid, to - 1, q);
    }
  }

  /** What the first `n` cards of a page add to a collection that has seen the keys `before`. */
  function Scanned(page: nat, items: seq<Card>, offset: nat, n: nat, q: Query, before: set<string>): seq<Found>
    requires n <= |items|
  {
    if n == 0 then []
    else
      var card := items[n - 1];
      Scanned(page, items, offset, n - 1, q, before) +
      (if card.kind == q.kind && offset < n && card.key !in before + Keys(items, n - 1, q.kind) && YearOk(card, q) then [Found(card, page, n)] else [])
  }

  /** On a page without keys seen before, that is everything that counts. */
  lemma {:induction false} ScannedIsOn(page: nat, items: seq<Card>, offset: nat, n: nat, q: Query, before: set<string>)
    requires n <= |items| && before !! Keys(items, |items|, q.kind)
    ensures Scanned(page, items, offset, n, q, before) == On(page, items, offset, n, q)
  {
    if n > 0 {
      ScannedIsOn(page, items, offset, n - 1, q, before);
      KeysGrow(items, n, |items|, q.kind);
    }
  }

  lemma {:induction false} ScannedPositions(page: nat, items: seq<Card>, offset: nat, n: nat, q: Query, before: set<string>)
    requires n <= |items|
    ensures forall f :: f in Scanned(page, items, offset, n, q, before) ==> f.page == page && offset < f.next <= n
  {
    if n > 0 {
      ScannedPositions(page, items, offset, n - 1, q, before);
    }
  }

  /** Scanning one page: `seen` holds the keys of earlier pages and of this one so far. */
  method ScanPage(source: Source, page: nat, offset: nat, q: Query, before: set<string>) returns (found: seq<Found>, seen: set<string>)
    ensures found == Scanned(page, source(page).items, offset, |source(page).items|, q, before)
    ensures seen == before + Keys(source(page).items, |source(page).items|, q.kind)
    ensures before !! Keys(source(page).items, |source(page).items|, q.kind) ==> found == OnPage(source, page, offset, q)
  {
    var items := source(page).items;
    found := [];
    seen := before;
    for index := 0 to |items|
      invariant seen == before + Keys(items, index, q.kind)
      invariant found == Scanned(page, items, offset, index, q, before)
    {
      var card := items[index];
      if card.kind == q.kind {
        if index >= offset && card.key !in seen && YearOk(card, q) {
          found := found + [Found(card, page, index + 1)];
        }
        seen := seen + {card.key};
      }
    }
    if before !! Keys(items, |items|, q.kind) {
      ScannedIsOn(page, items, offset, |items|, q, before);
    }
  }

  // ----- reading pages -----

  /** What counts on `n` pages from a position on. */
  function Read(source: Source, page: nat, offset: nat, n: nat, q: Query): seq<Found>
    decreases n
  {
    if n == 0 then [] else Read(source, page, offset, n - 1, q) + OnPage(source, page + n - 1, if n == 1 then offset else 0, q)
  }

  /** Every one of the `n` pages but the last has a successor to read. */
  predicate Continues(source: Source, page: nat, n: nat) {
    forall k: nat {:trigger source(k)} :: page <= k && k + 1 < page + n ==> source(k).hasMore && k < LAST_PAGE
  }

  function Rest(source: Source, page: nat, q: Query): seq<Found> {
    if source(page).hasMore && page < LAST_PAGE then Ahead(source, page + 1, 0, q) else []
  }

  /** What lies ahead is what the pages read hold, and what lies beyond the last of them. */
  lemma {:induction false} AheadOfRead(source: Source, page: nat, offset: nat, n: nat, q: Query)
    requires n >= 1 && Continues(source, page, n)
    ensures Ahead(source, page, offset, q) == Read(source, page, offset, n, q) + Rest(source, page + n - 1, q)
    decreases n
  {
    if n == 1 {
      assert Read(source, page, offset, 0, q) == [];
      assert [] + OnPage(source, page, offset, q) == OnPage(source, page, offset, q);
    } else {
      AheadOfRead(source, page, offset, n - 1, q);
      var last := page + n - 2;
      assert source(last).hasMore && last < LAST_PAGE;
      Join(Read(source, page, offset, n - 1, q), OnPage(source, last + 1, 0, q), Rest(source, last + 1, q));
    }
  }

  lemma Join(a: seq<Found>, b: seq<Found>, c: seq<Found>)
    ensures a + (b + c) == a + b + c
  {
  }

  /** Each card found is the last one before its own position. */
  lemma {:induction false} OnIndex(page: nat, items: seq<Card>, from: nat, to: nat, q: Query, j: nat)
    requires to <= |items| && j < |On(page, items, from, to, q)|
    ensures var f := On(page, items, from, to, q);
            from < f[j].next <= to && f[j].page == page && f[..j + 1] == On(page, items, from, f[j].next, q)
  {
    var f := On(page, items, from, to, q);
    var before := On(page, items, from, to - 1, q);
    if j < |before| {
      OnIndex(page, items, from, to - 1, q, j);
      assert f[..j + 1] == before[..j + 1];
    } else {
      assert f[..j + 1] == f;
    }
  }

  /** On one page: what is found splits at a card, and goes on at its position. */
  lemma PageSplits(source: Source, page: nat, offset: nat, q: Query, i: nat)
    requires i < |OnPage(source, page, offset, q)|
    ensures var here := OnPage(source, page, offset, q);
            && here[i].page == page && offset < here[i].next
            && here + Rest(source, page, q) == here[..i + 1] + Ahead(source, page, here[i].next, q)
  {
    var items := source(page).items;
    var here := OnPage(source, page, offset, q);
    OnIndex(page, items, offset, |items|, q, i);
    OnSplit(page, items, offset, here[i].next, |items|, q);
    var tail := OnPage(source, page, here[i].next, q);
    Join(here[..i + 1], tail, Rest(source, page, q));
  }

  lemma SplitEarlier(before: seq<Found>, here: seq<Found>, rest: seq<Found>, j: nat, ahead: seq<Found>)
    requires j < |before| && before + (here + rest) == before[..j + 1] + ahead
    ensures before + here + rest == (before + here)[..j + 1] + ahead
  {
    assert (before + here)[..j + 1] == before[..j + 1];
  }

  lemma SplitLater(before: seq<Found>, here: seq<Found>, rest: seq<Found>, i: nat, ahead: seq<Found>)
    requires i < |here| && here + rest == here[..i + 1] + ahead
    ensures before + here + rest == (before + here)[..|before| + i + 1] + ahead
  {
    assert (before + here)[..|before| + i + 1] == before + here[..i + 1];
    assert before + here + rest == before + (here + rest);
  }

  /** Cutting what was read after one of its cards leaves what lies ahead of that card's position. */
  lemma {:induction false} ReadSplits(source: Source, page: nat, offset: nat, n: nat, q: Query, j: nat)
    requires n >= 1 && Continues(source, page, n) && j < |Read(source, page, offset, n, q)|
    ensures var found := Read(source, page, offset, n, q);
            && page <= found[j].page < page + n && (found[j].page == page ==> offset < found[j].next)
            && found + Rest(source, page + n - 1, q) == found[..j + 1] + Ahead(source, found[j].page, found[j].next, q)
    decreases n
  {
    var last, from := page + n - 1, if n == 1 then offset else 0;
    var before, here := Read(source, page, offset, n - 1, q), OnPage(source, last, from, q);
    var rest := Rest(source, last, q);
    assert Read(source, page, offset, n, q) == before + here;
    if j < |before| {
      ReadSplits(source, page, offset, n - 1, q, j);
      RestIsNextPage(source, last - 1, q);
      SplitEarlier(before, here, rest, j, Ahead(source, before[j].page, before[j].next, q));
    } else {
      PageSplits(source, last, from, q, j - |before|);
      SplitLater(before, here, rest, j - |before|, Ahead(source, here[j - |before|].page, here[j - |before|].next, q));
    }
  }

  lemma RestIsNextPage(source: Source, page: nat, q: Query)
    requires source(page).hasMore && page < LAST_PAGE
    ensures Rest(source, page, q) == OnPage(source, page + 1, 0, q) + Rest(source, page + 1, q)
  {
  }

  /** The k-th accepted card sits somewhere among all that were found. */
  lemma {:induction false} KeptIndex(found: seq<Found>, q: Query, k: nat) returns (j: nat)
    requires k < |Kept(found, q)|
    ensures j < |found| && found[j] == Kept(found, q)[k] && Kept(found[..j + 1], q) == Kept(found, q)[..k + 1]
  {
    var n := |found| - 1;
    var before := Kept(found[..n], q);
    if k < |before| {
      j := KeptIndex(found[..n], q, k);
      assert found[..n][..j + 1] == found[..j + 1];
    } else {
      j := n;
      assert found[..j + 1] == found;
    }
  }

  lemma {:induction false} KeptAll(found: seq<Found>, q: Query)
    requires !q.exclude
    ensures Kept(found, q) == found
  {
    if found != [] {
      KeptAll(found[..|found| - 1], q);
    }
  }

  /** The keys of the `n` pages from `page` on. */
  function KeysRead(source: Source, page: nat, n: nat, kind: string): set<string> {
    if n == 0 then {} else KeysRead(source, page, n - 1, kind) + Keys(source(page + n - 1).items, |source(page + n - 1).items|, kind)
  }

  lemma {:induction false} KeysReadFrom(source: Source, page: nat, n: nat, kind: string, k: string)
    requires k in KeysRead(source, page, n, kind)
    ensures exists p: nat :: page <= p < page + n && OnPages(source, p, kind, k)
  {
    var last := page + n - 1;
    if k in KeysRead(source, page, n - 1, kind) {
      KeysReadFrom(source, page, n - 1, kind, k);
    } else {
      assert OnPages(source, last, kind, k);
    }
  }

  lemma NewPageIsNew(source: Source, page: nat, n: nat, kind: string)
    requires NoRepeats(source, kind)
    ensures KeysRead(source, page, n, kind) !! Keys(source(page + n).items, |source(page + n).items|, kind)
  {
    forall k | k in KeysRead(source, page, n, kind) ensures !OnPages(source, page + n, kind, k) {
      KeysReadFrom(source, page, n, kind, k);
    }
  }

  // ----- one call -----

  predicate AnyMapped(found: seq<Found>) {
    exists i :: 0 <= i < |found| && found[i].card.mapped
  }

  /** The library is not needed, or has answered. */
  predicate Answered(q: Query, library: Option<bool>) {
    !q.exclude || library == Some(true)
  }

  /** The accepted cards; a library that was not asked, or did not answer, accepts nothing. */
  function Accepted(cards: seq<Found>, q: Query, library: Option<bool>): seq<Found> {
    if Answered(q, library) then Kept(cards, q) else []
  }

  method Filter(cards: seq<Found>, q: Query, library: Option<bool>) returns (accepted: seq<Found>)
    ensures accepted == Accepted(cards, q, library)
  {
    accepted := [];
    if !q.exclude {
      KeptAll(cards, q);
      accepted := cards;
    } else if library == Some(true) {
      for i := 0 to |cards|
        invariant accepted == Kept(cards[..i], q)
      {
        assert cards[..i + 1][..i] == cards[..i];
        if cards[i].card.mapped && q.missing(cards[i].card) {
          accepted := accepted + [cards[i]];
        }
      }
      assert cards[..|cards|] == cards;
    }
  }

  /** The variables of the collecting loop: pages read, checks for an interruption made, what was found and accepted. */
  datatype Progress = Progress(n: nat, checks: nat, cards: seq<Found>, seen: set<string>, accepted: seq<Found>, library: Option<bool>, stop: Stop)

  /** One page: read it, consult the library for what was found so far, and decide whether to go on. */
  function Visited(source: Source, q: Query, start: Cursor, limit: nat, w: Weather, p: Progress): Progress {
    var page, offset := start.page + p.n, if p.n == 0 then start.offset else 0;
    var items := source(page).items;
    var cards := p.cards + Scanned(page, items, offset, |items|, q, p.seen);
    var early := w.interrupted(p.checks);
    var asks := q.exclude && AnyMapped(cards) && p.library.None? && !early;
    var library := if asks then Some(w.libraryLoads) else p.library;
    var checks := p.checks + (if asks then 2 else 1);
    var interrupted := w.interrupted(checks) || (if asks then w.interrupted(p.checks + 1) else early);
    var accepted := Accepted(cards, q, library);
    Progress(p.n + 1, checks + 1, cards, p.seen + Keys(items, |items|, q.kind), accepted, library,
             if interrupted then Interrupted
             else if |accepted| >= limit then TargetReached
             else if !source(page).hasMore then SourceExhausted
             else if p.n + 1 >= MAX_PAGES || page >= LAST_PAGE then PageLimit
             else Going)
  }

  /** One round of the loop. */
  function Turn(source: Source, q: Query, start: Cursor, limit: nat, w: Weather, p: Progress): Progress {
    if w.interrupted(p.checks) then p.(checks := p.checks + 1, stop := Interrupted)
    else if w.fails(p.n) then p.(checks := p.checks + 2, stop := if w.interrupted(p.checks + 1) then Interrupted else ProviderError)
    else Visited(source, q, start, limit, w, p.(checks := p.checks + 1))
  }

  function Ran(source: Source, q: Query, start: Cursor, limit: nat, w: Weather, p: Progress): Progress
    decreases MAX_PAGES - p.n, if p.stop.Going? then 1 else 0
  {
    if !p.stop.Going? || p.n >= MAX_PAGES then p else Ran(source, q, start, limit, w, Turn(source, q, start, limit, w, p))
  }

  function Begun(w: Weather): Progress {
    Progress(0, 1, [], {}, [], None, if w.interrupted(0) then Interrupted else Going)
  }

  /** Where a call that returns all it accepted goes on: after the pages it read, or where it began. */
  function NextCursor(source: Source, start: Cursor, n: nat): Option<Cursor> {
    if n == 0 then (if start.page > LAST_PAGE then None else Some(start))
    else if start.page + n > LAST_PAGE || !source(start.page + n - 1).hasMore then None
    else Some(Cursor(start.page + n, 0))
  }

  /** What a call returns: all it accepted, or as much as was asked for and the position after that. */
  function Concluded(source: Source, start: Cursor, limit: nat, p: Progress): Batch {
    if |p.accepted| <= limit then Batch(p.accepted, NextCursor(source, start, p.n), p.n, p.stop, p.library)
    else
      // Python's `accepted[returned - 1]`, which for a limit of zero is the last one
      var last := p.accepted[if limit > 0 then limit - 1 else |p.accepted| - 1];
      Batch(p.accepted[..limit], Some(Cursor(last.page, last.next)), p.n, p.stop, p.library)
  }

  function Collected(source: Source, q: Query, start: Cursor, limit: nat, w: Weather): Batch {
    Concluded(source, start, limit, Ran(source, q, start, limit, w, Begun(w)))
  }

  method Collect(source: Source, q: Query, start: Cursor, limit: nat, w: Weather) returns (b: Batch)
    ensures b == Collected(source, q, start, limit, w)
    ensures Promised(source, q, start, limit, w, b)
  {
    var n: nat, checks: nat := 0, 1;
    var cards: seq<Found>, accepted: seq<Found>, seen: set<string> := [], [], {};
    var library: Option<bool> := None;
    var hasMore := false;
    var stop := if w.interrupted(0) then Interrupted else Going;
    while stop == Going
      invariant Ran(source, q, start, limit, w, Begun(w)) ==
                Ran(source, q, start, limit, w, Progress(n, checks, cards, seen, accepted, library, stop))
      invariant stop == Going ==> n < MAX_PAGES
      invariant n > 0 ==> hasMore == source(start.page + n - 1).hasMore
      decreases stop == Going, MAX_PAGES - n
    {
      RanTurn(source, q, start, limit, w, Progress(n, checks, cards, seen, accepted, library, stop));
      ghost var next := Turn(source, q, start, limit, w, Progress(n, checks, cards, seen, accepted, library, stop));
      n, checks, cards, seen, accepted, library, stop, hasMore :=
        Round(source, q, start, limit, w, n, checks, cards, seen, accepted, library, hasMore);
      assert Progress(n, checks, cards, seen, accepted, library, stop) == next;
    }
    b := Conclude(source, start, limit, Progress(n, checks, cards, seen, accepted, library, stop), accepted, n, hasMore, stop, library);
    CollectedPromised(source, q, start, limit, w);
  }

  method Conclude(source: Source, start: Cursor, limit: nat, ghost p: Progress, accepted: seq<Found>, n: nat, hasMore: bool, stop: Stop,
                  library: Option<bool>) returns (b: Batch)
    requires accepted == p.accepted && n == p.n && stop == p.stop && library == p.library
    requires n > 0 ==> hasMore == source(start.page + n - 1).hasMore
    ensures b == Concluded(source, start, limit, p)
  {
    var items, next := Finish(accepted, limit, start, n, hasMore);
    b := Batch(items, next, n, stop, library);
  }

  /** The body of the loop. */
  method Round(source: Source, q: Query, start: Cursor, limit: nat, w: Weather, read: nat, check: nat, found: seq<Found>, known: set<string>,
               was: seq<Found>, asked: Option<bool>, more: bool)
    returns (n: nat, checks: nat, cards: seq<Found>, seen: set<string>, accepted: seq<Found>, library: Option<bool>, stop: Stop, hasMore: bool)
    requires read > 0 ==> more == source(start.page + read - 1).hasMore
    ensures Progress(n, checks, cards, seen, accepted, library, stop) ==
            Turn(source, q, start, limit, w, Progress(read, check, found, known, was, asked, Going))
    ensures stop == Going ==> n == read + 1 < MAX_PAGES
    ensures n > 0 ==> hasMore == source(start.page + n - 1).hasMore
  {
    n, checks, cards, seen, accepted, library, hasMore := read, check + 1, found, known, was, asked, more;
    ghost var p := Progress(read, check, found, known, was, asked, Going);
    assert p.(checks := check + 1) == Progress(read, check + 1, found, known, was, asked, Going);
    if w.interrupted(check) {
      stop := Interrupted;
    } else if w.fails(n) {
      stop := if w.interrupted(checks) then Interrupted else ProviderError;
      checks := checks + 1;
    } else {
      cards, seen, accepted, library, stop, checks := Visit(source, q, start, limit, w, n, cards, seen, accepted, library, checks);
      hasMore := source(start.page + n).hasMore;
      n := n + 1;
    }
  }

  lemma RanTurn(source: Source, q: Query, start: Cursor, limit: nat, w: Weather, p: Progress)
    requires p.stop.Going? && p.n < MAX_PAGES
    ensures Ran(source, q, start, limit, w, p) == Ran(source, q, start, limit, w, Turn(source, q, start, limit, w, p))
  {
  }

  method Visit(source: Source, q: Query, start: Cursor, limit: nat, w: Weather, n: nat, found: seq<Found>, known: set<string>,
               was: seq<Found>, asked: Option<bool>, check: nat)
    returns (cards: seq<Found>, seen: set<string>, accepted: seq<Found>, library: Option<bool>, stop: Stop, checks: nat)
    ensures Progress(n + 1, checks, cards, seen, accepted, library, stop) ==
            Visited(source, q, start, limit, w, Progress(n, check, found, known, was, asked, Going))
    ensures stop == Going ==> n + 1 < MAX_PAGES
  {
    var page, offset := start.page + n, if n == 0 then start.offset else 0;
    var more;
    more, seen := ScanPage(source, page, offset, q, known);
    cards, library := found + more, asked;
    var before := w.interrupted(check);
    checks := check + 1;
    if q.exclude && AnyMapped(cards) && library.None? && !before {
      library := Some(w.libraryLoads);
      before := w.interrupted(checks);
      checks := checks + 1;
    }
    accepted := Filter(cards, q, library);
    var late := w.interrupted(checks);
    checks := checks + 1;
    stop := if late || before then Interrupted
            else if |accepted| >= limit then TargetReached
            else if !source(page).hasMore then SourceExhausted
            else if n + 1 >= MAX_PAGES || page >= LAST_PAGE then PageLimit
            else Going;
  }

  /** What a call returns for the cards it accepted; without pages it returns the cursor it was given. */
  method Finish(accepted: seq<Found>, limit: nat, start: Cursor, n: nat, hasMore: bool) returns (items: seq<Found>, next: Option<Cursor>)
    ensures items == if |accepted| <= limit then accepted else accepted[..limit]
    ensures |accepted| > limit ==>
              var last := accepted[if limit > 0 then limit - 1 else |accepted| - 1];
              next == Some(Cursor(last.page, last.next))
    ensures |accepted| <= limit ==>
              next == if (if n > 0 then start.page + n else start.page) > LAST_PAGE || (n > 0 && !hasMore) then None
                      else if n > 0 then Some(Cursor(start.page + n, 0)) else Some(start)
  {
    var returned := if |accepted| < limit then |accepted| else limit;
    items := accepted[..returned];
    var nextPage := if n > 0 then start.page + n else start.page;
    next := if nextPage > LAST_PAGE || (n > 0 && !hasMore) then None else Some(Cursor(nextPage, if n > 0 then 0 else start.offset));
    if |accepted| > limit {
      var last := accepted[if returned > 0 then returned - 1 else |accepted| - 1];
      next := Some(Cursor(last.page, last.next));
    }
  }

  // ----- what is known at each round -----

  predicate After(a: Cursor, b: Cursor) {
    a.page < b.page || (a.page == b.page && a.offset < b.offset)
  }

  ghost predicate Placed(source: Source, start: Cursor, n: nat, cards: seq<Found>) {
    forall f :: f in cards ==>
      After(start, Cursor(f.page, f.next)) && f.page < start.page + n && f.next <= |source(f.page).items|
  }

  ghost predicate ReadSoFar(source: Source, start: Cursor, q: Query, n: nat, cards: seq<Found>, seen: set<string>) {
    && Continues(source, start.page, n) && seen == KeysRead(source, start.page, n, q.kind)
    && (NoRepeats(source, q.kind) ==> cards == Read(source, start.page, start.offset, n, q))
    && Placed(source, start, n, cards)
  }

  /** The library is asked as soon as there is something to ask it, unless the call is interrupted. */
  ghost predicate AskedOk(q: Query, w: Weather, cards: seq<Found>, library: Option<bool>, stop: Stop) {
    && (library.Some? ==> q.exclude && AnyMapped(cards) && library.value == w.libraryLoads)
    && (q.exclude && AnyMapped(cards) && library.None? ==> stop.Interrupted?)
  }

  ghost predicate ProgressOk(source: Source, q: Query, start: Cursor, w: Weather, p: Progress) {
    && p.n <= MAX_PAGES && ReadSoFar(source, start, q, p.n, p.cards, p.seen)
    && (p.stop.Going? ==> p.n < MAX_PAGES && Continues(source, start.page, p.n + 1))
    && p.accepted == Accepted(p.cards, q, p.library) && AskedOk(q, w, p.cards, p.library, p.stop)
    && (Fair(w) ==> !p.stop.Interrupted? && !p.stop.ProviderError? && (p.n == 0 ==> p.stop.Going?))
  }

  /** Whether the weather is fine: no interruption, no failing provider, and a library that answers. */
  ghost predicate Fair(w: Weather) {
    (forall n: nat :: !w.interrupted(n)) && (forall n: nat :: !w.fails(n)) && w.libraryLoads
  }

  lemma BegunOk(source: Source, q: Query, start: Cursor, w: Weather)
    ensures ProgressOk(source, q, start, w, Begun(w))
  {
    assert Kept([], q) == [];
    assert Read(source, start.page, start.offset, 0, q) == [] && KeysRead(source, start.page, 0, q.kind) == {};
  }

  /** One more page. */
  lemma PageRead(source: Source, q: Query, start: Cursor, n: nat, cards: seq<Found>, seen: set<string>)
    requires ReadSoFar(source, start, q, n, cards, seen) && Continues(source, start.page, n + 1)
    ensures var page, offset := start.page + n, if n == 0 then start.offset else 0;
            var items := source(page).items;
            ReadSoFar(source, start, q, n + 1, cards + Scanned(page, items, offset, |items|, q, seen), seen + Keys(items, |items|, q.kind))
  {
    var page, offset := start.page + n, if n == 0 then start.offset else 0;
    var items := source(page).items;
    ScannedPositions(page, items, offset, |items|, q, seen);
    if NoRepeats(source, q.kind) {
      NewPageIsNew(source, start.page, n, q.kind);
      ScannedIsOn(page, items, offset, |items|, q, seen);
    }
  }

  lemma MoreMapped(cards: seq<Found>, more: seq<Found>)
    requires AnyMapped(cards)
    ensures AnyMapped(cards + more)
  {
    var i :| 0 <= i < |cards| && cards[i].card.mapped;
    assert (cards + more)[i] == cards[i];
  }

  lemma VisitedAsks(source: Source, q: Query, start: Cursor, limit: nat, w: Weather, p: Progress)
    requires AskedOk(q, w, p.cards, p.library, Going)
    ensures var next := Visited(source, q, start, limit, w, p); AskedOk(q, w, next.cards, next.library, next.stop)
  {
    if AnyMapped(p.cards) {
      var page, items := start.page + p.n, source(start.page + p.n).items;
      MoreMapped(p.cards, Scanned(page, items, if p.n == 0 then start.offset else 0, |items|, q, p.seen));
    }
  }

  lemma VisitedStops(source: Source, q: Query, start: Cursor, limit: nat, w: Weather, p: Progress)
    ensures var next := Visited(source, q, start, limit, w, p);
            && next.n == p.n + 1 && next.accepted == Accepted(next.cards, q, next.library)
            && (next.stop.Going? ==> source(start.page + p.n).hasMore && next.n < MAX_PAGES && start.page + p.n < LAST_PAGE)
            && (Fair(w) ==> !next.stop.Interrupted? && !next.stop.ProviderError?)
  {
  }

  lemma VisitedReads(source: Source, q: Query, start: Cursor, limit: nat, w: Weather, p: Progress)
    requires ReadSoFar(source, start, q, p.n, p.cards, p.seen) && Continues(source, start.page, p.n + 1)
    ensures var next := Visited(source, q, start, limit, w, p); ReadSoFar(source, start, q, p.n + 1, next.cards, next.seen)
  {
    PageRead(source, q, start, p.n, p.cards, p.seen);
  }

  lemma VisitedOk(source: Source, q: Query, start: Cursor, limit: nat, w: Weather, p: Progress)
    requires ProgressOk(source, q, start, w, p) && p.stop.Going?
    ensures ProgressOk(source, q, start, w, Visited(source, q, start, limit, w, p))
  {
    VisitedReads(source, q, start, limit, w, p);
    VisitedAsks(source, q, start, limit, w, p);
    VisitedStops(source, q, start, limit, w, p);
    var next := Visited(source, q, start, limit, w, p);
    if next.stop.Going? {
      GoesOn(source, start.page, next.n);
    }
  }

  lemma TurnOk(source: Source, q: Query, start: Cursor, limit: nat, w: Weather, p: Progress)
    requires ProgressOk(source, q, start, w, p) && p.stop.Going?
    ensures ProgressOk(source, q, start, w, Turn(source, q, start, limit, w, p))
  {
    if !w.interrupted(p.checks) && !w.fails(p.n) {
      VisitedOk(source, q, start, limit, w, p.(checks := p.checks + 1));
    }
  }

  lemma {:induction false} RanOk(source: Source, q: Query, start: Cursor, limit: nat, w: Weather, p: Progress)
    requires ProgressOk(source, q, start, w, p)
    ensures var p' := Ran(source, q, start, limit, w, p); ProgressOk(source, q, start, w, p') && !p'.stop.Going?
    decreases MAX_PAGES - p.n, if p.stop.Going? then 1 else 0
  {
    if p.stop.Going? {
      TurnOk(source, q, start, limit, w, p);
      RanOk(source, q, start, limit, w, Turn(source, q, start, limit, w, p));
    }
  }

  lemma GoesOn(source: Source, page: nat, n: nat)
    requires n >= 1 && Continues(source, page, n) && source(page + n - 1).hasMore && page + n - 1 < LAST_PAGE
    ensures Continues(source, page, n + 1)
  {
  }

  // ----- what a call promises -----

  /** The batch is bounded, and its cursor is a later position of the source. */
  ghost predicate Advances(source: Source, start: Cursor, limit: nat, b: Batch) {
    && |b.items| <= limit && b.pagesRead <= 8
    && (start.page <= 100 && b.next.Some? ==> b.next.value.page <= 100)
    && (b.pagesRead > 0 && b.next.Some? ==> After(start, b.next.value) && b.next.value.offset <= |source(b.next.value.page).items|)
  }

  /** What there was to accept on the pages the call read. */
  function Acceptable(source: Source, q: Query, start: Cursor, b: Batch): seq<Found> {
    Kept(Read(source, start.page, start.offset, b.pagesRead, q), q)
  }

  /** The batch and what remains after its cursor are what remained before. */
  predicate NoGap(source: Source, q: Query, start: Cursor, b: Batch) {
    b.items + Remaining(source, b.next, q) == Remaining(source, Some(start), q)
  }

  /** The call returns what it accepts: something is asked for, and the library, if needed, answered. */
  predicate Delivers(q: Query, limit: nat, b: Batch) {
    limit >= 1 && Answered(q, b.library)
  }

  /**
   * There is no gap if and only if the call delivers or there was nothing to
   * accept on the pages it read; otherwise exactly that is lost.
   */
  ghost predicate Joined(source: Source, q: Query, start: Cursor, limit: nat, b: Batch) {
    && (NoGap(source, q, start, b) <==> Delivers(q, limit, b) || Acceptable(source, q, start, b) == [])
    && (!Delivers(q, limit, b) ==>
          b.items == [] && Acceptable(source, q, start, b) + Remaining(source, b.next, q) == Remaining(source, Some(start), q))
  }

  /** When the library is left unasked although a card read can be looked up, the call was interrupted. */
  ghost predicate LibraryUsed(source: Source, q: Query, start: Cursor, w: Weather, b: Batch) {
    AskedOk(q, w, Read(source, start.page, start.offset, b.pagesRead, q), b.library, b.stop)
  }

  ghost predicate Promised(source: Source, q: Query, start: Cursor, limit: nat, w: Weather, b: Batch) {
    && Advances(source, start, limit, b)
    && (NoRepeats(source, q.kind) ==> LibraryUsed(source, q, start, w, b))
    && (start.page <= LAST_PAGE && NoRepeats(source, q.kind) ==> Joined(source, q, start, limit, b))
    && (Fair(w) ==> b.pagesRead > 0 && (b.stop.TargetReached? || b.stop.SourceExhausted? || b.stop.PageLimit?))
  }

  lemma CollectedPromised(source: Source, q: Query, start: Cursor, limit: nat, w: Weather)
    ensures Promised(source, q, start, limit, w, Collected(source, q, start, limit, w))
  {
    BegunOk(source, q, start, w);
    RanOk(source, q, start, limit, w, Begun(w));
    var p := Ran(source, q, start, limit, w, Begun(w));
    ConcludedAdvances(source, q, start, limit, w, p);
    if start.page <= LAST_PAGE && NoRepeats(source, q.kind) {
      ConcludedJoined(source, q, start, limit, w, p);
    }
  }

  lemma ConcludedAdvances(source: Source, q: Query, start: Cursor, limit: nat, w: Weather, p: Progress)
    requires ProgressOk(source, q, start, w, p)
    ensures Advances(source, start, limit, Concluded(source, start, limit, p))
  {
    if p.n >= 2 {
      LastPageInRange(source, start.page, p.n);
    }
    if |p.accepted| > limit {
      CutAfter(source, q, start, p.n, p.cards, p.seen, if limit > 0 then limit - 1 else |p.accepted| - 1);
    }
  }

  lemma LastPageInRange(source: Source, page: nat, n: nat)
    requires Continues(source, page, n) && n >= 2
    ensures page + n - 1 <= LAST_PAGE
  {
    assert source(page + n - 2).hasMore;
  }

  /** The position of an accepted card lies after the start, on a page that was read. */
  lemma CutAfter(source: Source, q: Query, start: Cursor, n: nat, cards: seq<Found>, seen: set<string>, k: nat)
    requires ReadSoFar(source, start, q, n, cards, seen) && k < |Kept(cards, q)|
    ensures var last := Kept(cards, q)[k];
            After(start, Cursor(last.page, last.next)) && last.page < start.page + n && last.next <= |source(last.page).items|
  {
    var j := KeptIndex(cards, q, k);
    assert After(start, Cursor(cards[j].page, cards[j].next));
  }

  lemma ConcludedJoined(source: Source, q: Query, start: Cursor, limit: nat, w: Weather, p: Progress)
    requires ProgressOk(source, q, start, w, p) && start.page <= LAST_PAGE && NoRepeats(source, q.kind)
    ensures Joined(source, q, start, limit, Concluded(source, start, limit, p))
  {
    if !Answered(q, p.library) {
      JoinedWhole(source, q, start, limit, p);
    } else if |p.accepted| <= limit {
      JoinedWhole(source, q, start, limit, p);
    } else {
      JoinedCut(source, q, start, limit, p);
    }
  }

  lemma JoinedWhole(source: Source, q: Query, start: Cursor, limit: nat, p: Progress)
    requires Continues(source, start.page, p.n) && start.page <= LAST_PAGE && p.cards == Read(source, start.page, start.offset, p.n, q)
    requires p.accepted == Accepted(p.cards, q, p.library) && |p.accepted| <= limit
    ensures Joined(source, q, start, limit, Concluded(source, start, limit, p))
  {
    WholeBatch(source, q, start, p.n);
    LostIff(Kept(p.cards, q), Remaining(source, NextCursor(source, start, p.n), q), Remaining(source, Some(start), q));
  }

  lemma JoinedCut(source: Source, q: Query, start: Cursor, limit: nat, p: Progress)
    requires Continues(source, start.page, p.n) && p.cards == Read(source, start.page, start.offset, p.n, q)
    requires p.accepted == Kept(p.cards, q) && Answered(q, p.library) && |p.accepted| > limit
    ensures Joined(source, q, start, limit, Concluded(source, start, limit, p))
  {
    var b, kept := Concluded(source, start, limit, p), Kept(p.cards, q);
    CutBatch(source, q, start, p.n, p.cards, if limit >= 1 then limit else |kept|);
    assert kept[..|kept|] == kept;
    if limit == 0 {
      LostIff(kept, Remaining(source, b.next, q), Remaining(source, Some(start), q));
    }
  }

  lemma LostIff(lost: seq<Found>, after: seq<Found>, before: seq<Found>)
    requires lost + after == before
    ensures [] + after == before <==> lost == []
  {
    assert [] + after == after;
    assert |before| == |lost| + |after|;
  }

  lemma WholeBatch(source: Source, q: Query, start: Cursor, n: nat)
    requires start.page <= LAST_PAGE && Continues(source, start.page, n)
    ensures Kept(Read(source, start.page, start.offset, n, q), q) + Remaining(source, NextCursor(source, start, n), q) ==
            Remaining(source, Some(start), q)
  {
    if n == 0 {
      NothingRead(source, start, q);
    } else {
      PagesRead(source, q, start, n);
    }
  }

  lemma NothingRead(source: Source, start: Cursor, q: Query)
    requires start.page <= LAST_PAGE
    ensures Kept(Read(source, start.page, start.offset, 0, q), q) + Remaining(source, NextCursor(source, start, 0), q) ==
            Remaining(source, Some(start), q)
  {
    assert Read(source, start.page, start.offset, 0, q) == [];
  }

  lemma PagesRead(source: Source, q: Query, start: Cursor, n: nat)
    requires n >= 1 && Continues(source, start.page, n)
    ensures Kept(Read(source, start.page, start.offset, n, q), q) + Remaining(source, NextCursor(source, start, n), q) ==
            Remaining(source, Some(start), q)
  {
    KeptOfRead(source, start.page, start.offset, n, q);
    RemainingNext(source, start, n, q);
  }

  lemma KeptOfRead(source: Source, page: nat, offset: nat, n: nat, q: Query)
    requires n >= 1 && Continues(source, page, n)
    ensures Kept(Read(source, page, offset, n, q), q) + Kept(Rest(source, page + n - 1, q), q) == Kept(Ahead(source, page, offset, q), q)
  {
    AheadOfRead(source, page, offset, n, q);
    KeptConcat(Read(source, page, offset, n, q), Rest(source, page + n - 1, q), q);
  }

  /** What remains after the pages read is what lies beyond the last of them. */
  lemma RemainingNext(source: Source, start: Cursor, n: nat, q: Query)
    requires n >= 1
    ensures Kept(Rest(source, start.page + n - 1, q), q) == Remaining(source, NextCursor(source, start, n), q)
  {
  }

  lemma CutBatch(source: Source, q: Query, start: Cursor, n: nat, cards: seq<Found>, limit: nat)
    requires Continues(source, start.page, n) && cards == Read(source, start.page, start.offset, n, q)
    requires 1 <= limit <= |Kept(cards, q)|
    ensures var last := Kept(cards, q)[limit - 1];
            Kept(cards, q)[..limit] + Remaining(source, Some(Cursor(last.page, last.next)), q) == Remaining(source, Some(start), q)
  {
    var j := KeptIndex(cards, q, limit - 1);
    AheadCut(source, q, start, n, cards, j);
    KeptConcat(cards[..j + 1], Ahead(source, cards[j].page, cards[j].next, q), q);
    assert Kept(cards[..j + 1], q) == Kept(cards, q)[..limit];
  }

  lemma AheadCut(source: Source, q: Query, start: Cursor, n: nat, cards: seq<Found>, j: nat)
    requires Continues(source, start.page, n) && cards == Read(source, start.page, start.offset, n, q) && j < |cards|
    ensures Ahead(source, start.page, start.offset, q) == cards[..j + 1] + Ahead(source, cards[j].page, cards[j].next, q)
  {
    assert n >= 1;
    ReadSplits(source, start.page, start.offset, n, q, j);
    AheadOfRead(source, start.page, start.offset, n, q);
  }

  lemma {:induction false} KeptNone(found: seq<Found>, q: Query)
    requires q.exclude && !AnyMapped(found)
    ensures Kept(found, q) == []
  {
    if found != [] {
      assert !found[|found| - 1].card.mapped;
      assert forall i :: 0 <= i < |found| - 1 ==> found[..|found| - 1][i] == found[i];
      KeptNone(found[..|found| - 1], q);
    }
  }

  /** In fine weather, and if anything is asked for, there is no gap. */
  lemma FairNoGap(source: Source, q: Query, start: Cursor, limit: nat, w: Weather, b: Batch)
    requires Promised(source, q, start, limit, w, b) && Fair(w)
    requires start.page <= LAST_PAGE && limit >= 1 && NoRepeats(source, q.kind)
    ensures NoGap(source, q, start, b)
  {
    if !Answered(q, b.library) {
      KeptNone(Read(source, start.page, start.offset, b.pagesRead, q), q);
    }
  }

  // ----- calls that lose cards -----

  /** A source of one page with one card. */
  function OneCard(card: Card): Source {
    (page: nat) => Page([card], false)
  }

  function AllOf(kind: string, exclude: bool): Query {
    Query(kind, None, None, exclude, (c: Card) => true)
  }

  lemma OneCardAhead(card: Card, exclude: bool)
    requires card.mapped
    ensures Remaining(OneCard(card), Some(Cursor(1, 0)), AllOf(card.kind, exclude)) == [Found(card, 1, 1)]
    ensures Remaining(OneCard(card), Some(Cursor(1, 1)), AllOf(card.kind, exclude)) == []
    ensures Scanned(1, [card], 0, 1, AllOf(card.kind, exclude), {}) == [Found(card, 1, 1)]
    ensures Kept([Found(card, 1, 1)], AllOf(card.kind, exclude)) == [Found(card, 1, 1)]
  {
    var q, source := AllOf(card.kind, exclude), OneCard(card);
    assert On(1, [card], 0, 1, q) == [Found(card, 1, 1)] && On(1, [card], 1, 1, q) == [];
    assert OnPage(source, 1, 0, q) == [Found(card, 1, 1)] && OnPage(source, 1, 1, q) == [];
    assert Kept([], q) == [];
    assert [Found(card, 1, 1)][..0] == [];
  }

  /**
   * With the library excluded, a call that is interrupted after it read a page
   * and before it asked the library returns nothing and ends the collection,
   * although there was a card to deliver.
   */
  lemma InterruptedCallLoses(card: Card, w: Weather) returns (b: Batch)
    requires card.mapped && !w.interrupted(0) && !w.interrupted(1) && !w.fails(0) && w.interrupted(2)
    ensures b == Collected(OneCard(card), AllOf(card.kind, true), Cursor(1, 0), 5, w)
    ensures b == Batch([], None, 1, Interrupted, None)
    ensures !NoGap(OneCard(card), AllOf(card.kind, true), Cursor(1, 0), b)
  {
    var q, source, start := AllOf(card.kind, true), OneCard(card), Cursor(1, 0);
    OneCardAhead(card, true);
    var p := Turn(source, q, start, 5, w, Begun(w));
    assert p.cards == [Found(card, 1, 1)] && p.accepted == [] && p.stop == Interrupted;
    b := Collected(source, q, start, 5, w);
    assert b == Concluded(source, start, 5, p);
  }

  /** A limit of zero loses the accepted card even in fine weather. */
  lemma ZeroLimitLoses(card: Card, w: Weather) returns (b: Batch)
    requires card.mapped && Fair(w)
    ensures b == Collected(OneCard(card), AllOf(card.kind, false), Cursor(1, 0), 0, w)
    ensures b.items == [] && b.next == Some(Cursor(1, 1)) && b.stop == TargetReached
    ensures !NoGap(OneCard(card), AllOf(card.kind, false), Cursor(1, 0), b)
  {
    var q, source, start := AllOf(card.kind, false), OneCard(card), Cursor(1, 0);
    OneCardAhead(card, false);
    var p := Turn(source, q, start, 0, w, Begun(w));
    assert p.accepted == [Found(card, 1, 1)] && p.stop == TargetReached;
    b := Collected(source, q, start, 0, w);
    assert b == Concluded(source, start, 0, p);
  }

  /**
   * Following the cursors of uninterrupted calls delivers exactly the filtered
   * sequence of the source: no gap, no repeat, and after finitely many calls.
   */
  method FollowAll(source: Source, q: Query, start: Cursor, limit: nat, w: Weather) returns (all: seq<Found>)
    requires start.page <= LAST_PAGE && limit >= 1 && NoRepeats(source, q.kind) && Fair(w)
    ensures all == Remaining(source, Some(start), q)
  {
    all := [];
    var next := Some(start);
    while next.Some?
      invariant next.Some? ==> next.value.page <= LAST_PAGE
      invariant all + Remaining(source, next, q) == Remaining(source, Some(start), q)
      decreases if next.Some? then LAST_PAGE - next.value.page + 1 else 0,
                if next.Some? && next.value.offset <= |source(next.value.page).items| then |source(next.value.page).items| - next.value.offset else 0
    {
      var from := next.value;
      var b := Collect(source, q, from, limit, w);
      FairNoGap(source, q, from, limit, w, b);
      Join(all, b.items, Remaining(source, b.next, q));
      all := all + b.items;
      next := b.next;
    }
  }
}
