/**
 * What the collected recommendations are, card by card, and why a call stops
 * where it does.
 */
module DiscoveryMeaning {
  import opened Basics
  import opened DiscoveryPaging

  // ----- what remains to be delivered -----

  /** The pages from `from` up to `page` are there to be read, up to the hundredth. */
  predicate Reaches(source: Source, from: nat, page: nat) {
    from <= page && forall k: nat {:trigger source(k)} :: from <= k < page ==> source(k).hasMore && k < 100
  }

  /** The card is of the kind and years asked for and, if the library is to be left out, known to be missing from it. */
  predicate Fits(c: Card, q: Query) {
    && c.kind == q.kind
    && (q.yearFrom.Some? ==> c.year.Some? && q.yearFrom.value <= c.year.value)
    && (q.yearTo.Some? ==> c.year.Some? && c.year.value <= q.yearTo.value)
    && (q.exclude ==> c.mapped && q.missing(c))
  }

  /** No card of the kind before index `i` has the same key. */
  predicate FirstOfKey(items: seq<Card>, i: nat, kind: string)
    requires i < |items|
  {
    forall j :: 0 <= j < i && items[j].kind == kind ==> items[j].key != items[i].key
  }

  /** The card stands just before `f.next` on its page, at or after the cursor. */
  predicate IsWanted(source: Source, start: Cursor, q: Query, f: Found) {
    var items := source(f.page).items;
    && Reaches(source, start.page, f.page) && 1 <= f.next <= |items| && (f.page == start.page ==> f.next > start.offset)
    && f.card == items[f.next - 1] && Fits(f.card, q) && FirstOfKey(items, f.next - 1, q.kind)
  }

  lemma {:induction false} KeysIff(items: seq<Card>, n: nat, kind: string, key: string)
    requires n <= |items|
    ensures key in Keys(items, n, kind) <==> exists j :: 0 <= j < n && items[j].kind == kind && items[j].key == key
  {
    if n > 0 {
      KeysIff(items, n - 1, kind, key);
    }
  }

  lemma {:induction false} OnIff(page: nat, items: seq<Card>, from: nat, to: nat, q: Query, f: Found)
    requires to <= |items|
    ensures f in On(page, items, from, to, q) <==>
            f.page == page && from < f.next <= to && f.card == items[f.next - 1] && Counts(items, f.next - 1, q)
  {
    if from < to {
      OnIff(page, items, from, to - 1, q, f);
    }
  }

  lemma CountsIff(items: seq<Card>, i: nat, q: Query)
    requires i < |items|
    ensures Counts(items, i, q) && Accepts(items[i], q) <==> Fits(items[i], q) && FirstOfKey(items, i, q.kind)
  {
    KeysIff(items, i, q.kind, items[i].key);
  }

  lemma {:induction false} KeptIff(found: seq<Found>, q: Query, f: Found)
    ensures f in Kept(found, q) <==> f in found && Accepts(f.card, q)
  {
    if found != [] {
      KeptIff(found[..|found| - 1], q, f);
      assert f in found <==> f in found[..|found| - 1] || f == found[|found| - 1];
    }
  }

  lemma {:induction false} AheadIff(source: Source, page: nat, offset: nat, q: Query, f: Found)
    ensures f in Ahead(source, page, offset, q) <==>
            && Reaches(source, page, f.page) && f in OnPage(source, f.page, if f.page == page then offset else 0, q)
    decreases LAST_PAGE - page
  {
    OnIff(page, source(page).items, offset, |source(page).items|, q, f);
    if source(page).hasMore && page < LAST_PAGE {
      AheadIff(source, page + 1, 0, q, f);
      assert f.page > page ==> (Reaches(source, page, f.page) <==> Reaches(source, page + 1, f.page));
    } else {
      assert f.page > page ==> !Reaches(source, page, f.page);
      if f.page > page {
        assert !(source(page).hasMore && page < 100);
      }
    }
  }

  /** The batches are to deliver exactly the wanted cards. */
  lemma RemainingIff(source: Source, start: Cursor, q: Query, f: Found)
    ensures f in Remaining(source, Some(start), q) <==> IsWanted(source, start, q, f)
  {
    KeptAhead(source, start.page, start.offset, q, f);
    WantedIff(source, start, q, f);
  }

  lemma WantedIff(source: Source, start: Cursor, q: Query, f: Found)
    ensures IsWanted(source, start, q, f) <==>
            Reaches(source, start.page, f.page) && f in OnPage(source, f.page, if f.page == start.page then start.offset else 0, q) && Accepts(f.card, q)
  {
    PlaceIff(source, f.page, if f.page == start.page then start.offset else 0, q, f);
  }

  lemma KeptAhead(source: Source, page: nat, offset: nat, q: Query, f: Found)
    ensures f in Kept(Ahead(source, page, offset, q), q) <==>
            Reaches(source, page, f.page) && f in OnPage(source, f.page, if f.page == page then offset else 0, q) && Accepts(f.card, q)
  {
    AheadIff(source, page, offset, q, f);
    KeptIff(Ahead(source, page, offset, q), q, f);
  }

  lemma PlaceIff(source: Source, page: nat, offset: nat, q: Query, f: Found)
    requires f.page == page
    ensures var items := source(page).items;
            f in OnPage(source, page, offset, q) && Accepts(f.card, q) <==>
            && 1 <= f.next <= |items| && offset < f.next && f.card == items[f.next - 1]
            && Fits(f.card, q) && FirstOfKey(items, f.next - 1, q.kind)
  {
    var items := source(page).items;
    OnIff(page, items, offset, |items|, q, f);
    if 1 <= f.next <= |items| && f.card == items[f.next - 1] {
      CountsIff(items, f.next - 1, q);
    }
  }

  ghost predicate InOrder(found: seq<Found>) {
    forall i, j :: 0 <= i < j < |found| ==> After(Cursor(found[i].page, found[i].next), Cursor(found[j].page, found[j].next))
  }

  lemma {:induction false} OnInOrder(page: nat, items: seq<Card>, from: nat, to: nat, q: Query)
    requires to <= |items|
    ensures InOrder(On(page, items, from, to, q))
  {
    if from < to {
      OnInOrder(page, items, from, to - 1, q);
      forall f | f in On(page, items, from, to - 1, q) ensures f.page == page && f.next < to {
        OnIff(page, items, from, to - 1, q, f);
      }
    }
  }

  lemma {:induction false} AheadInOrder(source: Source, page: nat, offset: nat, q: Query)
    ensures InOrder(Ahead(source, page, offset, q))
    decreases LAST_PAGE - page
  {
    OnInOrder(page, source(page).items, offset, |source(page).items|, q);
    if source(page).hasMore && page < LAST_PAGE {
      AheadInOrder(source, page + 1, 0, q);
      var (here, later) := (OnPage(source, page, offset, q), Ahead(source, page + 1, 0, q));
      forall f | f in here ensures f.page == page {
        OnIff(page, source(page).items, offset, |source(page).items|, q, f);
      }
      forall f | f in later ensures f.page > page {
        AheadIff(source, page + 1, 0, q, f);
      }
      OrderJoins(here, later, page);
    }
  }

  lemma OrderJoins(here: seq<Found>, later: seq<Found>, page: nat)
    requires InOrder(here) && InOrder(later)
    requires (forall f :: f in here ==> f.page == page) && forall f :: f in later ==> f.page > page
    ensures InOrder(here + later)
  {
    forall i, j | 0 <= i < j < |here + later|
      ensures After(Cursor((here + later)[i].page, (here + later)[i].next), Cursor((here + later)[j].page, (here + later)[j].next))
    {
      if i < |here| <= j {
        assert here[i] in here && later[j - |here|] in later;
      } else if |here| <= i {
        assert After(Cursor(later[i - |here|].page, later[i - |here|].next), Cursor(later[j - |here|].page, later[j - |here|].next));
      }
    }
  }

  lemma {:induction false} KeptInOrder(found: seq<Found>, q: Query)
    requires InOrder(found)
    ensures InOrder(Kept(found, q))
  {
    if found != [] {
      var n := |found| - 1;
      assert forall i :: 0 <= i < n ==> found[..n][i] == found[i];
      KeptInOrder(found[..n], q);
      forall f | f in Kept(found[..n], q) ensures After(Cursor(f.page, f.next), Cursor(found[n].page, found[n].next)) {
        KeptIff(found[..n], q, f);
        var i :| 0 <= i < n && found[..n][i] == f;
        assert found[i] == f;
      }
    }
  }

  /** Page by page, and on a page by position. */
  lemma RemainingInOrder(source: Source, start: Cursor, q: Query)
    ensures InOrder(Remaining(source, Some(start), q))
  {
    AheadInOrder(source, start.page, start.offset, q);
    KeptInOrder(Ahead(source, start.page, start.offset, q), q);
  }

  // ----- why a call stops -----

  /** The last page that `n` pages from `start` reach. */
  function LastRead(start: Cursor, n: nat): nat
    requires n > 0
  {
    start.page + n - 1
  }

  /** A call stops only for its reason, and goes on only while there is reason to. */
  ghost predicate StopOk(source: Source, start: Cursor, limit: nat, w: Weather, p: Progress) {
    match p.stop
    case Going => p.n > 0 ==> |p.accepted| < limit && p.n < 8 && LastRead(start, p.n) < 100 && source(LastRead(start, p.n)).hasMore
    case Interrupted => exists k: nat :: w.interrupted(k)
    case ProviderError => w.fails(p.n)
    case TargetReached => p.n > 0 && |p.accepted| >= limit
    case SourceExhausted => p.n > 0 && |p.accepted| < limit && !source(LastRead(start, p.n)).hasMore
    case PageLimit => p.n > 0 && |p.accepted| < limit && source(LastRead(start, p.n)).hasMore && (p.n == 8 || LastRead(start, p.n) >= 100)
  }

  lemma TurnStops(source: Source, q: Query, start: Cursor, limit: nat, w: Weather, p: Progress)
    requires p.stop.Going? && p.n < 8
    ensures StopOk(source, start, limit, w, Turn(source, q, start, limit, w, p))
    ensures var next := Turn(source, q, start, limit, w, p);
            next.n <= p.n + 1 && (next.n == p.n ==> !next.stop.Going?) && (Fair(w) ==> next.n == p.n + 1)
  {
  }

  lemma {:induction false} RanStops(source: Source, q: Query, start: Cursor, limit: nat, w: Weather, p: Progress)
    requires StopOk(source, start, limit, w, p) && p.n <= 8 && (p.stop.Going? ==> p.n < 8)
    ensures var p' := Ran(source, q, start, limit, w, p); StopOk(source, start, limit, w, p') && !p'.stop.Going?
    decreases 8 - p.n, if p.stop.Going? then 1 else 0
  {
    if p.stop.Going? {
      TurnStops(source, q, start, limit, w, p);
      RanStops(source, q, start, limit, w, Turn(source, q, start, limit, w, p));
    }
  }

  /**
   * A call stops because something interrupted it, because the page it would read
   * next failed, because it has all that was asked for, because the source has no
   * more, or because it has read eight pages or the hundredth.
   */
  ghost predicate StopsFor(source: Source, start: Cursor, limit: nat, w: Weather, b: Batch) {
    match b.stop
    case Going => false
    case Interrupted => exists k: nat :: w.interrupted(k)
    case ProviderError => w.fails(b.pagesRead)
    case TargetReached => b.pagesRead > 0 && |b.items| == limit
    case SourceExhausted => b.pagesRead > 0 && |b.items| < limit && !source(LastRead(start, b.pagesRead)).hasMore && b.next.None?
    case PageLimit => && b.pagesRead > 0 && |b.items| < limit && source(LastRead(start, b.pagesRead)).hasMore
                      && (b.pagesRead == 8 || LastRead(start, b.pagesRead) >= 100)
  }

  lemma StopMeans(source: Source, q: Query, start: Cursor, limit: nat, w: Weather)
    ensures StopsFor(source, start, limit, w, Collected(source, q, start, limit, w))
  {
    StopEnd(source, q, start, limit, w, Begun(w));
  }

  lemma StopEnd(source: Source, q: Query, start: Cursor, limit: nat, w: Weather, p: Progress)
    requires StopOk(source, start, limit, w, p) && p.n <= 8 && (p.stop.Going? ==> p.n < 8)
    ensures StopsFor(source, start, limit, w, Concluded(source, start, limit, Ran(source, q, start, limit, w, p)))
  {
    RanStops(source, q, start, limit, w, p);
    StopConcluded(source, start, limit, w, Ran(source, q, start, limit, w, p));
  }

  lemma StopConcluded(source: Source, start: Cursor, limit: nat, w: Weather, p: Progress)
    requires StopOk(source, start, limit, w, p) && !p.stop.Going?
    ensures StopsFor(source, start, limit, w, Concluded(source, start, limit, p))
  {
  }

  // ----- interruptions -----

  /** From check `k` on every check says that the call is interrupted. */
  ghost predicate InterruptedFrom(w: Weather, k: nat) {
    forall n: nat :: n >= k ==> w.interrupted(n)
  }

  /** Three checks are made for each page, and none so far said stop; or the call has stopped in time. */
  ghost predicate InTime(k: nat, p: Progress) {
    match p.stop
    case Going => 3 * p.n < p.checks <= k
    case Interrupted => p.n > 0 ==> 3 * p.n - 2 < k
    case ProviderError => 3 * p.n + 2 < k
    case _ => 3 * p.n < k
  }

  lemma TurnInTime(source: Source, q: Query, start: Cursor, limit: nat, w: Weather, k: nat, p: Progress)
    requires InterruptedFrom(w, k) && p.stop.Going? && InTime(k, p)
    ensures InTime(k, Turn(source, q, start, limit, w, p))
  {
    var (before, early, asked, late) := (p.checks, p.checks + 1, p.checks + 2, p.checks + 3);
    assert before >= k ==> w.interrupted(before);
    assert early >= k ==> w.interrupted(early);
    assert asked >= k ==> w.interrupted(asked);
    assert late >= k ==> w.interrupted(late);
  }

  lemma {:induction false} RanInTime(source: Source, q: Query, start: Cursor, limit: nat, w: Weather, k: nat, p: Progress)
    requires InterruptedFrom(w, k) && InTime(k, p) && (p.stop.Going? ==> p.n < 8)
    ensures InTime(k, Ran(source, q, start, limit, w, p)) && !Ran(source, q, start, limit, w, p).stop.Going?
    decreases 8 - p.n, if p.stop.Going? then 1 else 0
  {
    if p.stop.Going? {
      TurnInTime(source, q, start, limit, w, k, p);
      TurnStops(source, q, start, limit, w, p);
      RanInTime(source, q, start, limit, w, k, Turn(source, q, start, limit, w, p));
    }
  }

  /** The batch of a call that is interrupted from check `k` on. */
  ghost predicate StopsInTime(k: nat, b: Batch) {
    match b.stop
    case Going => false
    case Interrupted => b.pagesRead > 0 ==> 3 * b.pagesRead - 2 < k
    case ProviderError => 3 * b.pagesRead + 2 < k
    case _ => 3 * b.pagesRead < k
  }

  /**
   * An interruption is heeded before a page is read, after it was read, and
   * before it is given as the reason that a page failed: a call that is
   * interrupted from check `k` on reads at most one page for each three checks
   * before that, and if it stops for another reason it had made all its checks before.
   */
  lemma InterruptedInTime(source: Source, q: Query, start: Cursor, limit: nat, w: Weather, k: nat)
    requires InterruptedFrom(w, k)
    ensures StopsInTime(k, Collected(source, q, start, limit, w))
  {
    var first: nat := 0;
    assert first >= k ==> w.interrupted(first);
    TimelyEnd(source, q, start, limit, w, k, Begun(w));
  }

  lemma TimelyEnd(source: Source, q: Query, start: Cursor, limit: nat, w: Weather, k: nat, p: Progress)
    requires InterruptedFrom(w, k) && InTime(k, p) && (p.stop.Going? ==> p.n < 8)
    ensures StopsInTime(k, Concluded(source, start, limit, Ran(source, q, start, limit, w, p)))
  {
    RanInTime(source, q, start, limit, w, k, p);
  }

  // ----- fine weather -----

  /** In fine weather a call has accepted all that it could. */
  ghost predicate FairOk(source: Source, q: Query, start: Cursor, limit: nat, w: Weather, p: Progress) {
    && ProgressOk(source, q, start, w, p) && p.accepted == Kept(p.cards, q)
    && (p.n >= 2 ==> |Kept(Read(source, start.page, start.offset, p.n - 1, q), q)| < limit)
    && (p.n >= 1 && p.stop.Going? ==> |p.accepted| < limit)
  }

  lemma AcceptedAll(cards: seq<Found>, q: Query, w: Weather, library: Option<bool>, stop: Stop)
    requires Fair(w) && AskedOk(q, w, cards, library, stop) && !stop.Interrupted?
    ensures Accepted(cards, q, library) == Kept(cards, q)
  {
    if !Answered(q, library) {
      KeptNone(cards, q);
    }
  }

  lemma FairTurn(source: Source, q: Query, start: Cursor, limit: nat, w: Weather, p: Progress)
    requires Fair(w) && NoRepeats(source, q.kind) && FairOk(source, q, start, limit, w, p) && p.stop.Going?
    ensures FairOk(source, q, start, limit, w, Turn(source, q, start, limit, w, p))
  {
    TurnOk(source, q, start, limit, w, p);
    TurnStops(source, q, start, limit, w, p);
    assert p.cards == Read(source, start.page, start.offset, p.n, q);
    FairNext(source, q, start, limit, w, p, Turn(source, q, start, limit, w, p));
  }

  lemma FairNext(source: Source, q: Query, start: Cursor, limit: nat, w: Weather, p: Progress, next: Progress)
    requires Fair(w) && FairOk(source, q, start, limit, w, p) && p.stop.Going? && p.cards == Read(source, start.page, start.offset, p.n, q)
    requires ProgressOk(source, q, start, w, next) && StopOk(source, start, limit, w, next) && next.n == p.n + 1
    ensures FairOk(source, q, start, limit, w, next)
  {
    AcceptedAll(next.cards, q, w, next.library, next.stop);
  }

  lemma {:induction false} FairRan(source: Source, q: Query, start: Cursor, limit: nat, w: Weather, p: Progress)
    requires Fair(w) && NoRepeats(source, q.kind) && FairOk(source, q, start, limit, w, p)
    ensures FairOk(source, q, start, limit, w, Ran(source, q, start, limit, w, p))
    decreases MAX_PAGES - p.n, if p.stop.Going? then 1 else 0
  {
    if p.stop.Going? {
      FairTurn(source, q, start, limit, w, p);
      FairRan(source, q, start, limit, w, Turn(source, q, start, limit, w, p));
    }
  }

  /**
   * The batch is all there is on the pages it took, up to the limit, and it took
   * no page more than needed for that.
   */
  ghost predicate Economical(source: Source, q: Query, start: Cursor, limit: nat, b: Batch) {
    var wanted := Acceptable(source, q, start, b);
    && b.items == (if |wanted| <= limit then wanted else wanted[..limit])
    && (b.pagesRead >= 2 ==> |Kept(Read(source, start.page, start.offset, b.pagesRead - 1, q), q)| < limit)
  }

  /** What a call returns in fine weather. */
  lemma FairBatch(source: Source, q: Query, start: Cursor, limit: nat, w: Weather)
    requires Fair(w) && NoRepeats(source, q.kind)
    ensures Economical(source, q, start, limit, Collected(source, q, start, limit, w))
  {
    BegunOk(source, q, start, w);
    FairEnd(source, q, start, limit, w, Begun(w));
  }

  lemma FairEnd(source: Source, q: Query, start: Cursor, limit: nat, w: Weather, p: Progress)
    requires Fair(w) && NoRepeats(source, q.kind) && FairOk(source, q, start, limit, w, p)
    ensures Economical(source, q, start, limit, Concluded(source, start, limit, Ran(source, q, start, limit, w, p)))
  {
    FairRan(source, q, start, limit, w, p);
    FairConcluded(source, q, start, limit, w, Ran(source, q, start, limit, w, p));
  }

  lemma FairConcluded(source: Source, q: Query, start: Cursor, limit: nat, w: Weather, p: Progress)
    requires Fair(w) && NoRepeats(source, q.kind) && FairOk(source, q, start, limit, w, p)
    ensures Economical(source, q, start, limit, Concluded(source, start, limit, p))
  {
  }
}
