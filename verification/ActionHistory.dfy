/**
 * Retention of the agent action history in app/database.py: after every write
 * the writing owner is cut to its own limit, and when the whole table is too
 * large it is cut round by round, the newest rows of every owner first.
 */
module ActionHistory {
  import opened Basics

  const PER_OWNER: nat := 2000
  const GLOBAL: nat := 20_000

  /** Row id to owner. */
  type Rows = map<nat, string>

  /** Rows of the same owner that are no older: `ROW_NUMBER() OVER (PARTITION BY owner ORDER BY id DESC)` is their number. */
  function NoOlder(rows: Rows, id: nat): set<nat>
    requires id in rows
  {
    set j | j in rows && rows[j] == rows[id] && j >= id
  }

  function Rank(rows: Rows, id: nat): nat
    requires id in rows
  {
    |NoOlder(rows, id)|
  }

  function OwnedBy(rows: Rows, owner: string): set<nat> {
    set id | id in rows && rows[id] == owner
  }

  /** `ORDER BY owner_rank ASC, id DESC` */
  predicate Before(rows: Rows, a: nat, b: nat)
    requires a in rows && b in rows
  {
    Rank(rows, a) < Rank(rows, b) || (Rank(rows, a) == Rank(rows, b) && a > b)
  }

  function Candidates(rows: Rows, perOwner: nat): set<nat> {
    set id | id in rows && Rank(rows, id) <= perOwner
  }

  /** The first `limit` candidates in that order. */
  ghost predicate Selects(rows: Rows, perOwner: nat, limit: nat, kept: set<nat>) {
    && kept <= Candidates(rows, perOwner)
    && |kept| == (if |Candidates(rows, perOwner)| <= limit then |Candidates(rows, perOwner)| else limit)
    && forall a, b :: a in Candidates(rows, perOwner) && b in kept && Before(rows, a, b) ==> a in kept
  }

  function TrimOwner(rows: Rows, owner: string, perOwner: nat): Rows {
    map id | id in rows && (rows[id] != owner || Rank(rows, id) <= perOwner) :: rows[id]
  }

  function Keep(rows: Rows, kept: set<nat>): Rows {
    map id | id in rows && id in kept :: rows[id]
  }

  /** A table over the limit is cut to a selection; any other stays. */
  ghost predicate IsCut(rows: Rows, perOwner: nat, limit: nat, kept: set<nat>, rows': Rows) {
    if |rows| > limit then Selects(rows, perOwner, limit, kept) && rows' == Keep(rows, kept) else rows' == rows
  }

  /** Younger rows of the same owner. */
  function Newer(rows: Rows, id: nat): set<nat>
    requires id in rows
  {
    set j | j in rows && rows[j] == rows[id] && j > id
  }

  /** Row `a` goes before row `b`: it has fewer younger rows of its owner, or as many and is younger. */
  predicate Outlives(rows: Rows, a: nat, b: nat)
    requires a in rows && b in rows
  {
    |Newer(rows, a)| < |Newer(rows, b)| || (|Newer(rows, a)| == |Newer(rows, b)| && a > b)
  }

  /**
   * What is left after a write: rows as they were, at most 20000, of the writing
   * owner, and after a cut of the table of every owner, only its newest 2000. A row is lost only if its owner has 2000 younger
   * ones, or if the table is full of rows that go before it.
   */
  ghost predicate KeepsNewest(rows: Rows, owner: string, rows': Rows) {
    && |rows'| <= 20_000
    && (forall x :: x in rows' ==> KeptFairly(rows, owner, rows', x))
    && (forall x :: x in rows && x !in rows' ==> LostFairly(rows, owner, rows', x))
  }

  /** Somebody else than the writing owner lost a row: the whole table was cut. */
  ghost predicate TableCut(rows: Rows, owner: string, rows': Rows) {
    exists y :: y in rows && y !in rows' && rows[y] != owner
  }

  ghost predicate KeptFairly(rows: Rows, owner: string, rows': Rows, x: nat)
    requires x in rows'
  {
    x in rows && rows'[x] == rows[x] && (rows[x] == owner || TableCut(rows, owner, rows') ==> |Newer(rows, x)| < 2000)
  }

  predicate LostFairly(rows: Rows, owner: string, rows': Rows, x: nat)
    requires x in rows
  {
    && (|Newer(rows, x)| >= 2000 || (|rows'| == 20_000 && forall y :: y in rows' ==> y in rows && Outlives(rows, y, x)))
    && (rows[x] == owner || |rows| > 20_000)
  }

  class History {
    var rows: Rows
    var nextId: nat

    constructor ()
      ensures rows == map[] && nextId == 1
    {
      rows, nextId := map[], 1;
    }

    ghost predicate Valid()
      reads this
    {
      nextId >= 1 && forall id :: id in rows ==> id < nextId
    }

    /** `SELECT id ... ORDER BY owner_rank ASC, id DESC LIMIT limit`. */
    method Select(perOwner: nat, limit: nat) returns (kept: set<nat>)
      ensures Selects(rows, perOwner, limit, kept)
    {
      var all := Candidates(rows, perOwner);
      var left := all;
      kept := {};
      while left != {} && |kept| < limit
        invariant left !! kept && left + kept == all && |kept| <= limit
        invariant forall a, b :: a in left && b in kept ==> Before(rows, b, a)
        decreases left
      {
        var best := First(left);
        left := left - {best};
        kept := kept + {best};
      }
      if left != {} {
        assert |all| == |left| + |kept|;
      } else {
        assert kept == all;
      }
    }

    method First(left: set<nat>) returns (best: nat)
      requires left != {} && left <= rows.Keys
      ensures best in left && forall a :: a in left && a != best ==> Before(rows, best, a)
    {
      best :| best in left;
      var rest := left - {best};
      while rest != {}
        invariant rest <= left && best in left && best !in rest
        invariant forall a :: a in left - rest && a != best ==> Before(rows, best, a)
        decreases rest
      {
        var a :| a in rest;
        rest := rest - {a};
        BeforeTotal(rows, a, best);
        if Before(rows, a, best) {
          forall c | c in left - rest && c != a && c != best ensures Before(rows, a, c) {
            BeforeTransitive(rows, a, best, c);
          }
          best := a;
        }
      }
    }

    /**
     * Updates the row of the confirmation, if it has one, else inserts a row (or,
     * for a late final status, does nothing), and applies both limits. `confirmed`
     * says that a confirmation id is given; a final status without one is an
     * error, and `id` is None.
     */
    method Add(owner: string, confirmed: bool, existing: Option<nat>, finalizeOnly: bool) returns (id: Option<nat>, ghost kept: set<nat>)
      requires Valid() && (existing.Some? ==> confirmed && existing.value in rows)
      modifies this
      ensures Valid() && (id.None? <==> finalizeOnly && !confirmed)
      ensures existing.None? && finalizeOnly ==> rows == old(rows) && (id.Some? ==> id.value == 0)
      ensures existing.Some? || !finalizeOnly ==>
                && id == Some(if existing.Some? then existing.value else old(nextId))
                && IsCut(TrimOwner(old(rows)[id.value := owner], owner, PER_OWNER), PER_OWNER, GLOBAL, kept, rows)
                && KeepsNewest(old(rows)[id.value := owner], owner, rows) && |OwnedBy(rows, owner)| <= 2000
      ensures existing.None? && !finalizeOnly ==> id.value in rows && rows[id.value] == owner
    {
      if finalizeOnly && !confirmed {
        return None, {};
      }
      if existing.None? && finalizeOnly {
        return Some(0), {};
      }
      var row;
      row, kept := Put(owner, existing);
      id := Some(row);
    }

    method Put(owner: string, existing: Option<nat>) returns (id: nat, ghost kept: set<nat>)
      requires Valid() && (existing.Some? ==> existing.value in rows)
      modifies this
      ensures Valid() && id == (if existing.Some? then existing.value else old(nextId))
      ensures IsCut(TrimOwner(old(rows)[id := owner], owner, PER_OWNER), PER_OWNER, GLOBAL, kept, rows)
      ensures KeepsNewest(old(rows)[id := owner], owner, rows) && |OwnedBy(rows, owner)| <= 2000
      ensures existing.None? ==> id in rows && rows[id] == owner
    {
      kept := {};
      if existing.Some? {
        id := existing.value;
      } else {
        id := nextId;
        nextId := nextId + 1;
      }
      rows := rows[id := owner];
      ghost var inserted := rows;
      rows := TrimOwner(rows, owner, PER_OWNER);
      TrimmedOwner(inserted, owner, PER_OWNER);
      if existing.None? {
        NewestRank(inserted, id);
      }
      if |rows| > GLOBAL {
        var chosen := Select(PER_OWNER, GLOBAL);
        kept := chosen;
        if existing.None? {
          NewestKept(rows, PER_OWNER, GLOBAL, kept, id);
        }
        ghost var trimmed := rows;
        rows := Keep(rows, chosen);
        assert rows.Keys == kept;
        SubsetCard(OwnedBy(rows, owner), OwnedBy(trimmed, owner));
      }
      CutMeans(inserted, owner, kept, rows);
    }
  }

  lemma RankIs(rows: Rows, id: nat)
    requires id in rows
    ensures Rank(rows, id) == |Newer(rows, id)| + 1
  {
    assert NoOlder(rows, id) == Newer(rows, id) + {id};
  }

  /** The owner's own cut changes no rank of what it leaves. */
  lemma TrimmedRank(rows: Rows, owner: string, perOwner: nat, id: nat)
    requires id in TrimOwner(rows, owner, perOwner)
    ensures Rank(TrimOwner(rows, owner, perOwner), id) == Rank(rows, id)
  {
    var trimmed := TrimOwner(rows, owner, perOwner);
    forall j | j in NoOlder(rows, id) ensures j in NoOlder(trimmed, id) {
      if j > id {
        NewestRunTrimmed(rows, owner, perOwner, j, id);
      }
    }
    assert NoOlder(trimmed, id) == NoOlder(rows, id);
  }

  lemma CutMeans(rows: Rows, owner: string, kept: set<nat>, rows': Rows)
    requires IsCut(TrimOwner(rows, owner, PER_OWNER), PER_OWNER, GLOBAL, kept, rows')
    ensures KeepsNewest(rows, owner, rows')
  {
    var trimmed := TrimOwner(rows, owner, PER_OWNER);
    SubsetCard(trimmed.Keys, rows.Keys);
    if |trimmed| > GLOBAL {
      assert rows'.Keys == kept;
    }
    forall x | x in rows' ensures KeptFairly(rows, owner, rows', x) {
      RankIs(rows, x);
      TrimmedRank(rows, owner, PER_OWNER, x);
    }
    forall x | x in rows && x !in rows' ensures LostFairly(rows, owner, rows', x) {
      RankIs(rows, x);
      if x in trimmed {
        LostToCut(rows, owner, kept, rows', x);
      }
    }
  }

  lemma LostToCut(rows: Rows, owner: string, kept: set<nat>, rows': Rows, x: nat)
    requires IsCut(TrimOwner(rows, owner, PER_OWNER), PER_OWNER, GLOBAL, kept, rows')
    requires x in TrimOwner(rows, owner, PER_OWNER) && x !in rows'
    ensures LostFairly(rows, owner, rows', x)
  {
    var trimmed := TrimOwner(rows, owner, PER_OWNER);
    assert rows'.Keys == kept;
    SubsetCard(trimmed.Keys, rows.Keys);
    RankIs(rows, x);
    TrimmedRank(rows, owner, PER_OWNER, x);
    if x in Candidates(trimmed, PER_OWNER) {
      SubsetCard(kept + {x}, Candidates(trimmed, PER_OWNER));
      forall y | y in rows' ensures y in rows && Outlives(rows, y, x) {
        RankIs(rows, y);
        TrimmedRank(rows, owner, PER_OWNER, y);
        BeforeTotal(trimmed, x, y);
      }
    }
  }

  // ----- ranks -----

  /** The newest row has rank one. */
  lemma NewestRank(rows: Rows, id: nat)
    requires id in rows && forall j :: j in rows ==> j <= id
    ensures Rank(rows, id) == 1
  {
    assert NoOlder(rows, id) == {id};
  }

  /** Within an owner, older rows have larger ranks. */
  lemma OlderRank(rows: Rows, a: nat, b: nat)
    requires a in rows && b in rows && rows[a] == rows[b] && a > b
    ensures Rank(rows, a) < Rank(rows, b)
  {
    assert NoOlder(rows, a) + {b} <= NoOlder(rows, b) && b !in NoOlder(rows, a);
    SubsetCard(NoOlder(rows, a) + {b}, NoOlder(rows, b));
  }

  /** A set of rows of one owner is no larger than the rank of each of its oldest members. */
  lemma {:induction false} OldestRank(rows: Rows, owner: string, ids: set<nat>) returns (oldest: nat)
    requires ids != {} && ids <= OwnedBy(rows, owner)
    ensures oldest in ids && |ids| <= Rank(rows, oldest)
    ensures forall j :: j in ids ==> oldest <= j
  {
    oldest := Minimum(ids);
    SubsetCard(ids, NoOlder(rows, oldest));
  }

  lemma {:induction false} Minimum(ids: set<nat>) returns (m: nat)
    requires ids != {}
    ensures m in ids && forall j :: j in ids ==> m <= j
  {
    var x :| x in ids;
    if ids == {x} {
      m := x;
    } else {
      assert forall j :: j in ids ==> j == x || j in ids - {x};
      assert ids - {x} != {};
      var rest := Minimum(ids - {x});
      m := if x < rest then x else rest;
    }
  }

  lemma {:induction false} Maximum(ids: set<nat>) returns (m: nat)
    requires ids != {}
    ensures m in ids && forall j :: j in ids ==> j <= m
  {
    var x :| x in ids;
    if ids == {x} {
      m := x;
    } else {
      assert forall j :: j in ids ==> j == x || j in ids - {x};
      assert ids - {x} != {};
      var rest := Maximum(ids - {x});
      m := if x > rest then x else rest;
    }
  }

  /** After the owner's own cut it has at most its limit. */
  lemma TrimmedOwner(rows: Rows, owner: string, perOwner: nat)
    ensures |OwnedBy(TrimOwner(rows, owner, perOwner), owner)| <= perOwner
  {
    var left := OwnedBy(TrimOwner(rows, owner, perOwner), owner);
    if left != {} {
      var oldest := OldestRank(rows, owner, left);
    }
  }

  /** The newest row of all is the first selected, so the row just written survives. */
  lemma NewestKept(rows: Rows, perOwner: nat, limit: nat, kept: set<nat>, id: nat)
    requires Selects(rows, perOwner, limit, kept) && perOwner >= 1 && limit >= 1
    requires id in rows && forall j :: j in rows ==> j <= id
    ensures id in kept
  {
    NewestRank(rows, id);
    assert id in Candidates(rows, perOwner);
    SubsetCard({id}, Candidates(rows, perOwner));
    assert kept != {};
    var b :| b in kept;
    SubsetCard({b}, NoOlder(rows, b));
    assert b != id ==> Before(rows, id, b);
  }

  // ----- fairness -----

  /** What an owner keeps is a contiguous run of its newest rows. */
  lemma NewestRunKept(rows: Rows, perOwner: nat, limit: nat, kept: set<nat>, newer: nat, older: nat)
    requires Selects(rows, perOwner, limit, kept)
    requires newer in rows && older in kept && rows[newer] == rows[older] && newer > older
    ensures newer in kept
  {
    OlderRank(rows, newer, older);
  }

  /** The same of the owner's own cut. */
  lemma NewestRunTrimmed(rows: Rows, owner: string, perOwner: nat, newer: nat, older: nat)
    requires newer in rows && older in TrimOwner(rows, owner, perOwner) && rows[newer] == rows[older] && newer > older
    ensures newer in TrimOwner(rows, owner, perOwner)
  {
    OlderRank(rows, newer, older);
  }

  /** The newest row an owner loses ranks just behind the rows it keeps. */
  lemma NewestLost(rows: Rows, perOwner: nat, limit: nat, kept: set<nat>, owner: string) returns (lost: nat)
    requires Selects(rows, perOwner, limit, kept) && !(OwnedBy(rows, owner) <= kept)
    ensures lost in rows && rows[lost] == owner && lost !in kept
    ensures Rank(rows, lost) == |OwnedBy(rows, owner) * kept| + 1
  {
    var mine := OwnedBy(rows, owner);
    var gone :| gone in mine && gone !in kept;
    assert gone in mine - kept;
    lost := Maximum(mine - kept);
    forall j | j in mine * kept ensures j in NoOlder(rows, lost) {
      if j < lost {
        NewestRunKept(rows, perOwner, limit, kept, lost, j);
      }
    }
    forall j | j in NoOlder(rows, lost) ensures j in mine * kept + {lost} {
      assert j in mine;
      assert j in mine - kept ==> j <= lost;
    }
    assert NoOlder(rows, lost) == mine * kept + {lost};
  }

  /**
   * Fairness of the global cut: an owner that lost a row keeps at most one row
   * fewer than any other owner keeps.
   */
  lemma CutIsFair(rows: Rows, perOwner: nat, limit: nat, kept: set<nat>, loser: string, other: string)
    requires Selects(rows, perOwner, limit, kept) && !(OwnedBy(rows, loser) <= kept)
    ensures |OwnedBy(rows, other) * kept| <= |OwnedBy(rows, loser) * kept| + 1
  {
    var lost := NewestLost(rows, perOwner, limit, kept, loser);
    var theirs := OwnedBy(rows, other) * kept;
    if theirs != {} {
      var oldest := OldestRank(rows, other, theirs);
      if lost in Candidates(rows, perOwner) {
        assert !Before(rows, lost, oldest);
      }
    }
  }

  /** The selection is unique: the loop and the query agree. */
  lemma SelectionUnique(rows: Rows, perOwner: nat, limit: nat, a: set<nat>, b: set<nat>)
    requires Selects(rows, perOwner, limit, a) && Selects(rows, perOwner, limit, b)
    ensures a == b
  {
    if x :| x in a && x !in b {
      forall y | y in b ensures y in a {
        if y !in a {
          BeforeTotal(rows, x, y);
        }
      }
      SubsetCard(b + {x}, a);
    } else if y :| y in b && y !in a {
      SubsetCard(a + {y}, b);
    }
  }

  lemma BeforeTransitive(rows: Rows, a: nat, b: nat, c: nat)
    requires a in rows && b in rows && c in rows && Before(rows, a, b) && Before(rows, b, c)
    ensures Before(rows, a, c)
  {
  }

  lemma BeforeTotal(rows: Rows, a: nat, b: nat)
    requires a in rows && b in rows && a != b
    ensures Before(rows, a, b) || Before(rows, b, a)
  {
  }
}
