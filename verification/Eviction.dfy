/**
 * Capacity eviction: "while over the limit, drop the oldest removable entry".
 * The in-memory structures of the application do this with a loop, the SQLite
 * ones with `DELETE ... ORDER BY age LIMIT n`; both meet `OldestRemoved`.
 */
module Eviction {

  function Min(a: int, b: int): int {
    if a <= b then a else b
  }

  /** `gone` is what dropping the oldest removable key, `n` times, may take out. */
  ghost predicate OldestRemoved(age: map<string, real>, removable: set<string>, n: int, gone: set<string>) {
    && gone <= removable <= age.Keys
    && |gone| == (if n <= 0 then 0 else Min(n, |removable|))
    && forall g, k {:trigger age[g], age[k]} :: g in gone && k in removable && k !in gone ==> age[g] <= age[k]
  }

  ghost predicate DistinctAges(age: map<string, real>, keys: set<string>)
    requires keys <= age.Keys
  {
    forall a, b {:trigger age[a], age[b]} :: a in keys && b in keys && age[a] == age[b] ==> a == b
  }

  /** The key `min(candidates, key=age)` returns (any of the oldest on a tie). */
  method Oldest(age: map<string, real>, candidates: set<string>) returns (oldest: string)
    requires candidates != {} && candidates <= age.Keys
    ensures oldest in candidates
    ensures forall k :: k in candidates ==> age[oldest] <= age[k]
  {
    oldest :| oldest in candidates;
    var rest := candidates - {oldest};
    while rest != {}
      invariant rest <= candidates && oldest in candidates
      invariant forall k :: k in candidates && k !in rest ==> age[oldest] <= age[k]
      decreases rest
    {
      var k :| k in rest;
      if age[k] < age[oldest] {
        oldest := k;
      }
      rest := rest - {k};
    }
  }

  /** `DELETE ... ORDER BY age ASC LIMIT n` over the removable rows. */
  method DeleteOldest(age: map<string, real>, removable: set<string>, n: int) returns (gone: set<string>)
    requires removable <= age.Keys
    ensures OldestRemoved(age, removable, n, gone)
  {
    gone := {};
    while |gone| < n && gone != removable
      invariant gone <= removable
      invariant OldestRemoved(age, removable, |gone|, gone)
      invariant 0 < |gone| ==> |gone| <= n
      decreases removable - gone
    {
      var oldest := Oldest(age, removable - gone);
      PopOldest(age, removable, |gone|, gone, oldest);
      gone := gone + {oldest};
    }
    Saturated(removable, gone, n);
  }

  lemma Saturated(removable: set<string>, gone: set<string>, n: int)
    requires gone <= removable
    requires |gone| >= n || gone == removable
    requires 0 < |gone| ==> |gone| <= n
    ensures |gone| == (if n <= 0 then 0 else Min(n, |removable|))
  {
    Fewer(gone, removable);
  }

  /** Only the count of an eviction depends on `n`. */
  lemma Recount(age: map<string, real>, removable: set<string>, n: int, gone: set<string>)
    requires OldestRemoved(age, removable, |gone|, gone)
    requires |gone| == (if n <= 0 then 0 else Min(n, |removable|))
    ensures OldestRemoved(age, removable, n, gone)
  {
  }

  lemma Fewer<T>(a: set<T>, b: set<T>)
    requires a <= b
    ensures |b - a| == |b| - |a|
    ensures |a| == |b| ==> a == b
  {
    assert b == a + (b - a);
    if |a| == |b| {
      assert |b - a| == 0;
    }
  }

  /** One more turn of the eviction loop. */
  lemma PopOldest(age: map<string, real>, removable: set<string>, n: nat, gone: set<string>, k: string)
    requires OldestRemoved(age, removable, n, gone)
    requires k in removable && k !in gone
    requires forall o :: o in removable && o !in gone ==> age[k] <= age[o]
    ensures OldestRemoved(age, removable, n + 1, gone + {k})
  {
    Fewer(gone, removable);
    assert |removable - gone| >= 1 by {
      assert k in removable - gone;
    }
    Fewer(gone + {k}, removable);
  }

  /** With distinct ages the loop has only one possible outcome. */
  lemma OldestUnique(age: map<string, real>, removable: set<string>, n: int, a: set<string>, b: set<string>)
    requires OldestRemoved(age, removable, n, a) && OldestRemoved(age, removable, n, b)
    requires DistinctAges(age, removable)
    ensures a == b
  {
    forall x | x in a ensures x in b {
      if x !in b {
        var y := OneBack(a, b, x);
      }
    }
    Fewer(a, b);
  }

  /** Two sets of one size: what only `a` holds is matched by something only `b` holds. */
  lemma OneBack(a: set<string>, b: set<string>, x: string) returns (y: string)
    requires |a| == |b| && x in a && x !in b
    ensures y in b && y !in a
  {
    Fewer(a * b, a);
    Fewer(a * b, b);
    assert x in a - (a * b);
    assert b - (a * b) != {};
    y :| y in b - (a * b);
  }

  /**
   * Eviction of the keys in `live` does not depend on the residue: when every
   * residual key is older than every live one and the surplus is counted over
   * both, the live keys that go are those an eviction over `live` alone takes.
   */
  lemma ResidueIrrelevant(age: map<string, real>, live: set<string>, residue: set<string>, surplus: int, gone: set<string>)
    requires live !! residue && live + residue <= age.Keys
    requires forall r, l {:trigger age[r], age[l]} :: r in residue && l in live ==> age[r] < age[l]
    requires OldestRemoved(age, live + residue, |live + residue| + surplus, gone)
    ensures OldestRemoved(age, live, |live| + surplus, gone * live)
  {
    var n := |live + residue| + surplus;
    assert |live + residue| == |live| + |residue|;
    assert gone == (gone * live) + (gone * residue);
    assert |gone| == |gone * live| + |gone * residue|;
    Fewer(gone * residue, residue);
    Fewer(gone * live, live);
    if !(residue <= gone) {
      var e :| e in residue && e !in gone;
      assert forall l :: l in live ==> l !in gone;
      assert gone * live == {};
      assert |gone| < |residue|;
    } else {
      assert gone * residue == residue;
    }
  }
}
