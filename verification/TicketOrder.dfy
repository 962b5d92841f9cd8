/**
 * The order in which active tickets are listed: by expiry, and by id where the
 * expiry is the same.
 */
module TicketOrder {
  import opened ConfirmationTickets

  /** Strings compare by their first different character. */
  predicate Less(a: string, b: string) {
    b != "" && (a == "" || a[0] < b[0] || (a[0] == b[0] && Less(a[1..], b[1..])))
  }

  lemma {:induction false} LessTotal(a: string, b: string)
    ensures if a == b then !Less(a, b) else Less(a, b) <==> !Less(b, a)
  {
    if a != "" && b != "" && a[0] == b[0] {
      LessTotal(a[1..], b[1..]);
      assert a == [a[0]] + a[1..] && b == [b[0]] + b[1..];
    }
  }

  lemma {:induction false} LessTransitive(a: string, b: string, c: string)
    requires Less(a, b) && Less(b, c)
    ensures Less(a, c)
  {
    if a != "" && a[0] == b[0] == c[0] {
      LessTransitive(a[1..], b[1..], c[1..]);
    }
  }

  /** Ticket `a` is listed before ticket `b`. */
  predicate Earlier(tickets: map<string, Ticket>, a: string, b: string) {
    && a in tickets && b in tickets
    && (tickets[a].expiresAt < tickets[b].expiresAt || (tickets[a].expiresAt == tickets[b].expiresAt && Less(a, b)))
  }

  lemma EarlierTotal(tickets: map<string, Ticket>, a: string, b: string)
    requires a in tickets && b in tickets
    ensures if a == b then !Earlier(tickets, a, b) else Earlier(tickets, a, b) <==> !Earlier(tickets, b, a)
  {
    LessTotal(a, b);
  }

  lemma EarlierTransitive(tickets: map<string, Ticket>, a: string, b: string, c: string)
    requires Earlier(tickets, a, b) && Earlier(tickets, b, c)
    ensures Earlier(tickets, a, c)
  {
    if tickets[a].expiresAt == tickets[b].expiresAt == tickets[c].expiresAt {
      LessTransitive(a, b, c);
    }
  }

  /** The ids of `keys`, each once and in order. */
  ghost predicate Sorted(tickets: map<string, Ticket>, keys: set<string>, ids: seq<string>) {
    && (forall id :: id in ids <==> id in keys)
    && forall i, j :: 0 <= i < j < |ids| ==> Earlier(tickets, ids[i], ids[j])
  }

  /** The list of all tickets. */
  ghost predicate Lists(tickets: map<string, Ticket>, ids: seq<string>) {
    Sorted(tickets, tickets.Keys, ids)
  }

  method Earliest(tickets: map<string, Ticket>, left: set<string>) returns (first: string)
    requires left != {} && left <= tickets.Keys
    ensures first in left && forall id :: id in left && id != first ==> Earlier(tickets, first, id)
  {
    first :| first in left;
    var rest := left - {first};
    while rest != {}
      invariant rest <= left && first in left && first !in rest
      invariant forall id :: id in left - rest && id != first ==> Earlier(tickets, first, id)
      decreases rest
    {
      var id :| id in rest;
      rest := rest - {id};
      EarlierTotal(tickets, id, first);
      if Earlier(tickets, id, first) {
        forall k | k in left - rest && k != id && k != first ensures Earlier(tickets, id, k) {
          EarlierTransitive(tickets, id, first, k);
        }
        first := id;
      }
    }
  }

  method SortTickets(tickets: map<string, Ticket>) returns (ids: seq<string>)
    ensures Lists(tickets, ids)
  {
    ids := [];
    var left := tickets.Keys;
    while left != {}
      invariant left <= tickets.Keys && Sorted(tickets, tickets.Keys - left, ids)
      invariant forall a, b :: a in ids && b in left ==> Earlier(tickets, a, b)
      decreases left
    {
      var first := Earliest(tickets, left);
      ids := ids + [first];
      left := left - {first};
    }
  }

  /** There is one such list only. */
  lemma {:induction false} ListUnique(tickets: map<string, Ticket>, keys: set<string>, s: seq<string>, t: seq<string>)
    requires Sorted(tickets, keys, s) && Sorted(tickets, keys, t)
    ensures s == t
    decreases |s|
  {
    if s == [] {
      HasFirst(t);
    } else {
      assert s[0] in keys;
      SameFirst(tickets, keys, s, t);
      RestSorted(tickets, keys, s);
      RestSorted(tickets, keys, t);
      ListUnique(tickets, keys - {s[0]}, s[1..], t[1..]);
      assert s == [s[0]] + s[1..] && t == [t[0]] + t[1..];
    }
  }

  lemma HasFirst(s: seq<string>)
    ensures s == [] || exists id :: id in s
  {
    if s != [] {
      assert s[0] in s;
    }
  }

  lemma SameFirst(tickets: map<string, Ticket>, keys: set<string>, s: seq<string>, t: seq<string>)
    requires Sorted(tickets, keys, s) && Sorted(tickets, keys, t) && s != []
    ensures t != [] && s[0] == t[0]
  {
    assert s[0] in keys && s[0] in t && t[0] in s;
    if s[0] != t[0] {
      var i :| 0 <= i < |t| && t[i] == s[0];
      var k :| 0 <= k < |s| && s[k] == t[0];
      EarlierTotal(tickets, s[0], t[0]);
    }
  }

  lemma RestSorted(tickets: map<string, Ticket>, keys: set<string>, s: seq<string>)
    requires Sorted(tickets, keys, s) && s != []
    ensures Sorted(tickets, keys - {s[0]}, s[1..])
  {
    forall id ensures id in s[1..] <==> id in keys - {s[0]} {
      if id in s[1..] {
        var i :| 0 <= i < |s[1..]| && s[1..][i] == id;
        assert Earlier(tickets, s[0], s[i + 1]);
        EarlierTotal(tickets, s[0], s[0]);
      }
      assert s == [s[0]] + s[1..];
    }
  }
}
