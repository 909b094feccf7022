/**
  The two orderings behind the card listing: the primary keys in ascending
  order (a deterministic enumeration of the table) and a stable sort of
  cards by date, most recent first.
 */
module Ordering {
  import opened CardModel

  /** Strictly ascending, hence free of repetitions. */
  predicate Ascending(ks: seq<int>) {
    forall i, j :: 0 <= i < j < |ks| ==> ks[i] < ks[j]
  }

  /** No value occurs twice. */
  predicate Distinct<T(==)>(xs: seq<T>) {
    forall i, j :: 0 <= i < j < |xs| ==> xs[i] != xs[j]
  }

  /** Ids strictly increase along the sequence. */
  predicate IdAscending(xs: seq<Card>) {
    forall i, j :: 0 <= i < j < |xs| ==> xs[i].id < xs[j].id
  }

  /** Among cards of the same date, the smaller id comes first. */
  predicate TiesByAscendingId(xs: seq<Card>) {
    forall i, j :: 0 <= i < j < |xs| && xs[i].date == xs[j].date ==> xs[i].id < xs[j].id
  }

  /** Most recent first: dates never increase along the sequence. */
  predicate DateDescending(xs: seq<Card>) {
    forall i, j :: 0 <= i < j < |xs| ==> xs[i].date >= xs[j].date
  }

  /** In a most-recent-first sequence, of two cards with different dates the
      more recent one comes first. */
  lemma NewerFirst(xs: seq<Card>, i: int, j: int)
    requires DateDescending(xs)
    requires 0 <= i < |xs| && 0 <= j < |xs|
    requires xs[i].date > xs[j].date
    ensures i < j
  {
  }

  lemma {:induction false} MinExists(keys: set<int>)
    requires keys != {}
    ensures exists m :: m in keys && forall k :: k in keys ==> m <= k
  {
    if forall x :: x !in keys {
      assert false;
    }
    var x :| x in keys;
    var others := keys - {x};
    if others == {} {
      forall k | k in keys ensures x <= k {
        assert k !in others;
      }
    } else {
      MinExists(others);
      var m :| m in others && forall k :: k in others ==> m <= k;
      var least := if x < m then x else m;
      forall k | k in keys ensures least <= k {
        if k != x {
          assert k in others;
        }
      }
    }
  }

  /** The least key of a non-empty key set. */
  function MinKey(keys: set<int>): (m: int)
    requires keys != {}
    ensures m in keys
    ensures forall k :: k in keys ==> m <= k
  {
    MinExists(keys);
    var m :| m in keys && forall k :: k in keys ==> m <= k;
    m
  }

  /** The key set enumerated in ascending order. */
  function SortedKeys(keys: set<int>): (ks: seq<int>)
    ensures |ks| == |keys|
    ensures forall i :: 0 <= i < |ks| ==> ks[i] in keys
    ensures forall k :: k in keys ==> k in ks
    ensures Ascending(ks)
    decreases |keys|
  {
    if keys == {} then []
    else
      var m := MinKey(keys);
      var rest := SortedKeys(keys - {m});
      assert forall i :: 0 <= i < |rest| ==> m < rest[i];
      [m] + rest
  }

  /** Puts `c` in front of the first card no more recent than it, so that
      `c` goes before the cards of its own date that are already there. */
  function InsertByDate(c: Card, xs: seq<Card>): (r: seq<Card>)
    requires DateDescending(xs)
    ensures DateDescending(r)
    ensures multiset(r) == multiset(xs) + multiset{c}
    ensures forall y :: y in r <==> y == c || y in xs
  {
    if xs == [] then [c]
    else if c.date >= xs[0].date then [c] + xs
    else
      var rest := InsertByDate(c, xs[1..]);
      assert xs == [xs[0]] + xs[1..];
      assert forall y :: y in rest ==> y.date <= xs[0].date;
      [xs[0]] + rest
  }

  lemma {:induction false} InsertKeepsDistinct(c: Card, xs: seq<Card>)
    requires DateDescending(xs)
    requires Distinct(xs) && c !in xs
    ensures Distinct(InsertByDate(c, xs))
  {
    if xs != [] && c.date < xs[0].date {
      InsertKeepsDistinct(c, xs[1..]);
      var rest := InsertByDate(c, xs[1..]);
      assert xs[0] !in xs[1..];
      assert xs[0] !in rest;
    }
  }

  /** Stable insertion sort by date, most recent first. */
  function SortByDateDesc(xs: seq<Card>): (r: seq<Card>)
    ensures DateDescending(r)
    ensures multiset(r) == multiset(xs)
    ensures forall y :: y in r <==> y in xs
  {
    if xs == [] then []
    else
      assert xs == [xs[0]] + xs[1..];
      InsertByDate(xs[0], SortByDateDesc(xs[1..]))
  }

  lemma {:induction false} SortKeepsDistinct(xs: seq<Card>)
    requires Distinct(xs)
    ensures Distinct(SortByDateDesc(xs))
  {
    if xs != [] {
      SortKeepsDistinct(xs[1..]);
      assert xs[0] !in xs[1..];
      InsertKeepsDistinct(xs[0], SortByDateDesc(xs[1..]));
    }
  }

  lemma {:induction false} InsertStable(c: Card, xs: seq<Card>)
    requires DateDescending(xs)
    requires TiesByAscendingId(xs)
    requires forall y :: y in xs ==> c.id < y.id
    ensures TiesByAscendingId(InsertByDate(c, xs))
  {
    if xs != [] && c.date < xs[0].date {
      InsertStable(c, xs[1..]);
      var rest := InsertByDate(c, xs[1..]);
      forall y | y in rest && y.date == xs[0].date ensures xs[0].id < y.id {
        var k :| 0 <= k < |xs[1..]| && xs[1..][k] == y;
        assert xs[k + 1] == y;
      }
      assert InsertByDate(c, xs) == [xs[0]] + rest;
    }
  }

  /** Sorting an id-ascending sequence lists same-date cards by ascending id. */
  lemma {:induction false} SortStable(xs: seq<Card>)
    requires IdAscending(xs)
    ensures TiesByAscendingId(SortByDateDesc(xs))
  {
    if xs != [] {
      SortStable(xs[1..]);
      forall y | y in SortByDateDesc(xs[1..]) ensures xs[0].id < y.id {
        var k :| 0 <= k < |xs[1..]| && xs[1..][k] == y;
        assert xs[k + 1] == y;
      }
      InsertStable(xs[0], SortByDateDesc(xs[1..]));
    }
  }
}
