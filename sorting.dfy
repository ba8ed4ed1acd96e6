/**
 * Python's stable `sorted(xs, key=lambda x: -x.overall_score)` over a list
 * of records, modelled on the records' positions: a list in ascending
 * position order, sorted stably by descending key, is the unique ordering
 * in which a precedes b exactly when a's key is larger, or the keys tie and
 * a comes first.
 */
module Sorting {

  /** `a` comes before `b` in a stable descending sort by `key`. */
  predicate Precedes(key: seq<real>, a: nat, b: nat)
    requires a < |key| && b < |key|
  {
    key[a] > key[b] || (key[a] == key[b] && a < b)
  }

  /** Every element is a position of `key`. */
  predicate InBounds(xs: seq<nat>, n: nat) {
    forall p :: 0 <= p < |xs| ==> xs[p] < n
  }

  /** No position occurs twice. */
  predicate Distinct(xs: seq<nat>) {
    forall p, q :: 0 <= p < q < |xs| ==> xs[p] != xs[q]
  }

  /** Every earlier element precedes every later one. */
  predicate SortedBy(key: seq<real>, xs: seq<nat>)
    requires InBounds(xs, |key|)
  {
    forall p, q :: 0 <= p < q < |xs| ==> Precedes(key, xs[p], xs[q])
  }

  /** The positions 0, 1, ..., n - 1 in order. */
  function Range(n: nat): (r: seq<nat>)
    ensures |r| == n
    ensures forall p :: 0 <= p < n ==> r[p] == p
  {
    if n == 0 then [] else Range(n - 1) + [n - 1]
  }

  /** Places `x` before the first element it precedes. */
  function Insert(key: seq<real>, x: nat, ys: seq<nat>): (r: seq<nat>)
    requires x < |key| && InBounds(ys, |key|)
    ensures multiset(r) == multiset(ys) + multiset{x}
    ensures InBounds(r, |key|)
  {
    if ys == [] then [x]
    else if Precedes(key, x, ys[0]) then [x] + ys
    else
      assert ys == [ys[0]] + ys[1..];
      [ys[0]] + Insert(key, x, ys[1..])
  }

  /** The stable descending sort of `xs` by `key` (an insertion sort). */
  function SortDesc(key: seq<real>, xs: seq<nat>): (r: seq<nat>)
    requires InBounds(xs, |key|)
    ensures multiset(r) == multiset(xs)
    ensures |r| == |xs|
    ensures InBounds(r, |key|)
  {
    if xs == [] then []
    else
      assert xs == [xs[0]] + xs[1..];
      Insert(key, xs[0], SortDesc(key, xs[1..]))
  }

  /** Inserting an element that is not yet present keeps a sorted list sorted. */
  lemma {:induction false} InsertSorted(key: seq<real>, x: nat, ys: seq<nat>)
    requires x < |key| && InBounds(ys, |key|)
    requires SortedBy(key, ys) && x !in ys
    ensures SortedBy(key, Insert(key, x, ys))
  {
    if ys != [] && !Precedes(key, x, ys[0]) {
      var tail := ys[1..];
      assert SortedBy(key, tail) by {
        forall p, q | 0 <= p < q < |tail| ensures Precedes(key, tail[p], tail[q]) {
          assert tail[p] == ys[p + 1] && tail[q] == ys[q + 1];
        }
      }
      assert x !in tail by {
        forall p | 0 <= p < |tail| ensures tail[p] != x {
          assert tail[p] == ys[p + 1];
        }
      }
      InsertSorted(key, x, tail);
      var r := Insert(key, x, ys);
      var rest := Insert(key, x, tail);
      assert r == [ys[0]] + rest;
      assert Precedes(key, ys[0], x) by {
        assert ys[0] != x;
      }
      forall q | 1 <= q < |r| ensures Precedes(key, ys[0], r[q]) {
        assert r[q] == rest[q - 1];
        InsertMember(key, x, tail, q - 1);
        if r[q] != x {
          var t :| 0 <= t < |tail| && tail[t] == r[q];
          assert ys[t + 1] == r[q];
        }
      }
    }
  }

  /** An element of an insertion is the inserted element or one of the list's. */
  lemma InsertMember(key: seq<real>, x: nat, ys: seq<nat>, i: nat)
    requires x < |key| && InBounds(ys, |key|) && i < |Insert(key, x, ys)|
    ensures var z := Insert(key, x, ys)[i];
            z == x || exists t :: 0 <= t < |ys| && ys[t] == z
  {
    var z := Insert(key, x, ys)[i];
    assert z in multiset(Insert(key, x, ys));
    if z != x {
      assert z in multiset(ys);
    }
  }

  /** The sort of distinct positions is sorted by precedence. */
  lemma {:induction false} SortDescSorted(key: seq<real>, xs: seq<nat>)
    requires InBounds(xs, |key|) && Distinct(xs)
    ensures SortedBy(key, SortDesc(key, xs))
  {
    if xs != [] {
      var tail := xs[1..];
      assert Distinct(tail) by {
        forall p, q | 0 <= p < q < |tail| ensures tail[p] != tail[q] {
          assert tail[p] == xs[p + 1] && tail[q] == xs[q + 1];
        }
      }
      SortDescSorted(key, tail);
      assert xs[0] !in tail by {
        forall t | 0 <= t < |tail| ensures tail[t] != xs[0] {
          assert tail[t] == xs[t + 1];
        }
      }
      assert xs[0] !in multiset(SortDesc(key, tail));
      InsertSorted(key, xs[0], SortDesc(key, tail));
    }
  }

  /** A list sorted by precedence has no repeated element. */
  lemma SortedDistinct(key: seq<real>, xs: seq<nat>)
    requires InBounds(xs, |key|) && SortedBy(key, xs)
    ensures Distinct(xs)
  {
    forall p, q | 0 <= p < q < |xs| ensures xs[p] != xs[q] {
      assert Precedes(key, xs[p], xs[q]);
    }
  }

  /**
   * In the sort of distinct positions, a comes before b exactly when a
   * precedes b: ties on the key keep the input's position order.
   */
  lemma SortDescOrder(key: seq<real>, xs: seq<nat>, p: nat, q: nat)
    requires InBounds(xs, |key|) && Distinct(xs)
    requires p < |xs| && q < |xs|
    ensures var r := SortDesc(key, xs);
            p < q <==> Precedes(key, r[p], r[q])
  {
    SortDescSorted(key, xs);
    SortedOrder(key, SortDesc(key, xs), p, q);
  }

  /** In a list sorted by precedence, position order is precedence order. */
  lemma SortedOrder(key: seq<real>, r: seq<nat>, p: nat, q: nat)
    requires InBounds(r, |key|) && SortedBy(key, r)
    requires p < |r| && q < |r|
    ensures p < q <==> Precedes(key, r[p], r[q])
  {
    if q < p {
      assert Precedes(key, r[q], r[p]);
    }
  }

  /** The first element of the sort has the largest key. */
  lemma SortDescFirstIsMax(key: seq<real>, xs: seq<nat>, x: nat)
    requires InBounds(xs, |key|) && Distinct(xs) && x in xs
    ensures SortDesc(key, xs) != []
    ensures key[SortDesc(key, xs)[0]] >= key[x]
  {
    var r := SortDesc(key, xs);
    assert x in multiset(r);
    var q :| 0 <= q < |r| && r[q] == x;
    SortDescSorted(key, xs);
    if q > 0 {
      assert Precedes(key, r[0], r[q]);
    }
  }

  /** The positions 0 .. n - 1 are distinct and in bounds. */
  lemma RangeDistinct(n: nat, m: nat)
    requires n <= m
    ensures InBounds(Range(n), m) && Distinct(Range(n))
  {
  }
}
