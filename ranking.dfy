/**
 * Ordering record positions by score, highest first (`sort_values(ascending=False)`).
 * The order among equal scores is not promised: the library sort is not stable.
 */
module Ranking {

  /** No position occurs twice. */
  predicate Distinct(order: seq<nat>) {
    forall a, b :: 0 <= a < b < |order| ==> order[a] != order[b]
  }

  predicate InRange(order: seq<nat>, n: nat) {
    forall k :: 0 <= k < |order| ==> order[k] < n
  }

  /** The positions in `order` have non-increasing scores. */
  predicate SortedDesc(order: seq<nat>, scores: seq<real>)
    requires InRange(order, |scores|)
  {
    forall a, b :: 0 <= a < b < |order| ==> scores[order[a]] >= scores[order[b]]
  }

  /** `order` lists every position of `scores` exactly once, highest score first. */
  predicate IsRanking(order: seq<nat>, scores: seq<real>) {
    |order| == |scores|
    && InRange(order, |scores|)
    && (forall i: nat :: i < |scores| ==> i in order)
    && Distinct(order)
    && SortedDesc(order, scores)
  }

  /** Putting a position in front of a descending order whose scores it bounds keeps it descending. */
  lemma SortedCons(x: nat, rest: seq<nat>, scores: seq<real>)
    requires x < |scores| && InRange(rest, |scores|) && SortedDesc(rest, scores)
    requires forall k :: 0 <= k < |rest| ==> scores[x] >= scores[rest[k]]
    ensures InRange([x] + rest, |scores|) && SortedDesc([x] + rest, scores)
  {
    var r := [x] + rest;
    forall a, b | 0 <= a < b < |r| ensures scores[r[a]] >= scores[r[b]] {
      assert r[b] == rest[b - 1];
      if a > 0 {
        assert r[a] == rest[a - 1];
      }
    }
  }

  /** Putting a new position in front of a repetition-free order keeps it repetition-free. */
  lemma DistinctCons(x: nat, rest: seq<nat>)
    ensures Distinct(rest) && x !in rest ==> Distinct([x] + rest)
  {
    var r := [x] + rest;
    if Distinct(rest) && x !in rest {
      forall a, b | 0 <= a < b < |r| ensures r[a] != r[b] {
        assert r[b] == rest[b - 1];
      }
    }
  }

  /** The tail of a repetition-free order does not hold its head. */
  lemma DistinctTail(order: seq<nat>)
    requires order != []
    ensures Distinct(order) ==> order[0] !in order[1..] && Distinct(order[1..])
  {
    if Distinct(order) {
      forall m | 0 <= m < |order| - 1 ensures order[1..][m] != order[0] {
        assert order[1..][m] == order[m + 1];
      }
    }
  }

  /** Inserts position `i` into a descending order, before the first lower-or-equal score. */
  function Insert(i: nat, order: seq<nat>, scores: seq<real>): (r: seq<nat>)
    requires i < |scores| && InRange(order, |scores|) && SortedDesc(order, scores)
    ensures |r| == |order| + 1
    ensures forall x :: x in r <==> x in order || x == i
    ensures InRange(r, |scores|)
    ensures SortedDesc(r, scores)
    ensures Distinct(order) && i !in order ==> Distinct(r)
  {
    if order == [] then [i]
    else if scores[i] >= scores[order[0]] then
      SortedCons(i, order, scores);
      DistinctCons(i, order);
      [i] + order
    else
      var rest := Insert(i, order[1..], scores);
      forall k | 0 <= k < |rest| ensures scores[order[0]] >= scores[rest[k]] {
        assert rest[k] in rest;
        if rest[k] != i {
          var m :| 0 <= m < |order[1..]| && order[1..][m] == rest[k];
          assert order[m + 1] == rest[k];
        }
      }
      SortedCons(order[0], rest, scores);
      DistinctTail(order);
      DistinctCons(order[0], rest);
      [order[0]] + rest
  }

  /** A descending order of the first `n` positions. */
  function RankPrefix(scores: seq<real>, n: nat): (r: seq<nat>)
    requires n <= |scores|
    ensures |r| == n
    ensures InRange(r, n)
    ensures forall x: nat :: x < n ==> x in r
    ensures Distinct(r)
    ensures InRange(r, |scores|) && SortedDesc(r, scores)
  {
    if n == 0 then []
    else
      var prev := RankPrefix(scores, n - 1);
      var r := Insert(n - 1, prev, scores);
      assert forall k :: 0 <= k < |r| ==> r[k] < n by {
        forall k | 0 <= k < |r| ensures r[k] < n {
          assert r[k] in r;
        }
      }
      r
  }

  /** Every position of `scores`, highest score first. */
  function Rank(scores: seq<real>): (order: seq<nat>)
    ensures IsRanking(order, scores)
  {
    RankPrefix(scores, |scores|)
  }
}
