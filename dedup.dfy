/**
 * `drop_duplicates()` with its default `keep="first"`: every row equal to an earlier row
 * is removed, the surviving rows keep their relative order.
 */
module Duplicates {

  /** No element occurs twice. */
  predicate NoDuplicates<T(==)>(s: seq<T>) {
    forall i, j :: 0 <= i < j < |s| ==> s[i] != s[j]
  }

  /** `s` with every element that already occurred earlier removed. */
  function Dedup<T(==,!new)>(s: seq<T>): (r: seq<T>)
    ensures |r| <= |s|
    ensures forall x :: x in r <==> x in s
    ensures NoDuplicates(r)
  {
    if s == [] then []
    else
      var prev := Dedup(s[..|s| - 1]);
      var last := s[|s| - 1];
      assert forall x :: x in s <==> x in s[..|s| - 1] || x == last by {
        assert s == s[..|s| - 1] + [last];
      }
      if last in prev then prev else prev + [last]
  }

  /** The position of the first occurrence of `x` in `s`. */
  function FirstIndex<T(==)>(s: seq<T>, x: T): (i: nat)
    requires x in s
    ensures i < |s| && s[i] == x && x !in s[..i]
  {
    if s[0] == x then 0
    else
      var i := 1 + FirstIndex(s[1..], x);
      assert s[..i] == [s[0]] + s[1..][..i - 1];
      i
  }

  lemma {:induction false} FirstIndexIn<T>(s: seq<T>, x: T, i: nat)
    requires i < |s| && s[i] == x && x !in s[..i]
    ensures FirstIndex(s, x) == i
  {
    var f := FirstIndex(s, x);
    forall k | 0 <= k < i ensures s[k] != x {
      assert s[..i][k] == s[k];
    }
    forall k | 0 <= k < f ensures s[k] != x {
      assert s[..f][k] == s[k];
    }
  }

  lemma FirstIndexAppend<T>(p: seq<T>, q: seq<T>, x: T)
    requires x in p + q
    ensures x in p ==> FirstIndex(p + q, x) == FirstIndex(p, x)
    ensures x !in p ==> x in q && FirstIndex(p + q, x) == |p| + FirstIndex(q, x)
  {
    if x in p {
      var i := FirstIndex(p, x);
      assert (p + q)[..i] == p[..i];
      FirstIndexIn(p + q, x, i);
    } else {
      assert x in q;
      var i := FirstIndex(q, x);
      assert (p + q)[..|p| + i] == p + q[..i];
      FirstIndexIn(p + q, x, |p| + i);
    }
  }

  /** In a sequence without duplicates the first occurrence is the only one. */
  lemma FirstIndexUnique<T>(s: seq<T>, i: nat)
    requires NoDuplicates(s) && i < |s|
    ensures FirstIndex(s, s[i]) == i
  {
    FirstIndexIn(s, s[i], i);
  }

  /** A sequence without duplicates is left as it is. */
  lemma {:induction false} DedupDistinct<T(!new)>(s: seq<T>)
    requires NoDuplicates(s)
    ensures Dedup(s) == s
  {
    if s != [] {
      var p := s[..|s| - 1];
      assert NoDuplicates(p);
      DedupDistinct(p);
      assert s[|s| - 1] !in p;
      assert s == p + [s[|s| - 1]];
    }
  }

  /**
   * Deduplicating a concatenation extends the deduplicated first part: the rows of `a`
   * keep the positions they have in `Dedup(a)`, and only rows new to `a` are added.
   */
  lemma {:induction false} DedupPrefix<T(!new)>(a: seq<T>, b: seq<T>)
    ensures |Dedup(a)| <= |Dedup(a + b)|
    ensures Dedup(a + b)[..|Dedup(a)|] == Dedup(a)
    ensures forall x :: x in Dedup(a + b)[|Dedup(a)|..] ==> x in b && x !in a
    decreases |b|
  {
    if b == [] {
      assert a + b == a;
    } else {
      var b' := b[..|b| - 1];
      DedupPrefix(a, b');
      assert (a + b)[..|a + b| - 1] == a + b';
      var tail := Dedup(a + b)[|Dedup(a)|..];
      forall x | x in tail ensures x in b && x !in a {
        var prev := Dedup(a + b');
        if x !in prev[|Dedup(a)|..] {
          assert x == b[|b| - 1];
          assert x !in prev;
          assert x !in a;
        } else {
          assert x in b';
        }
      }
    }
  }

  /**
   * Deduplication orders the surviving elements by their first occurrence: `x` comes
   * before `y` in the result exactly when the first `x` comes before the first `y` in `s`.
   */
  lemma {:induction false} DedupFirstOrder<T(!new)>(s: seq<T>, x: T, y: T)
    requires x in s && y in s
    ensures FirstIndex(Dedup(s), x) < FirstIndex(Dedup(s), y) <==> FirstIndex(s, x) < FirstIndex(s, y)
  {
    var p := s[..|s| - 1];
    var z := s[|s| - 1];
    assert s == p + [z];
    var d := Dedup(p);
    if x in p && y in p {
      DedupFirstOrder(p, x, y);
      FirstIndexAppend(p, [z], x);
      FirstIndexAppend(p, [z], y);
      if z !in d {
        FirstIndexAppend(d, [z], x);
        FirstIndexAppend(d, [z], y);
      }
    } else {
      // at least one of them is the last element, which is new to `p`
      assert z !in p && z !in d;
      FirstIndexAppend(p, [z], x);
      FirstIndexAppend(p, [z], y);
      FirstIndexAppend(d, [z], x);
      FirstIndexAppend(d, [z], y);
    }
  }
}
