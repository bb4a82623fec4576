/** Last-writer-wins registers, and the positions an at-least-once consumer delivers. */
module Registers {
  import opened Common

  function Coalesce<T>(a: Option<T>, b: Option<T>): Option<T> { if a.Some? then a else b }

  /** The last value present in a sequence of writes. */
  function Last<T>(xs: seq<Option<T>>): Option<T> {
    if xs == [] then None else Coalesce(xs[|xs| - 1], Last(xs[..|xs| - 1]))
  }

  ghost predicate LastAt<T>(xs: seq<Option<T>>, k: int) {
    0 <= k < |xs| && xs[k].Some? && forall l :: k < l < |xs| ==> xs[l].None?
  }

  lemma {:induction false} LastMeans<T>(xs: seq<Option<T>>)
    ensures Last(xs).None? <==> forall k :: 0 <= k < |xs| ==> xs[k].None?
    ensures Last(xs).Some? ==> exists k :: LastAt(xs, k) && xs[k] == Last(xs)
  {
    if xs != [] {
      var front, n := xs[..|xs| - 1], |xs| - 1;
      LastMeans(front);
      if xs[n].Some? {
        assert LastAt(xs, n);
      } else {
        assert forall k :: 0 <= k < n ==> front[k] == xs[k];
        if k :| LastAt(front, k) && front[k] == Last(front) {
          assert LastAt(xs, k);
        }
      }
    }
  }

  lemma LastFrom<T>(xs: seq<Option<T>>, k: int)
    requires LastAt(xs, k)
    ensures Last(xs) == xs[k]
  {
    LastMeans(xs);
    var l :| LastAt(xs, l) && xs[l] == Last(xs);
    assert k == l;
  }

  lemma {:induction false} LastConcat<T>(xs: seq<Option<T>>, ys: seq<Option<T>>)
    ensures Last(xs + ys) == Coalesce(Last(ys), Last(xs))
    decreases |ys|
  {
    if ys == [] {
      assert xs + ys == xs;
    } else {
      assert (xs + ys)[..|xs + ys| - 1] == xs + ys[..|ys| - 1];
      LastConcat(xs, ys[..|ys| - 1]);
    }
  }

  // ---------------------------------------------------------- at-least-once delivery

  /** The positions delivered by a consumer that may restart anywhere at or before where
      it was, any number of times: it starts at 0, never skips ahead, and ends at the end. */
  ghost predicate Walk(w: seq<nat>, n: nat) {
    && (n == 0 ==> w == [])
    && (n > 0 ==> w != [] && w[0] == 0 && w[|w| - 1] == n - 1)
    && (forall k :: 0 <= k < |w| ==> w[k] < n)
    && (forall k, l :: 0 <= k && l == k + 1 && l < |w| ==> w[l] <= w[k] + 1)
  }

  function Pick<T>(xs: seq<T>, w: seq<nat>): (r: seq<T>)
    requires forall k :: 0 <= k < |w| ==> w[k] < |xs|
    ensures |r| == |w| && forall k :: 0 <= k < |w| ==> r[k] == xs[w[k]]
  {
    seq(|w|, k requires 0 <= k < |w| => xs[w[k]])
  }

  lemma {:induction false} LastBelow(w: seq<nat>, b: nat) returns (p: nat)
    requires w != [] && w[0] <= b
    ensures p < |w| && w[p] <= b && forall q :: p < q < |w| ==> w[q] > b
    decreases |w|
  {
    if w[|w| - 1] <= b {
      p := |w| - 1;
    } else {
      p := LastBelow(w[..|w| - 1], b);
    }
  }

  /** Every position is delivered, and after its last delivery only later ones are. */
  lemma LastVisit(w: seq<nat>, n: nat, i: nat) returns (p: nat)
    requires Walk(w, n) && i < n
    ensures p < |w| && w[p] == i && forall q :: p < q < |w| ==> w[q] > i
  {
    p := LastBelow(w, i);
    if p + 1 < |w| {
      assert w[p + 1] <= w[p] + 1;
    }
  }

  /** Redelivery cannot change a register. */
  lemma WalkKeepsLast<T>(xs: seq<Option<T>>, w: seq<nat>)
    requires Walk(w, |xs|)
    ensures Last(Pick(xs, w)) == Last(xs)
  {
    LastMeans(xs);
    LastMeans(Pick(xs, w));
    if Last(xs).Some? {
      var k :| LastAt(xs, k) && xs[k] == Last(xs);
      var p := LastVisit(w, |xs|, k);
      assert LastAt(Pick(xs, w), p);
      LastFrom(Pick(xs, w), p);
    }
  }

  lemma WalkKeepsMembers<T>(xs: seq<T>, w: seq<nat>, x: T)
    requires Walk(w, |xs|)
    ensures x in Pick(xs, w) <==> x in xs
  {
    if x in xs {
      var i :| 0 <= i < |xs| && xs[i] == x;
      var p := LastVisit(w, |xs|, i);
      assert Pick(xs, w)[p] == x;
    }
  }
}
