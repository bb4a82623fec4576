/** The hand-written Prometheus histogram: one counter per bucket, printed cumulatively,
    and updated by three separate atomic adds. */
module Histogram {
  import opened Common

  ghost predicate Sorted(bounds: seq<real>) {
    forall i, j :: 0 <= i < j < |bounds| ==> bounds[i] <= bounds[j]
  }

  function Seconds(ns: int): real { ns as real / 1000000000.0 }

  /** The first bucket whose bound is not exceeded; the last slot is +Inf. */
  ghost predicate InBucket(bounds: seq<real>, ns: int, b: nat) {
    && b <= |bounds|
    && (b < |bounds| ==> Seconds(ns) <= bounds[b])
    && (forall i :: 0 <= i < b ==> Seconds(ns) > bounds[i])
  }

  /** How many observations fall into bucket b, and how many are at most x seconds. */
  ghost function CountIn(obs: seq<int>, bounds: seq<real>, b: nat): nat {
    if obs == [] then 0 else CountIn(obs[..|obs| - 1], bounds, b) + One(InBucket(bounds, obs[|obs| - 1], b))
  }

  ghost function CountLe(obs: seq<int>, x: real): nat {
    if obs == [] then 0 else CountLe(obs[..|obs| - 1], x) + One(Seconds(obs[|obs| - 1]) <= x)
  }

  function Total(obs: seq<int>): int { if obs == [] then 0 else Total(obs[..|obs| - 1]) + obs[|obs| - 1] }

  /** Buckets 0 to n-1 together. */
  ghost function CountBelow(obs: seq<int>, bounds: seq<real>, n: nat): nat {
    if n == 0 then 0 else CountBelow(obs, bounds, n - 1) + CountIn(obs, bounds, n - 1)
  }

  ghost function OneBelow(bounds: seq<real>, ns: int, n: nat): nat {
    if n == 0 then 0 else OneBelow(bounds, ns, n - 1) + One(InBucket(bounds, ns, n - 1))
  }

  lemma {:induction false} OneBelowMeans(bounds: seq<real>, ns: int, n: nat)
    requires n <= |bounds| + 1
    ensures OneBelow(bounds, ns, n) == One(exists b :: 0 <= b < n && InBucket(bounds, ns, b))
  {
    if n > 0 {
      OneBelowMeans(bounds, ns, n - 1);
    }
  }

  lemma {:induction false} FindBucket(bounds: seq<real>, ns: int, n: nat) returns (b: nat)
    requires n <= |bounds| && forall i :: 0 <= i < n ==> Seconds(ns) > bounds[i]
    ensures InBucket(bounds, ns, b)
    decreases |bounds| - n
  {
    if n == |bounds| || Seconds(ns) <= bounds[n] { b := n; } else { b := FindBucket(bounds, ns, n + 1); }
  }

  lemma {:induction false} CountBelowSnoc(obs: seq<int>, bounds: seq<real>, n: nat)
    requires obs != []
    ensures CountBelow(obs, bounds, n) == CountBelow(obs[..|obs| - 1], bounds, n) + OneBelow(bounds, obs[|obs| - 1], n)
  {
    if n > 0 { CountBelowSnoc(obs, bounds, n - 1); }
  }

  /** Cumulative buckets are what they claim: with increasing bounds, the first i+1 buckets
      hold exactly the observations of at most bounds[i]. */
  lemma {:induction false} CumulativeCounts(obs: seq<int>, bounds: seq<real>, i: nat)
    requires Sorted(bounds) && i < |bounds|
    ensures CountBelow(obs, bounds, i + 1) == CountLe(obs, bounds[i])
  {
    if obs == [] {
      EmptyBelow(bounds, i + 1);
    } else {
      var ns := obs[|obs| - 1];
      CumulativeCounts(obs[..|obs| - 1], bounds, i);
      CountBelowSnoc(obs, bounds, i + 1);
      OneBelowMeans(bounds, ns, i + 1);
      var b := FindBucket(bounds, ns, 0);
      if Seconds(ns) <= bounds[i] {
        assert b <= i;
      }
    }
  }

  lemma {:induction false} EmptyBelow(bounds: seq<real>, n: nat)
    ensures CountBelow([], bounds, n) == 0
  {
    if n > 0 { EmptyBelow(bounds, n - 1); }
  }

  /** And +Inf holds them all. */
  lemma {:induction false} InfinityCounts(obs: seq<int>, bounds: seq<real>)
    ensures CountBelow(obs, bounds, |bounds| + 1) == |obs|
  {
    if obs == [] {
      EmptyBelow(bounds, |bounds| + 1);
    } else {
      InfinityCounts(obs[..|obs| - 1], bounds);
      CountBelowSnoc(obs, bounds, |bounds| + 1);
      OneBelowMeans(bounds, obs[|obs| - 1], |bounds| + 1);
      var b := FindBucket(bounds, obs[|obs| - 1], 0);
    }
  }

  /** The bounds, in seconds, of the fetch and commit latency histograms. */
  const FETCH_BOUNDS: seq<real> := [0.05, 0.1, 0.25, 0.5, 1.0, 2.0, 5.0]
  const COMMIT_BOUNDS: seq<real> := [0.001, 0.005, 0.01, 0.025, 0.05, 0.1, 0.25, 0.5, 1.0]

  lemma BoundsSorted()
    ensures Sorted(FETCH_BOUNDS) && Sorted(COMMIT_BOUNDS)
  {
  }

  class Histogram {
    const bounds: seq<real>
    const counts: array<nat>
    var sumNs: int
    var count: nat
    ghost var observed: seq<int>  // the positive observations so far

    ghost predicate Valid()
      reads this, counts
    {
      && counts.Length == |bounds| + 1
      && (forall b :: 0 <= b < counts.Length ==> counts[b] == CountIn(observed, bounds, b))
      && sumNs == Total(observed)
      && count == |observed|
    }

    constructor (bounds: seq<real>)
      ensures Valid() && fresh(counts) && this.bounds == bounds && observed == []
    {
      this.bounds := bounds;
      counts := new nat[|bounds| + 1](_ => 0);
      sumNs, count, observed := 0, 0, [];
    }

    method Observe(duration: int)
      requires Valid()
      modifies this, counts
      ensures Valid()
      ensures observed == old(observed) + if duration > 0 then [duration] else []
    {
      if duration <= 0 {
        return;
      }
      var bucket := |bounds|;
      for i := 0 to |bounds|
        invariant bucket == |bounds|
        invariant forall k :: 0 <= k < i ==> Seconds(duration) > bounds[k]
      {
        if Seconds(duration) <= bounds[i] {
          bucket := i;
          break;
        }
      }
      assert InBucket(bounds, duration, bucket);
      counts[bucket] := counts[bucket] + 1;
      sumNs := sumNs + duration;
      count := count + 1;
      observed := observed + [duration];
      assert observed[..|observed| - 1] == old(observed);
    }

    /** The printed buckets, the +Inf one last. */
    method Append() returns (lines: seq<nat>)
      requires Valid() && Sorted(bounds)
      ensures |lines| == |bounds| + 1
      ensures forall i :: 0 <= i < |bounds| ==> lines[i] == CountLe(observed, bounds[i])
      ensures lines[|bounds|] == |observed| == count
    {
      lines := [];
      var cumulative: nat := 0;
      for i := 0 to |bounds|
        invariant cumulative == CountBelow(observed, bounds, i)
        invariant |lines| == i && forall k :: 0 <= k < i ==> lines[k] == CountLe(observed, bounds[k])
      {
        cumulative := cumulative + counts[i];
        CumulativeCounts(observed, bounds, i);
        lines := lines + [cumulative];
      }
      cumulative := cumulative + counts[|bounds|];
      InfinityCounts(observed, bounds);
      lines := lines + [cumulative];
    }
  }

  // --------------------------------------------------------- concurrent observers

  /** Observers run at once. `counted` are those between their first and second add,
      `summed` those between second and third. */
  datatype Shared = Shared(counts: seq<nat>, sumNs: int, count: nat,
                           counted: seq<int>, summed: seq<int>, started: seq<int>)

  datatype Add = AddBucket(ns: int, bucket: nat) | AddSum(i: nat) | AddCount(i: nat)

  function Without(xs: seq<int>, i: nat): seq<int>
    requires i < |xs|
  {
    xs[..i] + xs[i + 1..]
  }

  ghost predicate Enabled(bounds: seq<real>, s: Shared, a: Add) {
    match a
    case AddBucket(ns, b) => ns > 0 && InBucket(bounds, ns, b) && b < |s.counts|
    case AddSum(i) => i < |s.counted|
    case AddCount(i) => i < |s.summed|
  }

  ghost function Step(bounds: seq<real>, s: Shared, a: Add): Shared
    requires Enabled(bounds, s, a)
  {
    match a
    case AddBucket(ns, b) =>
      s.(counts := s.counts[b := s.counts[b] + 1], counted := s.counted + [ns], started := s.started + [ns])
    case AddSum(i) =>
      s.(sumNs := s.sumNs + s.counted[i], counted := Without(s.counted, i), summed := s.summed + [s.counted[i]])
    case AddCount(i) => s.(count := s.count + 1, summed := Without(s.summed, i))
  }

  ghost predicate Runs(bounds: seq<real>, s: Shared, steps: seq<Add>, t: Shared)
    decreases |steps|
  {
    if steps == [] then s == t
    else Enabled(bounds, s, steps[0]) && Runs(bounds, Step(bounds, s, steps[0]), steps[1..], t)
  }

  lemma {:induction false} TotalConcat(a: seq<int>, b: seq<int>)
    ensures Total(a + b) == Total(a) + Total(b)
    decreases |b|
  {
    if b == [] {
      assert a + b == a;
    } else {
      assert (a + b)[..|a + b| - 1] == a + b[..|b| - 1];
      TotalConcat(a, b[..|b| - 1]);
    }
  }

  lemma TotalOne(x: int)
    ensures Total([x]) == x
  {
    assert [x][..0] == [];
  }

  lemma TotalWithout(xs: seq<int>, i: nat)
    requires i < |xs|
    ensures Total(Without(xs, i)) == Total(xs) - xs[i]
  {
    TotalAround(xs[..i], xs[i], xs[i + 1..]);
    Around(xs, i);
  }

  lemma Around(xs: seq<int>, i: nat)
    requires i < |xs|
    ensures xs == xs[..i] + ([xs[i]] + xs[i + 1..])
  {
  }

  lemma TotalAround(a: seq<int>, x: int, b: seq<int>)
    ensures Total(a + ([x] + b)) == Total(a + b) + x
  {
    TotalConcat(a, [x] + b);
    TotalConcat([x], b);
    TotalConcat(a, b);
    TotalOne(x);
  }

  /** Each bucket holds its share of the observers that made their first add; the sum and
      the count lag behind by exactly those that are under way. */
  ghost predicate Consistent(bounds: seq<real>, s: Shared) {
    && |s.counts| == |bounds| + 1
    && (forall b :: 0 <= b < |s.counts| ==> s.counts[b] == CountIn(s.started, bounds, b))
    && |s.started| - s.count == |s.counted| + |s.summed|
    && Total(s.started) - s.sumNs == Total(s.counted)
  }

  lemma FirstAdd(bounds: seq<real>, s: Shared, ns: int, bucket: nat)
    requires Consistent(bounds, s) && Enabled(bounds, s, AddBucket(ns, bucket))
    ensures Consistent(bounds, Step(bounds, s, AddBucket(ns, bucket)))
  {
    var t := Step(bounds, s, AddBucket(ns, bucket));
    assert t.started[..|s.started|] == s.started;
    forall b | 0 <= b < |t.counts| ensures t.counts[b] == CountIn(t.started, bounds, b) {
      assert InBucket(bounds, ns, b) <==> b == bucket;
    }
    TotalConcat(s.counted, [ns]);
    TotalConcat(s.started, [ns]);
  }

  lemma ConsistentStep(bounds: seq<real>, s: Shared, a: Add)
    requires Consistent(bounds, s) && Enabled(bounds, s, a)
    ensures Consistent(bounds, Step(bounds, s, a))
  {
    match a
    case AddBucket(ns, b) => FirstAdd(bounds, s, ns, b);
    case AddSum(i) => TotalWithout(s.counted, i);
    case AddCount(i) =>
  }

  function SumOf(xs: seq<nat>): nat { if xs == [] then 0 else SumOf(xs[..|xs| - 1]) + xs[|xs| - 1] }

  lemma {:induction false} SumIsCountBelow(xs: seq<nat>, obs: seq<int>, bounds: seq<real>)
    requires forall b :: 0 <= b < |xs| ==> xs[b] == CountIn(obs, bounds, b)
    ensures SumOf(xs) == CountBelow(obs, bounds, |xs|)
  {
    if xs != [] { SumIsCountBelow(xs[..|xs| - 1], obs, bounds); }
  }

  /** At every moment of every interleaving, the bucket total exceeds the count by exactly
      the observers between their first and their third add. */
  lemma {:induction false} BucketsLeadCount(bounds: seq<real>, s: Shared, steps: seq<Add>, t: Shared)
    requires Consistent(bounds, s) && Runs(bounds, s, steps, t)
    ensures Consistent(bounds, t)
    ensures SumOf(t.counts) - t.count == |t.counted| + |t.summed|
    ensures t.counted == t.summed == [] ==> t.count == |t.started| && t.sumNs == Total(t.started)
    decreases |steps|
  {
    if steps == [] {
      SumIsCountBelow(t.counts, t.started, bounds);
      InfinityCounts(t.started, bounds);
    } else {
      ConsistentStep(bounds, s, steps[0]);
      BucketsLeadCount(bounds, Step(bounds, s, steps[0]), steps[1..], t);
    }
  }

  /** A histogram nobody has observed yet. */
  ghost predicate AllZero(bounds: seq<real>, s: Shared) {
    && |s.counts| == |bounds| + 1 && (forall b :: 0 <= b < |s.counts| ==> s.counts[b] == 0)
    && s.sumNs == s.count == 0 && s.counted == s.summed == s.started == []
  }

  /** So it is from the start: every run of observers on a fresh histogram keeps the bucket
      total, the sum and the count in step. */
  lemma FreshBucketsLeadCount(bounds: seq<real>, s: Shared, steps: seq<Add>, t: Shared)
    requires AllZero(bounds, s) && Runs(bounds, s, steps, t)
    ensures SumOf(t.counts) - t.count == |t.counted| + |t.summed|
    ensures Total(t.started) - t.sumNs == Total(t.counted)
    ensures forall b :: 0 <= b < |t.counts| ==> t.counts[b] == CountIn(t.started, bounds, b)
  {
    assert Consistent(bounds, s);
    BucketsLeadCount(bounds, s, steps, t);
  }

  /** The bounds are in seconds, the observations in nanoseconds. */
  lemma SecondsAreBillions(ns: int, bound: real)
    ensures Seconds(ns) <= bound <==> ns as real <= bound * 1_000_000_000.0
  {
    assert Seconds(ns) * 1_000_000_000.0 == ns as real;
  }

  /** The bucket of an observation, in nanoseconds. */
  lemma BucketInNanoseconds(bounds: seq<real>, ns: int, b: nat)
    ensures InBucket(bounds, ns, b) <==>
              && b <= |bounds| && (b < |bounds| ==> ns as real <= bounds[b] * 1_000_000_000.0)
              && forall i :: 0 <= i < b ==> ns as real > bounds[i] * 1_000_000_000.0
  {
    if b <= |bounds| {
      forall i | 0 <= i < |bounds| ensures Seconds(ns) <= bounds[i] <==> ns as real <= bounds[i] * 1_000_000_000.0 {
        SecondsAreBillions(ns, bounds[i]);
      }
    }
  }
}
