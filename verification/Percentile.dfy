/** Nearest-rank percentiles and the distribution bundle (pkg/collector/aggregate.go). */
module Percentile {

  predicate Sorted(s: seq<int>) {
    forall i, j :: 0 <= i < j < |s| ==> s[i] <= s[j]
  }

  function Ceil(x: real): (r: int)
    ensures r as real - 1.0 < x <= r as real
  {
    -((-x).Floor)
  }

  /** The value at quantile q of a sorted sample; the rank is ceil(q * N). */
  function Percentile(sorted: seq<int>, q: real): int {
    if |sorted| == 0 then 0
    else if q <= 0.0 then sorted[0]
    else if q >= 1.0 then sorted[|sorted| - 1]
    else
      var rank := Rank(q, |sorted|);
      var low := if rank < 1 then 1 else rank;
      var clamped := if low > |sorted| then |sorted| else low;
      sorted[clamped - 1]
  }

  function CountAtMost(s: seq<int>, v: int): (n: nat)
    ensures n <= |s|
  {
    if s == [] then 0 else (if s[0] <= v then 1 else 0) + CountAtMost(s[1..], v)
  }

  lemma {:induction false} CountConcat(a: seq<int>, b: seq<int>, v: int)
    ensures CountAtMost(a + b, v) == CountAtMost(a, v) + CountAtMost(b, v)
  {
    if a == [] {
      assert a + b == b;
    } else {
      assert (a + b)[1..] == a[1..] + b;
      CountConcat(a[1..], b, v);
    }
  }

  lemma SameSize(a: seq<int>, b: seq<int>)
    requires multiset(a) == multiset(b)
    ensures |a| == |b|
  {
    assert |a| == |multiset(a)| && |b| == |multiset(b)|;
  }

  /** Taking one occurrence out of the middle. */
  lemma RemoveAt(b: seq<int>, i: nat, v: int)
    requires i < |b|
    ensures var rest := b[..i] + b[i + 1..];
            && multiset(rest) == multiset(b) - multiset{b[i]}
            && CountAtMost(b, v) == CountAtMost(rest, v) + if b[i] <= v then 1 else 0
  {
    assert b == b[..i] + ([b[i]] + b[i + 1..]);
    assert ([b[i]] + b[i + 1..])[1..] == b[i + 1..];
    CountConcat(b[..i], [b[i]] + b[i + 1..], v);
    CountConcat(b[..i], b[i + 1..], v);
  }

  lemma TailBag(a: seq<int>)
    requires a != []
    ensures multiset(a[1..]) == multiset(a) - multiset{a[0]}
  {
    assert a == [a[0]] + a[1..];
  }

  lemma Rests(a: seq<int>, b: seq<int>, i: nat)
    requires multiset(a) == multiset(b) && a != [] && i < |b| && b[i] == a[0]
    ensures multiset(a[1..]) == multiset(b[..i] + b[i + 1..])
  {
    TailBag(a);
    RemoveAt(b, i, 0);
  }

  /** How many samples are at most v does not depend on their order. */
  lemma {:induction false} CountByMultiset(a: seq<int>, b: seq<int>, v: int)
    requires multiset(a) == multiset(b)
    ensures CountAtMost(a, v) == CountAtMost(b, v)
  {
    if a == [] {
      assert |multiset(b)| == 0;
    } else {
      assert a[0] in multiset(b);
      var i :| 0 <= i < |b| && b[i] == a[0];
      RemoveAt(b, i, v);
      Rests(a, b, i);
      CountByMultiset(a[1..], b[..i] + b[i + 1..], v);
    }
  }

  lemma {:induction false} CountAll(s: seq<int>, v: int)
    ensures (forall i :: 0 <= i < |s| ==> s[i] <= v) ==> CountAtMost(s, v) == |s|
    ensures (forall i :: 0 <= i < |s| ==> s[i] > v) ==> CountAtMost(s, v) == 0
  {
    if s != [] {
      CountAll(s[1..], v);
      assert forall i :: 0 <= i < |s[1..]| ==> s[1..][i] == s[i + 1];
    }
  }

  /** In a sorted sample, where a value stands bounds how many are at most it, and how many below it. */
  lemma {:induction false} SortedCounts(s: seq<int>, i: nat)
    requires Sorted(s) && i < |s|
    ensures CountAtMost(s, s[i]) >= i + 1 && CountAtMost(s, s[i] - 1) <= i
  {
    if i == 0 {
      CountAll(s, s[0] - 1);
    } else {
      SortedCounts(s[1..], i - 1);
    }
  }

  function Rank(q: real, n: nat): int {
    Ceil(q * n as real)
  }

  predicate NearestRank(samples: seq<int>, q: real, v: int) {
    var rank := Rank(q, |samples|);
    v in samples && CountAtMost(samples, v) >= rank && CountAtMost(samples, v - 1) < rank
  }

  /** Scaling by a count keeps the order. */
  lemma {:induction false} ScaleMonotone(q: real, r: real, n: nat)
    requires q <= r
    ensures q * n as real <= r * n as real
    ensures n > 0 && q < r ==> q * n as real < r * n as real
  {
    if n == 0 {
      assert q * 0.0 == 0.0 && r * 0.0 == 0.0;
    } else {
      ScaleMonotone(q, r, n - 1);
      ScaleNext(q, n - 1);
      ScaleNext(r, n - 1);
    }
  }

  lemma ScaleNext(q: real, n: nat)
    ensures q * (n + 1) as real == q * n as real + q
  {
    assert (n + 1) as real == n as real + 1.0;
  }

  lemma RankInRange(n: nat, q: real)
    requires n > 0 && 0.0 < q < 1.0
    ensures 1 <= Rank(q, n) <= n
  {
    ScaleMonotone(0.0, q, n);
    ScaleMonotone(q, 1.0, n);
    assert 0.0 * n as real == 0.0 && 1.0 * n as real == n as real;
  }

  lemma {:induction false} CountMonotone(s: seq<int>, v: int, w: int)
    requires v <= w
    ensures CountAtMost(s, v) <= CountAtMost(s, w)
  {
    if s != [] { CountMonotone(s[1..], v, w); }
  }

  /** The sample of a given rank, by the counts that single it out. */
  lemma RankedSample(samples: seq<int>, sorted: seq<int>, rank: nat)
    requires Sorted(sorted) && multiset(sorted) == multiset(samples) && 1 <= rank <= |sorted|
    ensures var p := sorted[rank - 1];
            && p in samples && CountAtMost(samples, p) >= rank && CountAtMost(samples, p - 1) < rank
            && forall v :: CountAtMost(samples, v) >= rank && CountAtMost(samples, v - 1) < rank ==> v == p
  {
    var p := sorted[rank - 1];
    SortedCounts(sorted, rank - 1);
    CountByMultiset(sorted, samples, p);
    CountByMultiset(sorted, samples, p - 1);
    assert p in multiset(sorted);
    forall v | CountAtMost(samples, v) >= rank && CountAtMost(samples, v - 1) < rank ensures v == p {
      if v < p { CountMonotone(samples, v, p - 1); }
      if v > p { CountMonotone(samples, p, v - 1); }
    }
  }

  /**
   The percentile of the sorted copy is the nearest-rank value of the samples: at least ceil(qN) of
   them are at most it and fewer than ceil(qN) are below it. Only one value is.
   */
  lemma PercentileIsNearestRank(samples: seq<int>, sorted: seq<int>, q: real)
    requires Sorted(sorted) && multiset(sorted) == multiset(samples) && samples != [] && 0.0 < q < 1.0
    ensures NearestRank(samples, q, Percentile(sorted, q))
    ensures forall v :: NearestRank(samples, q, v) ==> v == Percentile(sorted, q)
  {
    SameSize(sorted, samples);
    RankInRange(|samples|, q);
    RankedSample(samples, sorted, Rank(q, |samples|));
  }

  lemma CeilMonotone(x: real, y: real)
    requires x <= y
    ensures Ceil(x) <= Ceil(y)
  {
  }

  lemma RankMonotone(q: real, r: real, n: nat)
    requires q <= r
    ensures Rank(q, n) <= Rank(r, n)
  {
    ScaleMonotone(q, r, n);
    CeilMonotone(q * n as real, r * n as real);
  }

  lemma PercentileMonotone(sorted: seq<int>, q: real, r: real)
    requires Sorted(sorted) && q <= r
    ensures Percentile(sorted, q) <= Percentile(sorted, r)
  {
    if |sorted| > 0 {
      RankMonotone(q, r, |sorted|);
    }
  }

  // ---- The distribution bundle ----

  datatype Distribution = Distribution(min: int, p50: int, p95: int, p99: int, p999: int, max: int)

  function OfSorted(s: seq<int>): Distribution {
    if |s| == 0 then Distribution(0, 0, 0, 0, 0, 0)
    else
      Distribution(
        s[0], Percentile(s, 0.50), Percentile(s, 0.95), Percentile(s, 0.99), Percentile(s, 0.999), s[|s| - 1])
  }

  lemma SortedHead(a: seq<int>, b: seq<int>)
    requires Sorted(a) && Sorted(b) && multiset(a) == multiset(b) && a != [] && b != []
    ensures a[0] == b[0]
  {
    assert a[0] in multiset(b) && b[0] in multiset(a);
    var i :| 0 <= i < |b| && b[i] == a[0];
    var j :| 0 <= j < |a| && a[j] == b[0];
  }

  /** Two sorted listings of the same samples are the same listing. */
  lemma {:induction false} SortedUnique(a: seq<int>, b: seq<int>)
    requires Sorted(a) && Sorted(b) && multiset(a) == multiset(b)
    ensures a == b
  {
    SameSize(a, b);
    if a != [] {
      SortedHead(a, b);
      TailBag(a);
      TailBag(b);
      SortedUnique(a[1..], b[1..]);
      assert a == [a[0]] + a[1..] && b == [b[0]] + b[1..];
    }
  }

  function Insert(x: int, s: seq<int>): (r: seq<int>)
    requires Sorted(s)
    ensures Sorted(r) && multiset(r) == multiset(s) + multiset{x}
    ensures r[0] == if s == [] || x <= s[0] then x else s[0]
  {
    if s == [] then [x]
    else if x <= s[0] then [x] + s
    else
      assert s == [s[0]] + s[1..];
      [s[0]] + Insert(x, s[1..])
  }

  function SortedCopy(s: seq<int>): (r: seq<int>)
    ensures Sorted(r) && multiset(r) == multiset(s)
  {
    if s == [] then [] else
      assert s == [s[0]] + s[1..];
      Insert(s[0], SortedCopy(s[1..]))
  }

  function ComputeDistribution(samples: seq<int>): Distribution {
    if |samples| == 0 then Distribution(0, 0, 0, 0, 0, 0) else OfSorted(SortedCopy(samples))
  }

  lemma Chain(s: seq<int>)
    requires Sorted(s) && s != []
    ensures var d := OfSorted(s); d.min <= d.p50 <= d.p95 <= d.p99 <= d.p999 <= d.max
  {
    PercentileMonotone(s, 0.0, 0.50);
    PercentileMonotone(s, 0.50, 0.95);
    PercentileMonotone(s, 0.95, 0.99);
    PercentileMonotone(s, 0.99, 0.999);
    PercentileMonotone(s, 0.999, 1.0);
  }

  lemma Extremes(samples: seq<int>, s: seq<int>)
    requires Sorted(s) && multiset(s) == multiset(samples) && s != []
    ensures s[0] in samples && s[|s| - 1] in samples
    ensures forall x :: x in samples ==> s[0] <= x <= s[|s| - 1]
  {
    assert s[0] in multiset(samples) && s[|s| - 1] in multiset(samples);
    forall x | x in samples ensures s[0] <= x <= s[|s| - 1] {
      assert x in multiset(s);
      var i :| 0 <= i < |s| && s[i] == x;
    }
  }

  /** min <= p50 <= p95 <= p99 <= p999 <= max, all of them samples. */
  lemma DistributionOrdered(samples: seq<int>)
    requires samples != []
    ensures var d := ComputeDistribution(samples);
            && d.min <= d.p50 <= d.p95 <= d.p99 <= d.p999 <= d.max
            && (forall x :: x in samples ==> d.min <= x <= d.max)
            && d.min in samples && d.max in samples
            && NearestRank(samples, 0.50, d.p50) && NearestRank(samples, 0.95, d.p95)
            && NearestRank(samples, 0.99, d.p99) && NearestRank(samples, 0.999, d.p999)
  {
    var s := SortedCopy(samples);
    SameSize(s, samples);
    Chain(s);
    Extremes(samples, s);
    PercentileIsNearestRank(samples, s, 0.50);
    PercentileIsNearestRank(samples, s, 0.95);
    PercentileIsNearestRank(samples, s, 0.99);
    PercentileIsNearestRank(samples, s, 0.999);
  }

  /** The distribution depends on the samples only as a multiset. */
  lemma DistributionByMultiset(a: seq<int>, b: seq<int>)
    requires multiset(a) == multiset(b)
    ensures ComputeDistribution(a) == ComputeDistribution(b)
  {
    SameSize(a, b);
    SortedUnique(SortedCopy(a), SortedCopy(b));
  }
}
