/** The establishment-over-time curve (buildEstablishmentCurve in pkg/collector/aggregate.go). */
module Curve {

  /** Per-subscriber merge target; -1 marks an offset never seen. */
  datatype SubAgg = SubAgg(
    activated: int, established: int, terminal: string, authRetransmits: int, acctRetransmits: int)

  datatype CurvePoint = CurvePoint(offsetMs: int, activated: int, established: int, inFlight: int)

  type Subs = map<nat, SubAgg>

  /** The two series the curve accumulates. */
  datatype Series = Activated | Established

  function Offset(s: SubAgg, w: Series): int {
    match w
    case Activated => s.activated
    case Established => s.established
  }

  /** Subscribers with a non-negative offset below t. */
  function Before(subs: Subs, w: Series, t: int): set<nat> {
    set k | k in subs && 0 <= Offset(subs[k], w) < t
  }

  function Point(subs: Subs, t: int): CurvePoint {
    var a, e := |Before(subs, Activated, t)|, |Before(subs, Established, t)|;
    CurvePoint(t, a, e, a - e)
  }

  predicate InBucket(offset: int, bucketMs: int, b: int)
    requires bucketMs > 0
  {
    offset >= 0 && offset / bucketMs == b
  }

  /** Where bucket b begins: b bucket widths from the start. */
  function Edge(bucketMs: int, b: nat): (t: int)
    ensures t == b * bucketMs
  {
    if b == 0 then 0 else Edge(bucketMs, b - 1) + bucketMs
  }

  lemma {:induction false} EdgesGrow(bucketMs: int, a: nat, b: nat)
    requires bucketMs > 0 && a <= b
    ensures Edge(bucketMs, a) + (b - a) <= Edge(bucketMs, b)
    decreases b
  {
    if a < b { EdgesGrow(bucketMs, a, b - 1); }
  }

  lemma BucketBounds(offset: int, bucketMs: int, b: nat)
    requires bucketMs > 0 && offset >= 0
    ensures offset / bucketMs < b <==> offset < Edge(bucketMs, b)
  {
    var d := offset / bucketMs;
    assert Edge(bucketMs, d) <= offset < Edge(bucketMs, d + 1);
    if d < b { EdgesGrow(bucketMs, d + 1, b); } else { EdgesGrow(bucketMs, b, d); }
  }

  ghost predicate IsMax(subs: Subs, m: int) {
    && m >= 0
    && (forall k :: k in subs ==> subs[k].activated <= m && subs[k].established <= m)
    && (m > 0 ==> exists k :: k in subs && (subs[k].activated == m || subs[k].established == m))
  }

  /** The largest offset, by taking the rows out one at a time. */
  ghost function Largest(subs: Subs): (m: int)
    ensures IsMax(subs, m)
  {
    if subs == map[] then 0 else
      var k :| k in subs;
      var rest := Largest(subs - {k});
      var own := if subs[k].activated > subs[k].established then subs[k].activated else subs[k].established;
      assert forall j :: j in subs ==> j == k || j in subs - {k};
      assert forall j :: j in subs - {k} ==> j in subs && subs[j] == (subs - {k})[j];
      if own > rest then own else rest
  }

  method MaxOffset(subs: Subs) returns (m: int)
    ensures IsMax(subs, m)
  {
    m := 0;
    var todo := subs.Keys;
    while todo != {}
      invariant todo <= subs.Keys && m >= 0
      invariant forall k :: k in subs && k !in todo ==> subs[k].activated <= m && subs[k].established <= m
      invariant m > 0 ==> exists k :: k in subs && (subs[k].activated == m || subs[k].established == m)
      decreases todo
    {
      var k :| k in todo;
      if subs[k].activated > m { m := subs[k].activated; }
      if subs[k].established > m { m := subs[k].established; }
      todo := todo - {k};
    }
  }

  /** Those of `done` that fall into bucket b. */
  function In(subs: Subs, w: Series, done: set<nat>, bucketMs: int, b: int): set<nat>
    requires bucketMs > 0
  {
    set k | k in done && k in subs && InBucket(Offset(subs[k], w), bucketMs, b)
  }

  lemma AddOne(subs: Subs, w: Series, done: set<nat>, k: nat, bucketMs: int, b: int)
    requires bucketMs > 0 && k in subs && k !in done
    ensures |In(subs, w, done + {k}, bucketMs, b)|
            == |In(subs, w, done, bucketMs, b)| + if InBucket(Offset(subs[k], w), bucketMs, b) then 1 else 0
  {
    var was, now := In(subs, w, done, bucketMs, b), In(subs, w, done + {k}, bucketMs, b);
    if InBucket(Offset(subs[k], w), bucketMs, b) {
      assert now == was + {k};
    } else {
      assert now == was;
    }
  }

  lemma BucketStep(x: int, bucketMs: int, b: nat)
    requires bucketMs > 0 && x >= 0
    ensures x < Edge(bucketMs, b + 1) <==> x < Edge(bucketMs, b) || InBucket(x, bucketMs, b)
    ensures !(x < Edge(bucketMs, b) && InBucket(x, bucketMs, b))
  {
    BucketBounds(x, bucketMs, b);
    BucketBounds(x, bucketMs, b + 1);
  }

  /** One bucket more of the running sum. */
  lemma NextPoint(subs: Subs, w: Series, bucketMs: int, b: nat, edge: int, next: int)
    requires bucketMs > 0 && edge == Edge(bucketMs, b) && next == Edge(bucketMs, b + 1)
    ensures |Before(subs, w, next)| == |Before(subs, w, edge)| + |In(subs, w, subs.Keys, bucketMs, b)|
  {
    var below, here := Before(subs, w, edge), In(subs, w, subs.Keys, bucketMs, b);
    forall k | k in subs
      ensures k in Before(subs, w, next) <==> k in below || k in here
      ensures !(k in below && k in here)
    {
      if Offset(subs[k], w) >= 0 { BucketStep(Offset(subs[k], w), bucketMs, b); }
    }
    assert Before(subs, w, next) == below + here;
  }

  /** A histogram of the offsets in `done`. */
  ghost predicate Histogram(subs: Subs, w: Series, done: set<nat>, bucketMs: int, delta: seq<int>)
    requires bucketMs > 0
  {
    forall b :: 0 <= b < |delta| ==> delta[b] == |In(subs, w, done, bucketMs, b)|
  }

  /** One offset into its bucket, behind the bounds guard. */
  method CountOffset(delta: array<int>, bucketMs: int, subs: Subs, w: Series, ghost done: set<nat>, k: nat)
    requires bucketMs > 0 && k in subs && k !in done && Histogram(subs, w, done, bucketMs, delta[..])
    modifies delta
    ensures Histogram(subs, w, done + {k}, bucketMs, delta[..])
  {
    forall b: int
      ensures |In(subs, w, done + {k}, bucketMs, b)|
              == |In(subs, w, done, bucketMs, b)| + if InBucket(Offset(subs[k], w), bucketMs, b) then 1 else 0
    {
      AddOne(subs, w, done, k, bucketMs, b);
    }
    var offset := Offset(subs[k], w);
    if offset >= 0 {
      var b := offset / bucketMs;
      if 0 <= b < delta.Length {
        delta[b] := delta[b] + 1;
      }
    }
  }

  /** The two histograms, bucket by bucket. */
  method FillBuckets(subs: Subs, bucketMs: int, buckets: nat) returns (activated: array<int>, established: array<int>)
    requires bucketMs > 0
    ensures fresh(activated) && fresh(established) && activated.Length == established.Length == buckets
    ensures Histogram(subs, Activated, subs.Keys, bucketMs, activated[..])
    ensures Histogram(subs, Established, subs.Keys, bucketMs, established[..])
  {
    activated := new int[buckets](_ => 0);
    established := new int[buckets](_ => 0);
    var todo := subs.Keys;
    ghost var done: set<nat> := {};
    while todo != {}
      invariant done == subs.Keys - todo && todo <= subs.Keys
      invariant Histogram(subs, Activated, done, bucketMs, activated[..])
      invariant Histogram(subs, Established, done, bucketMs, established[..])
      decreases todo
    {
      var k :| k in todo;
      CountOffset(activated, bucketMs, subs, Activated, done, k);
      CountOffset(established, bucketMs, subs, Established, done, k);
      todo := todo - {k};
      done := done + {k};
    }
    assert done == subs.Keys;
  }

  ghost predicate Points(subs: Subs, bucketMs: int, out: seq<CurvePoint>) {
    forall b :: 0 <= b < |out| ==> out[b] == Point(subs, Edge(bucketMs, b))
  }

  /** The whole curve: one direct count per point, up to the first point past every offset. */
  ghost predicate IsCurve(subs: Subs, bucketMs: int, out: seq<CurvePoint>) {
    if |subs| == 0 || bucketMs <= 0 then out == []
    else
      exists m :: IsMax(subs, m) && |out| == m / bucketMs + 2
        && Points(subs, bucketMs, out)
  }

  /** A running sum over both histograms. */
  method Accumulate(subs: Subs, bucketMs: int, activated: seq<int>, established: seq<int>)
    returns (out: seq<CurvePoint>)
    requires bucketMs > 0 && |activated| == |established|
    requires Histogram(subs, Activated, subs.Keys, bucketMs, activated)
    requires Histogram(subs, Established, subs.Keys, bucketMs, established)
    ensures |out| == |activated| + 1
    ensures Points(subs, bucketMs, out)
  {
    out := [CurvePoint(0, 0, 0, 0)];
    var cumAct, cumEst := 0, 0;
    ghost var edge := 0;
    assert Before(subs, Activated, 0) == {} && Before(subs, Established, 0) == {};
    for b := 0 to |activated|
      invariant |out| == b + 1 && edge == Edge(bucketMs, b)
      invariant cumAct == |Before(subs, Activated, edge)| && cumEst == |Before(subs, Established, edge)|
      invariant Points(subs, bucketMs, out)
    {
      ghost var next := Edge(bucketMs, b + 1);
      NextPoint(subs, Activated, bucketMs, b, edge, next);
      NextPoint(subs, Established, bucketMs, b, edge, next);
      cumAct := cumAct + activated[b];
      cumEst := cumEst + established[b];
      var point := CurvePoint((b + 1) * bucketMs, cumAct, cumEst, cumAct - cumEst);
      assert point == Point(subs, next);
      out := out + [point];
      edge := next;
    }
  }

  method BuildEstablishmentCurve(subs: Subs, bucketMs: int) returns (out: seq<CurvePoint>)
    ensures IsCurve(subs, bucketMs, out)
  {
    if |subs| == 0 || bucketMs <= 0 {
      return [];
    }
    var maxOff := MaxOffset(subs);
    var buckets := maxOff / bucketMs + 1;
    if buckets < 1 { buckets := 1; }
    var activated, established := FillBuckets(subs, bucketMs, buckets);
    out := Accumulate(subs, bucketMs, activated[..], established[..]);
  }

  /** Every offset lies below the last point, so none is lost to the bucket guard. */
  lemma LastPoint(subs: Subs, w: Series, bucketMs: int, m: int, last: nat)
    requires bucketMs > 0 && IsMax(subs, m) && last == m / bucketMs + 1
    ensures Before(subs, w, Edge(bucketMs, last)) == set k | k in subs && Offset(subs[k], w) >= 0
  {
    BucketBounds(m, bucketMs, last);
  }

  /**
   Both series are monotone, no subscriber is lost: the last point counts every one that has an
   offset at all, and in_flight is never negative when each established one was activated no later.
   */
  lemma CurveProperties(subs: Subs, bucketMs: int, out: seq<CurvePoint>)
    requires IsCurve(subs, bucketMs, out) && |subs| > 0 && bucketMs > 0
    ensures |out| >= 2 && out[0] == CurvePoint(0, 0, 0, 0)
    ensures forall a, b :: 0 <= a < b < |out| ==>
              out[a].activated <= out[b].activated && out[a].established <= out[b].established
    ensures out[|out| - 1].activated == |set k | k in subs && subs[k].activated >= 0|
    ensures out[|out| - 1].established == |set k | k in subs && subs[k].established >= 0|
    ensures (forall k :: k in subs && subs[k].established >= 0 ==> 0 <= subs[k].activated <= subs[k].established) ==>
              forall b :: 0 <= b < |out| ==> out[b].inFlight >= 0
  {
    var m :| IsMax(subs, m) && |out| == m / bucketMs + 2
        && Points(subs, bucketMs, out);
    LastCounts(subs, bucketMs, m, |out| - 1);
    assert Before(subs, Activated, 0) == {} && Before(subs, Established, 0) == {};
    assert out[0] == Point(subs, Edge(bucketMs, 0));
    forall a, b | 0 <= a < b < |out|
      ensures out[a].activated <= out[b].activated && out[a].established <= out[b].established
    {
      PointsGrow(subs, bucketMs, a, b);
    }
    if forall k :: k in subs && subs[k].established >= 0 ==> 0 <= subs[k].activated <= subs[k].established {
      forall b | 0 <= b < |out| ensures out[b].inFlight >= 0 {
        SubsetSize(Before(subs, Established, Edge(bucketMs, b)), Before(subs, Activated, Edge(bucketMs, b)));
      }
    }
  }

  lemma LastCounts(subs: Subs, bucketMs: int, m: int, last: nat)
    requires bucketMs > 0 && IsMax(subs, m) && last == m / bucketMs + 1
    ensures Point(subs, Edge(bucketMs, last)).activated == |set k | k in subs && subs[k].activated >= 0|
    ensures Point(subs, Edge(bucketMs, last)).established == |set k | k in subs && subs[k].established >= 0|
  {
    LastPoint(subs, Activated, bucketMs, m, last);
    LastPoint(subs, Established, bucketMs, m, last);
    assert (set k | k in subs && Offset(subs[k], Activated) >= 0) == set k | k in subs && subs[k].activated >= 0;
    assert (set k | k in subs && Offset(subs[k], Established) >= 0) == set k | k in subs && subs[k].established >= 0;
  }

  lemma PointsGrow(subs: Subs, bucketMs: int, a: nat, b: nat)
    requires bucketMs > 0 && a <= b
    ensures Point(subs, Edge(bucketMs, a)).activated <= Point(subs, Edge(bucketMs, b)).activated
    ensures Point(subs, Edge(bucketMs, a)).established <= Point(subs, Edge(bucketMs, b)).established
  {
    EdgesGrow(bucketMs, a, b);
    SubsetSize(Before(subs, Activated, Edge(bucketMs, a)), Before(subs, Activated, Edge(bucketMs, b)));
    SubsetSize(Before(subs, Established, Edge(bucketMs, a)), Before(subs, Established, Edge(bucketMs, b)));
  }

  lemma SubsetSize(a: set<nat>, b: set<nat>)
    requires a <= b
    ensures |a| <= |b|
  {
    assert b == a + (b - a);
  }

  /** The curve as a function of the subscribers and the bucket width. */
  ghost function CurveOf(subs: Subs, bucketMs: int): (out: seq<CurvePoint>)
    ensures IsCurve(subs, bucketMs, out)
  {
    if |subs| == 0 || bucketMs <= 0 then []
    else
      var m := Largest(subs);
      var out := seq(m / bucketMs + 2, (b: nat) => Point(subs, Edge(bucketMs, b)));
      assert Points(subs, bucketMs, out);
      out
  }

  /** The curve is determined by the subscribers and the bucket width. */
  lemma CurveUnique(subs: Subs, bucketMs: int, a: seq<CurvePoint>, b: seq<CurvePoint>)
    requires IsCurve(subs, bucketMs, a) && IsCurve(subs, bucketMs, b)
    ensures a == b
  {
  }
}
