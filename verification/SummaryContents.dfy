/**
 What every field of the summary says about the stream of events itself, whatever the number of shards
 (the summary built in pkg/collector/aggregate.go).
 */
module SummaryContents {
  import opened Wrappers
  import opened Observation
  import opened Aggregate
  import Curve
  import Percentile

  // ---- Samples, one for each key ----

  function AtMost(m: map<nat, int>, v: int): set<nat> {
    set k | k in m && m[k] <= v
  }

  function Less(m: map<nat, int>, v: int): set<nat> {
    set k | k in m && m[k] < v
  }

  /** One of the samples, with at least the fraction q of them at most it and less than that below it. */
  predicate Nearest(m: map<nat, int>, q: real, v: int) {
    v in m.Values && |Less(m, v)| as real < q * |m| as real <= |AtMost(m, v)| as real
  }

  predicate Between(m: map<nat, int>, least: int, greatest: int) {
    least in m.Values && greatest in m.Values && forall k :: k in m ==> least <= m[k] <= greatest
  }

  /** All zero without samples; otherwise the extremes and the nearest ranks of exactly these. */
  predicate Describes(d: Percentile.Distribution, m: map<nat, int>) {
    if m == map[] then d == Percentile.Distribution(0, 0, 0, 0, 0, 0)
    else
      && Between(m, d.min, d.max)
      && Nearest(m, 0.50, d.p50) && Nearest(m, 0.95, d.p95) && Nearest(m, 0.99, d.p99) && Nearest(m, 0.999, d.p999)
  }

  lemma SameMap(m: map<nat, int>, other: map<nat, int>)
    requires forall k: nat :: k in m <==> k in other
    requires forall k: nat :: k in m ==> m[k] == other[k]
    ensures m == other
  {
    assert m.Keys == other.Keys;
  }

  lemma OnlyWith(m: map<nat, int>, k: nat, v: int)
    requires k !in m
    ensures Only(m[k := v], m.Keys) == m && Only(m[k := v], m.Keys + {k}) == m[k := v]
  {
    SameMap(Only(m[k := v], m.Keys), m);
    SameMap(Only(m[k := v], m.Keys + {k}), m[k := v]);
  }

  lemma BagWith(m: map<nat, int>, k: nat, v: int)
    requires k !in m
    ensures Bag(m[k := v]) == Bag(m) + multiset{v}
  {
    OnlyWith(m, k, v);
    BagOne(m[k := v], m.Keys, k);
  }

  lemma AtMostWith(m: map<nat, int>, k: nat, x: int, v: int)
    requires k !in m
    ensures |AtMost(m[k := x], v)| == |AtMost(m, v)| + if x <= v then 1 else 0
  {
    assert AtMost(m[k := x], v) == AtMost(m, v) + if x <= v then {k} else {};
  }

  lemma Minus(bag: multiset<int>, rest: multiset<int>, x: int)
    requires bag == rest + multiset{x}
    ensures bag - multiset{x} == rest && x in bag
  {
  }

  lemma TakeOne(m: map<nat, int>, k: nat, v: int)
    requires k in m
    ensures |AtMost(m, v)| == |AtMost(m - {k}, v)| + if m[k] <= v then 1 else 0
    ensures Bag(m - {k}) == Bag(m) - multiset{m[k]} && m[k] in Bag(m)
  {
    var rest, x := m - {k}, m[k];
    assert m == rest[k := x];
    BagWith(rest, k, x);
    AtMostWith(rest, k, x, v);
    Minus(Bag(m), Bag(rest), x);
  }

  lemma {:induction false} CountsKeys(samples: seq<int>, m: map<nat, int>, v: int)
    requires multiset(samples) == Bag(m)
    ensures Percentile.CountAtMost(samples, v) == |AtMost(m, v)|
    decreases |m|
  {
    BagTallies(m);
    if m == map[] {
      assert |multiset(samples)| == 0;
    } else {
      var k :| k in m;
      TakeOne(m, k, v);
      var i :| 0 <= i < |samples| && samples[i] == m[k];
      Percentile.RemoveAt(samples, i, v);
      assert |m - {k}| < |m| by { BagStep(m, k); }
      CountsKeys(samples[..i] + samples[i + 1..], m - {k}, v);
    }
  }

  lemma Sample(m: map<nat, int>, v: int)
    ensures v in Bag(m) <==> v in m.Values
  {
    BagTallies(m);
    if v in m.Values {
      var k :| k in m && m[k] == v;
      assert k in Holders(m, v);
    } else {
      assert Holders(m, v) == {};
    }
  }

  lemma RankBounds(samples: seq<int>, q: real, v: int)
    requires Percentile.NearestRank(samples, q, v)
    ensures v in samples
    ensures Percentile.CountAtMost(samples, v - 1) as real
            < q * |samples| as real <= Percentile.CountAtMost(samples, v) as real
  {
    var rank := Percentile.Rank(q, |samples|);
  }

  lemma KeyCounts(samples: seq<int>, m: map<nat, int>, v: int)
    requires multiset(samples) == Bag(m)
    ensures |samples| == |m| && (v in samples ==> v in m.Values)
    ensures Percentile.CountAtMost(samples, v - 1) == |Less(m, v)|
    ensures Percentile.CountAtMost(samples, v) == |AtMost(m, v)|
  {
    CountsKeys(samples, m, v);
    CountsKeys(samples, m, v - 1);
    assert AtMost(m, v - 1) == Less(m, v);
    SampleCount(samples, m);
    assert v in samples ==> v in multiset(samples);
    Sample(m, v);
  }

  lemma RankIsNearest(samples: seq<int>, m: map<nat, int>, q: real, v: int)
    requires multiset(samples) == Bag(m) && Percentile.NearestRank(samples, q, v)
    ensures Nearest(m, q, v)
  {
    KeyCounts(samples, m, v);
    RankBounds(samples, q, v);
  }

  lemma SampleCount(samples: seq<int>, m: map<nat, int>)
    requires multiset(samples) == Bag(m)
    ensures |samples| == |m|
  {
    BagTallies(m);
    assert |samples| == |multiset(samples)|;
  }

  /** The distribution of the bag of a table's values describes the table. */
  lemma DistDescribes(m: map<nat, int>)
    ensures Describes(Dist(Bag(m)), m)
  {
    var samples := Listing(Bag(m));
    SampleCount(samples, m);
    if m != map[] {
      Percentile.DistributionOrdered(samples);
      var d := Dist(Bag(m));
      RankIsNearest(samples, m, 0.50, d.p50);
      RankIsNearest(samples, m, 0.95, d.p95);
      RankIsNearest(samples, m, 0.99, d.p99);
      RankIsNearest(samples, m, 0.999, d.p999);
      ExtremesAre(samples, m, d.min, d.max);
    }
  }

  lemma ExtremesAre(samples: seq<int>, m: map<nat, int>, least: int, greatest: int)
    requires multiset(samples) == Bag(m) && least in samples && greatest in samples
    requires forall x :: x in samples ==> least <= x <= greatest
    ensures Between(m, least, greatest)
  {
    Sample(m, least);
    Sample(m, greatest);
    assert least in multiset(samples) && greatest in multiset(samples);
    forall k | k in m ensures least <= m[k] <= greatest {
      assert m[k] in m.Values;
      Sample(m, m[k]);
      assert m[k] in multiset(samples);
      assert m[k] in samples;
    }
  }

  /** At most one value is the nearest rank of a fraction. */
  lemma NearestUnique(m: map<nat, int>, q: real, v: int, w: int)
    requires Nearest(m, q, v) && Nearest(m, q, w)
    ensures v == w
  {
    if v < w { Curve.SubsetSize(AtMost(m, v), Less(m, w)); }
    if w < v { Curve.SubsetSize(AtMost(m, w), Less(m, v)); }
  }

  // ---- The summary from a single pass ----

  /** The summary at any number of shards, from the counters of a single pass. */
  lemma FromFold(es: seq<Event>, n: nat, bucketMs: int)
    requires n > 0
    ensures var a := Fold(es);
            SummaryOf(Sharded(es, n), bucketMs)
            == SummaryFrom(a, Bag(a.terminal), Dist(Bag(a.established)), bucketMs)
  {
    ShardedParts(es, n);
  }

  // ---- Requests and answers of the receive side ----

  predicate Timed(e: Event, category: Category, ack: EventType, nak: EventType) {
    e.category == category && (e.eventType == ack || e.eventType == nak) && e.latencyUs > 0
  }

  /** The positive latencies of the answers of one direction, by their place in the stream. */
  function Latencies(es: seq<Event>, category: Category, ack: EventType, nak: EventType): map<nat, int> {
    map i: nat | 0 <= i < |es| && Timed(es[i], category, ack, nak) :: es[i].latencyUs
  }

  predicate IsLatency(m: map<nat, int>, es: seq<Event>, category: Category, ack: EventType, nak: EventType, i: nat) {
    && (i in m <==> i < |es| && Timed(es[i], category, ack, nak))
    && (i in m ==> m[i] == es[i].latencyUs)
  }

  lemma SameLatencies(m: map<nat, int>, es: seq<Event>, category: Category, ack: EventType, nak: EventType)
    requires forall i: nat :: IsLatency(m, es, category, ack, nak, i)
    ensures m == Latencies(es, category, ack, nak)
  {
    var now := Latencies(es, category, ack, nak);
    forall i: nat ensures (i in m <==> i in now) && (i in m ==> m[i] == now[i]) {
      assert IsLatency(m, es, category, ack, nak, i);
    }
    SameMap(m, now);
  }

  function Taken(was: map<nat, int>, at: nat, e: Event, category: Category, ack: EventType, nak: EventType)
    : map<nat, int>
  {
    if Timed(e, category, ack, nak) then was[at := e.latencyUs] else was
  }

  lemma StillLatency(
    was: map<nat, int>, es: seq<Event>, e: Event, category: Category, ack: EventType, nak: EventType, i: nat)
    requires IsLatency(was, es, category, ack, nak, i)
    ensures IsLatency(Taken(was, |es|, e, category, ack, nak), es + [e], category, ack, nak, i)
  {
    assert i < |es| ==> (es + [e])[i] == es[i];
  }

  lemma LatenciesWith(es: seq<Event>, e: Event, category: Category, ack: EventType, nak: EventType)
    ensures Latencies(es + [e], category, ack, nak)
            == Taken(Latencies(es, category, ack, nak), |es|, e, category, ack, nak)
  {
    var was := Latencies(es, category, ack, nak);
    forall i: nat ensures IsLatency(Taken(was, |es|, e, category, ack, nak), es + [e], category, ack, nak, i) {
      assert IsLatency(was, es, category, ack, nak, i);
      StillLatency(was, es, e, category, ack, nak, i);
    }
    SameLatencies(Taken(was, |es|, e, category, ack, nak), es + [e], category, ack, nak);
  }

  lemma LatenciesStep(es: seq<Event>, e: Event, category: Category, ack: EventType, nak: EventType)
    ensures Bag(Latencies(es + [e], category, ack, nak))
            == Sampled(Bag(Latencies(es, category, ack, nak)), if Timed(e, category, ack, nak) then e.latencyUs else 0)
  {
    LatenciesWith(es, e, category, ack, nak);
    if Timed(e, category, ack, nak) { BagWith(Latencies(es, category, ack, nak), |es|, e.latencyUs); }
  }

  lemma SamplesTaken(t: Traffic, e: Event)
    ensures CoA(t, e).latencies
            == Sampled(t.latencies, if e.eventType == CoAAcked || e.eventType == CoANaked then e.latencyUs else 0)
    ensures Disconnect(t, e).latencies
            == Sampled(t.latencies,
                       if e.eventType == DisconnectAcked || e.eventType == DisconnectNaked then e.latencyUs else 0)
    ensures Disconnect(t, e).dropped == t.dropped
  {
  }

  lemma {:induction false} FoldSamples(es: seq<Event>)
    ensures Fold(es).coa.latencies == Bag(Latencies(es, CoAInbound, CoAAcked, CoANaked))
    ensures Fold(es).disconnect.latencies == Bag(Latencies(es, DisconnectInbound, DisconnectAcked, DisconnectNaked))
    ensures Fold(es).disconnect.dropped == 0
  {
    if es == [] {
      assert Latencies(es, CoAInbound, CoAAcked, CoANaked) == map[];
      assert Latencies(es, DisconnectInbound, DisconnectAcked, DisconnectNaked) == map[];
    } else {
      var init, e := es[..|es| - 1], es[|es| - 1];
      assert es == init + [e];
      FoldSamples(init);
      ObservedTraffic(Fold(init), e);
      SamplesTaken(Fold(init).coa, e);
      SamplesTaken(Fold(init).disconnect, e);
      LatenciesStep(init, e, CoAInbound, CoAAcked, CoANaked);
      LatenciesStep(init, e, DisconnectInbound, DisconnectAcked, DisconnectNaked);
    }
  }

  /** Every request and answer counter of the summary counts the events of its own category and type. */
  lemma TrafficReported(es: seq<Event>, n: nat, bucketMs: int)
    requires n > 0
    ensures var s := SummaryOf(Sharded(es, n), bucketMs);
            && s.coa.received == CountOf(es, CoAInbound, CoAReceived)
            && s.coa.acked == CountOf(es, CoAInbound, CoAAcked)
            && s.coa.naked == CountOf(es, CoAInbound, CoANaked)
            && s.coa.dropped == CountOf(es, CoAInbound, CoADropped)
            && s.disconnect.received == CountOf(es, DisconnectInbound, DisconnectReceived)
            && s.disconnect.acked == CountOf(es, DisconnectInbound, DisconnectAcked)
            && s.disconnect.naked == CountOf(es, DisconnectInbound, DisconnectNaked)
            && s.disconnect.dropped == 0
            && s.retransmits.total == CountOf(es, PacketOutbound, RequestRetransmitted)
  {
    FromFold(es, n, bucketMs);
    FoldCounts(es);
    FoldSamples(es);
  }

  /** No distribution without a positive latency, else that of exactly those. */
  predicate LatencyReported(latency: Option<Percentile.Distribution>, m: map<nat, int>) {
    if m == map[] then latency == None else latency.Some? && Describes(latency.value, m)
  }

  lemma SectionReports(t: Traffic, m: map<nat, int>)
    requires t.latencies == Bag(m)
    ensures LatencyReported(SectionOf(t).latency, m)
  {
    BagTallies(m);
    DistDescribes(m);
  }

  lemma LatenciesReported(es: seq<Event>, n: nat, bucketMs: int)
    requires n > 0
    ensures var s := SummaryOf(Sharded(es, n), bucketMs);
            && LatencyReported(s.coa.latency, Latencies(es, CoAInbound, CoAAcked, CoANaked))
            && LatencyReported(s.disconnect.latency,
                               Latencies(es, DisconnectInbound, DisconnectAcked, DisconnectNaked))
  {
    FromFold(es, n, bucketMs);
    FoldSamples(es);
    SectionReports(Fold(es).coa, Latencies(es, CoAInbound, CoAAcked, CoANaked));
    SectionReports(Fold(es).disconnect, Latencies(es, DisconnectInbound, DisconnectAcked, DisconnectNaked));
  }

  // ---- Subscribers ----

  /** Everyone with an event, subscriber 0 only if one of its events enters it in a table. */
  function Everyone(es: seq<Event>): set<nat> {
    set e | e in es && (e.sub != 0 || Tabled(e)) :: e.sub
  }

  lemma EveryoneHasARow(es: seq<Event>, k: nat)
    ensures k in RowKeys(Fold(es)) <==> k in Everyone(es)
  {
    RowKeysExactly(es, k);
  }

  /** The offset of the first event of its kind. */
  ghost function First(es: seq<Event>, kind: Kind, k: nat): Option<int> {
    if exists i :: FirstAt(es, kind, k, i) then
      var i :| FirstAt(es, kind, k, i);
      Some(es[i].offsetMs)
    else None
  }

  /** The state of the last terminal event. */
  ghost function LastState(es: seq<Event>, k: nat): Option<string> {
    if exists i :: LastAt(es, Ending, k, i) then
      var i :| LastAt(es, Ending, k, i);
      Some(es[i].state)
    else None
  }

  /** What the tables of a single pass hold for each subscriber. */
  lemma TablesHold(es: seq<Event>, k: nat)
    ensures var a := Fold(es);
            && First(es, Activation, k) == (if k in a.activated then Some(a.activated[k]) else None)
            && First(es, Establishment, k) == (if k in a.established then Some(a.established[k]) else None)
            && LastState(es, k) == (if k in a.terminal then Some(a.terminal[k]) else None)
  {
    FoldRemembers(es, k);
  }

  predicate Within(offset: Option<int>, t: int) {
    offset.Some? && 0 <= offset.value < t
  }

  predicate Known(offset: Option<int>) {
    offset.Some? && offset.value >= 0
  }

  /** Retransmissions of one subscriber, each code in a 32-bit counter. */
  function Repeats(es: seq<Event>, k: nat): int {
    Int32(Retransmissions(es, k, 1)) + Int32(Retransmissions(es, k, 4))
  }

  /** One row of the merged table, from the events of its subscriber. */
  lemma RowReports(es: seq<Event>, k: nat)
    ensures k in Rows(Fold(es)) <==> k in Everyone(es)
    ensures var row := Row(Fold(es), k);
            && row.activated == (if First(es, Activation, k).Some? then First(es, Activation, k).value else -1)
            && row.established == (if First(es, Establishment, k).Some? then First(es, Establishment, k).value else -1)
            && row.terminal == (if LastState(es, k).Some? then LastState(es, k).value else "")
            && row.authRetransmits == Int32(Retransmissions(es, k, 1))
            && row.acctRetransmits == Int32(Retransmissions(es, k, 4))
  {
    EveryoneHasARow(es, k);
    TablesHold(es, k);
    FoldCountsRetransmissions(es, k);
  }

  // ---- The subscribers section ----

  ghost function Ended(es: seq<Event>, state: string): set<nat> {
    set k | k in Everyone(es) && LastState(es, k) == Some(state)
  }

  lemma EndedAre(es: seq<Event>, state: string)
    ensures Bag(Fold(es).terminal)[state] == |Ended(es, state)|
  {
    BagTallies(Fold(es).terminal);
    forall k: nat ensures k in Holders(Fold(es).terminal, state) <==> k in Ended(es, state) {
      TablesHold(es, k);
      EveryoneHasARow(es, k);
    }
    assert Holders(Fold(es).terminal, state) == Ended(es, state);
  }

  ghost function Unended(es: seq<Event>): set<nat> {
    set k | k in Everyone(es) && LastState(es, k) == None
  }

  lemma UnendedAre(es: seq<Event>)
    ensures |Rows(Fold(es))| == |Everyone(es)|
    ensures RowKeys(Fold(es)) - Fold(es).terminal.Keys == Unended(es)
  {
    var a := Fold(es);
    forall k: nat
      ensures k in Rows(a).Keys <==> k in Everyone(es)
      ensures k in RowKeys(a) - a.terminal.Keys <==> k in Unended(es)
    {
      RowReports(es, k);
      TablesHold(es, k);
    }
    assert Rows(a).Keys == Everyone(es);
  }

  lemma InFlightReported(es: seq<Event>, n: nat, bucketMs: int)
    requires n > 0
    ensures SummaryOf(Sharded(es, n), bucketMs).stillInFlight == |Unended(es)|
  {
    SubscribersAddUp(es, n, bucketMs);
    UnendedAre(es);
  }

  /** Each subscriber is counted under the state of its last terminal event, or in flight without one. */
  lemma SubscribersReported(es: seq<Event>, n: nat, bucketMs: int)
    requires n > 0
    ensures var s := SummaryOf(Sharded(es, n), bucketMs);
            && s.total == |Everyone(es)| && s.stillInFlight == |Unended(es)|
            && s.established == |Ended(es, "established")| && s.authFailed == |Ended(es, "auth_failed")|
            && s.acctFailed == |Ended(es, "acct_failed")| && s.terminated == |Ended(es, "terminated")|
  {
    InFlightReported(es, n, bucketMs);
    FromFold(es, n, bucketMs);
    UnendedAre(es);
    EndedAre(es, "established");
    EndedAre(es, "auth_failed");
    EndedAre(es, "acct_failed");
    EndedAre(es, "terminated");
  }

  // ---- The establishment section ----

  /** First offsets of one kind. */
  ghost function Offsets(es: seq<Event>, kind: Kind): map<nat, int> {
    map k | k in Everyone(es) && First(es, kind, k).Some? :: First(es, kind, k).value
  }

  lemma EstablishedAre(es: seq<Event>)
    ensures Fold(es).established == Offsets(es, Establishment)
  {
    var m := Offsets(es, Establishment);
    forall k: nat
      ensures k in Fold(es).established <==> k in m
      ensures k in m ==> Fold(es).established[k] == m[k]
    {
      TablesHold(es, k);
      EveryoneHasARow(es, k);
    }
    SameMap(Fold(es).established, m);
  }

  /** The times to first and full establishment are the least and greatest first-established offset; 0 without one. */
  lemma TimesReported(es: seq<Event>, n: nat, bucketMs: int)
    requires n > 0
    ensures var s, offsets := SummaryOf(Sharded(es, n), bucketMs), Offsets(es, Establishment);
            if offsets == map[] then s.timeToFirstMs == s.timeToFullMs == 0
            else Between(offsets, s.timeToFirstMs, s.timeToFullMs)
  {
    FromFold(es, n, bucketMs);
    EstablishedAre(es);
    DistDescribes(Offsets(es, Establishment));
  }

  /** From activation to establishment, of the subscribers with both offsets. */
  ghost function Setups(es: seq<Event>): map<nat, int> {
    map k | k in Everyone(es) && Known(First(es, Activation, k)) && Known(First(es, Establishment, k))
      :: First(es, Establishment, k).value - First(es, Activation, k).value
  }

  lemma SetupsAre(es: seq<Event>)
    ensures SetupTimes(Rows(Fold(es))) == Setups(es)
  {
    var rows, m := SetupTimes(Rows(Fold(es))), Setups(es);
    forall k: nat ensures (k in rows <==> k in m) && (k in m ==> rows[k] == m[k]) { RowReports(es, k); }
    SameMap(rows, m);
  }

  lemma SetupLatencyReported(es: seq<Event>, n: nat, bucketMs: int)
    requires n > 0
    ensures Describes(SummaryOf(Sharded(es, n), bucketMs).latencyMs, Setups(es))
  {
    FromFold(es, n, bucketMs);
    SetupsAre(es);
    DistDescribes(Setups(es));
  }

  /** Those whose first event of a kind lies in the first t milliseconds. */
  ghost function Until(es: seq<Event>, kind: Kind, t: int): set<nat> {
    set k | k in Everyone(es) && Within(First(es, kind, k), t)
  }

  lemma UntilAre(es: seq<Event>, t: int)
    ensures Curve.Before(Rows(Fold(es)), Curve.Activated, t) == Until(es, Activation, t)
    ensures Curve.Before(Rows(Fold(es)), Curve.Established, t) == Until(es, Establishment, t)
  {
    var rows := Rows(Fold(es));
    forall k: nat
      ensures k in Curve.Before(rows, Curve.Activated, t) <==> k in Until(es, Activation, t)
      ensures k in Curve.Before(rows, Curve.Established, t) <==> k in Until(es, Establishment, t)
    {
      RowReports(es, k);
    }
  }

  predicate PointReports(p: Curve.CurvePoint, t: int, activated: int, established: int) {
    p.offsetMs == t && p.activated == activated && p.established == established
    && p.inFlight == activated - established
  }

  /** Every offset lies before the last point, and some offset in the last bucket, if there is more than one. */
  ghost predicate Reaches(es: seq<Event>, last: int, width: int) {
    && (forall k, kind :: k in Everyone(es) && First(es, kind, k).Some? && kind != Ending ==>
          First(es, kind, k).value < last)
    && (last == width
        || exists k, kind :: k in Everyone(es) && First(es, kind, k).Some? && kind != Ending
                             && First(es, kind, k).value >= last - width)
  }

  lemma LastEdge(m: int, width: int, last: int)
    requires width > 0 && m >= 0 && last == (m / width + 1) * width
    ensures last - width <= m < last && (m == 0 ==> last == width)
  {
  }

  lemma LastReaches(es: seq<Event>, m: int, width: int, last: int)
    requires width > 0 && Curve.IsMax(Rows(Fold(es)), m) && last == (m / width + 1) * width
    ensures Reaches(es, last, width)
  {
    var rows := Rows(Fold(es));
    LastEdge(m, width, last);
    forall k, kind | k in Everyone(es) && First(es, kind, k).Some? && kind != Ending
      ensures First(es, kind, k).value < last
    {
      RowReports(es, k);
      assert rows[k].activated <= m && rows[k].established <= m;
    }
    if m > 0 {
      var k :| k in rows && (rows[k].activated == m || rows[k].established == m);
      RowReports(es, k);
      var kind := if rows[k].activated == m then Activation else Establishment;
      assert First(es, kind, k).Some? && First(es, kind, k).value == m;
    }
  }

  ghost predicate CurveReports(es: seq<Event>, curve: seq<Curve.CurvePoint>, width: int) {
    && (Everyone(es) == {} ==> curve == [])
    && (Everyone(es) != {} ==> |curve| >= 2 && Reaches(es, (|curve| - 1) * width, width))
    && AllCount(es, curve, width)
  }

  ghost predicate AllCount(es: seq<Event>, curve: seq<Curve.CurvePoint>, width: int) {
    forall b :: 0 <= b < |curve| ==> CountsUntil(es, curve[b], b * width)
  }

  ghost predicate CountsUntil(es: seq<Event>, p: Curve.CurvePoint, t: int) {
    PointReports(p, t, |Until(es, Activation, t)|, |Until(es, Establishment, t)|)
  }

  lemma PointCounts(es: seq<Event>, width: int, b: nat)
    ensures CountsUntil(es, Curve.Point(Rows(Fold(es)), Curve.Edge(width, b)), b * width)
  {
    UntilAre(es, b * width);
  }

  lemma AllPoints(es: seq<Event>, width: int, curve: seq<Curve.CurvePoint>)
    requires Curve.Points(Rows(Fold(es)), width, curve)
    ensures AllCount(es, curve, width)
  {
    forall b | 0 <= b < |curve| ensures CountsUntil(es, curve[b], b * width) { PointCounts(es, width, b); }
  }

  lemma LargestOffset(width: int, rows: Curve.Subs, curve: seq<Curve.CurvePoint>) returns (m: int)
    requires width > 0 && |rows| > 0 && Curve.IsCurve(rows, width, curve)
    ensures Curve.IsMax(rows, m) && |curve| == m / width + 2 && Curve.Points(rows, width, curve)
  {
    m :| Curve.IsMax(rows, m) && |curve| == m / width + 2 && Curve.Points(rows, width, curve);
  }

  lemma CurveLength(es: seq<Event>, width: int, m: int, points: nat)
    requires width > 0 && Curve.IsMax(Rows(Fold(es)), m) && points == m / width + 2
    ensures points >= 2 && Reaches(es, (points - 1) * width, width)
  {
    LastReaches(es, m, width, (points - 1) * width);
  }

  lemma NoneIsEmpty(s: set<nat>)
    ensures |s| == 0 <==> s == {}
  {
  }

  lemma CurveOfRows(es: seq<Event>, width: int, rows: Curve.Subs, curve: seq<Curve.CurvePoint>)
    requires width > 0 && rows == Rows(Fold(es)) && Curve.IsCurve(rows, width, curve)
    ensures CurveReports(es, curve, width)
  {
    UnendedAre(es);
    NoneIsEmpty(Everyone(es));
    if |rows| > 0 {
      var m := LargestOffset(width, rows, curve);
      CurveLength(es, width, m, |curve|);
      AllPoints(es, width, curve);
    }
  }

  /**
   The curve: one point for each multiple of the bucket width, counting the subscribers first activated and first
   established before it, up to the first that lies behind every offset.
   */
  lemma CurveReported(es: seq<Event>, n: nat, bucketMs: int)
    requires n > 0
    ensures CurveReports(es, SummaryOf(Sharded(es, n), bucketMs).curve, if bucketMs <= 0 then 1000 else bucketMs)
  {
    FromFold(es, n, bucketMs);
    var rows, width := Rows(Fold(es)), if bucketMs <= 0 then 1000 else bucketMs;
    CurveOfRows(es, width, rows, Curve.CurveOf(rows, width));
  }

  // ---- The retransmissions section ----

  function RepeatsOf(es: seq<Event>): map<nat, int> {
    map k | k in Everyone(es) :: Repeats(es, k)
  }

  lemma RepeatsAre(es: seq<Event>)
    ensures RetransmitTotals(Rows(Fold(es))) == RepeatsOf(es)
    ensures Retransmitting(Rows(Fold(es))) == set k | k in Everyone(es) && Repeats(es, k) > 0
  {
    var rows, m := RetransmitTotals(Rows(Fold(es))), RepeatsOf(es);
    forall k: nat
      ensures (k in rows <==> k in m) && (k in m ==> rows[k] == m[k])
      ensures k in Retransmitting(Rows(Fold(es))) <==> k in Everyone(es) && Repeats(es, k) > 0
    {
      RowReports(es, k);
    }
    SameMap(rows, m);
  }

  /** A 32-bit counter shows what was counted, up to multiples of 2^32. */
  lemma CounterShows(x: int)
    ensures -0x8000_0000 <= Int32(x) < 0x8000_0000 && (Int32(x) - x) % 0x1_0000_0000 == 0
    ensures -0x8000_0000 <= x < 0x8000_0000 ==> Int32(x) == x
  {
  }

  predicate RetransmitsReport(r: Retransmits, d: Percentile.Distribution) {
    r.p50 == Int32(d.p50) && r.p95 == Int32(d.p95) && r.p99 == Int32(d.p99) && r.max == Int32(d.max)
  }

  lemma RetransmitsReported(es: seq<Event>, n: nat, bucketMs: int)
    requires n > 0
    ensures var r := SummaryOf(Sharded(es, n), bucketMs).retransmits;
            && r.subscribers == |set k | k in Everyone(es) && Repeats(es, k) > 0|
            && exists d :: Describes(d, RepeatsOf(es)) && RetransmitsReport(r, d)
  {
    FromFold(es, n, bucketMs);
    RepeatsAre(es);
    DistDescribes(RepeatsOf(es));
    assert RetransmitsReport(SummaryOf(Sharded(es, n), bucketMs).retransmits, Dist(Bag(RepeatsOf(es))));
  }

  lemma {:induction false} RetransmissionsOfOne(es: seq<Event>, k: nat)
    ensures Retransmissions(es, k, 1) + Retransmissions(es, k, 4) <= CountOf(es, PacketOutbound, RequestRetransmitted)
  {
    if es != [] { RetransmissionsOfOne(es[..|es| - 1], k); }
  }

  /** Authentication and accounting requests sent again for each subscriber. */
  function Resent(es: seq<Event>): map<nat, int> {
    map k | k in Everyone(es) :: Retransmissions(es, k, 1) + Retransmissions(es, k, 4)
  }

  lemma NoWrap(es: seq<Event>)
    requires CountOf(es, PacketOutbound, RequestRetransmitted) < 0x8000_0000
    ensures RepeatsOf(es) == Resent(es)
    ensures forall k :: k in Resent(es) ==> 0 <= Resent(es)[k] < 0x8000_0000
  {
    forall k: nat
      ensures Repeats(es, k) == Retransmissions(es, k, 1) + Retransmissions(es, k, 4) < 0x8000_0000
    {
      RetransmissionsOfOne(es, k);
      CounterShows(Retransmissions(es, k, 1));
      CounterShows(Retransmissions(es, k, 4));
    }
    SameMap(RepeatsOf(es), Resent(es));
  }

  /** The section's values, without the 32-bit counters. */
  predicate ShowsPlain(r: Retransmits, m: map<nat, int>) {
    if m == map[] then r.p50 == r.p95 == r.p99 == r.max == 0
    else
      && Nearest(m, 0.50, r.p50) && Nearest(m, 0.95, r.p95) && Nearest(m, 0.99, r.p99)
      && r.max in m.Values && forall k :: k in m ==> m[k] <= r.max
  }

  lemma Plain(r: Retransmits, d: Percentile.Distribution, m: map<nat, int>)
    requires Describes(d, m) && RetransmitsReport(r, d)
    requires forall k :: k in m ==> 0 <= m[k] < 0x8000_0000
    ensures ShowsPlain(r, m)
  {
    CounterShows(d.p50);
    CounterShows(d.p95);
    CounterShows(d.p99);
    CounterShows(d.max);
  }

  /** Below 2^31 retransmissions no counter wraps: the section shows the plain totals. */
  lemma PlainRetransmits(es: seq<Event>, n: nat, bucketMs: int)
    requires n > 0 && CountOf(es, PacketOutbound, RequestRetransmitted) < 0x8000_0000
    ensures ShowsPlain(SummaryOf(Sharded(es, n), bucketMs).retransmits, Resent(es))
  {
    var r := SummaryOf(Sharded(es, n), bucketMs).retransmits;
    RetransmitsReported(es, n, bucketMs);
    var d :| Describes(d, RepeatsOf(es)) && RetransmitsReport(r, d);
    NoWrap(es);
    Plain(r, d, Resent(es));
  }
}
