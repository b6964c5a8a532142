/** The reduction of every shard's counters into one summary (Aggregate in pkg/collector/aggregate.go). */
module Aggregate {
  import opened Wrappers
  import opened Observation
  import Curve
  import Percentile

  const NOT_APPLICABLE := -1
  const BLANK := Curve.SubAgg(NOT_APPLICABLE, NOT_APPLICABLE, "", 0, 0)

  const AUTH_FAILED := "auth_failed"
  const ACCT_FAILED := "acct_failed"
  const TERMINATED := "terminated"

  // ---- Bags of map values ----

  function Holders<T(==)>(m: map<nat, T>, v: T): set<nat> {
    set k | k in m && m[k] == v
  }

  /** The bag holds every value of the map, as often as it occurs there. */
  ghost predicate Tally<T(!new)>(bag: multiset<T>, m: map<nat, T>) {
    forall v :: bag[v] == |Holders(m, v)|
  }

  ghost function Bag<T(!new)>(m: map<nat, T>): (bag: multiset<T>) {
    if m == map[] then multiset{}
    else
      var k :| k in m;
      Bag(m - {k}) + multiset{m[k]}
  }

  lemma {:induction false} BagTallies<T(!new)>(m: map<nat, T>)
    ensures Tally(Bag(m), m) && |Bag(m)| == |m|
  {
    if m != map[] {
      var k :| k in m && Bag(m) == Bag(m - {k}) + multiset{m[k]};
      BagTallies(m - {k});
      BagStep(m, k);
    }
  }

  lemma TallyIsBag<T(!new)>(bag: multiset<T>, m: map<nat, T>)
    requires Tally(bag, m)
    ensures bag == Bag(m)
  {
    var other := Bag(m);
    BagTallies(m);
    assert forall v :: bag[v] == other[v];
  }

  lemma BagStep<T(!new)>(m: map<nat, T>, k: nat)
    requires k in m
    ensures |m| == |m - {k}| + 1
    ensures forall v :: |Holders(m, v)| == |Holders(m - {k}, v)| + if v == m[k] then 1 else 0
  {
    assert m.Keys == (m - {k}).Keys + {k};
    forall v ensures |Holders(m, v)| == |Holders(m - {k}, v)| + if v == m[k] then 1 else 0 {
      assert Holders(m, v) == Holders(m - {k}, v) + if v == m[k] then {k} else {};
    }
  }

  /** The part of a map met so far by a loop over its keys. */
  function Only<T>(m: map<nat, T>, done: set<nat>): map<nat, T> {
    map k | k in m && k in done :: m[k]
  }

  lemma BagOne<T(!new)>(m: map<nat, T>, done: set<nat>, k: nat)
    requires k in m && k !in done
    ensures Bag(Only(m, done + {k})) == Bag(Only(m, done)) + multiset{m[k]}
  {
    var was := Bag(Only(m, done));
    BagTallies(Only(m, done));
    BagStep(Only(m, done + {k}), k);
    assert Only(m, done + {k}) - {k} == Only(m, done);
    TallyIsBag(was + multiset{m[k]}, Only(m, done + {k}));
  }

  lemma OnlyAll<T>(m: map<nat, T>)
    ensures Only(m, m.Keys) == m && Only(m, {}) == map[]
  {
  }

  lemma AddLast<T>(a: multiset<T>, b: multiset<T>, x: T)
    ensures (a + b) + multiset{x} == a + (b + multiset{x})
  {
  }

  lemma BagUnion<T(!new)>(a: map<nat, T>, b: map<nat, T>)
    requires a.Keys !! b.Keys
    ensures Bag(a + b) == Bag(a) + Bag(b)
  {
    var parts := Bag(a) + Bag(b);
    BagTallies(a);
    BagTallies(b);
    forall v ensures parts[v] == |Holders(a + b, v)| {
      HoldersUnion(a, b, v);
    }
    TallyIsBag(parts, a + b);
  }

  lemma HoldersUnion<T(!new)>(a: map<nat, T>, b: map<nat, T>, v: T)
    requires a.Keys !! b.Keys
    ensures |Holders(a + b, v)| == |Holders(a, v)| + |Holders(b, v)|
  {
    assert Holders(a + b, v) == Holders(a, v) + Holders(b, v);
    assert Holders(a, v) !! Holders(b, v);
  }

  lemma NoMember(bag: multiset<int>)
    requires forall x :: x !in bag
    ensures bag == multiset{}
  {
    assert forall x :: bag[x] == multiset{}[x];
  }

  lemma SomeMember(bag: multiset<int>)
    requires bag != multiset{}
    ensures exists x :: x in bag
  {
    if forall x :: x !in bag { NoMember(bag); }
  }

  /** Some listing of a bag; the distribution of any other is the same. */
  ghost function Listing(bag: multiset<int>): (s: seq<int>)
    ensures multiset(s) == bag
  {
    if bag == multiset{} then []
    else
      SomeMember(bag);
      var x :| x in bag;
      assert bag == multiset{x} + (bag - multiset{x});
      [x] + Listing(bag - multiset{x})
  }

  ghost function Dist(bag: multiset<int>): Percentile.Distribution {
    Percentile.ComputeDistribution(Listing(bag))
  }

  lemma DistOfSamples(samples: seq<int>)
    ensures Dist(multiset(samples)) == Percentile.ComputeDistribution(samples)
  {
    Percentile.DistributionByMultiset(Listing(multiset(samples)), samples);
  }

  // ---- One row per subscriber ----

  function RowKeys(a: Agg): set<nat> {
    a.seen + a.activated.Keys + a.established.Keys + a.terminal.Keys + a.auth.Keys + a.acct.Keys
  }

  function Row(a: Agg, k: nat): Curve.SubAgg {
    Curve.SubAgg(
      if k in a.activated then a.activated[k] else NOT_APPLICABLE,
      if k in a.established then a.established[k] else NOT_APPLICABLE,
      if k in a.terminal then a.terminal[k] else "",
      if k in a.auth then a.auth[k] else 0,
      if k in a.acct then a.acct[k] else 0)
  }

  /** Everything known about each subscriber, including those with no entry beyond having been seen. */
  function Rows(a: Agg): Curve.Subs {
    map k | k in RowKeys(a) :: Row(a, k)
  }

  /** What one of a shard's tables says about one subscriber. */
  datatype Cell =
    | ActivatedAt(ms: int) | EstablishedAt(ms: int) | EndedIn(state: string) | Auth(n: int) | Acct(n: int) | Seen

  function Fill(row: Curve.SubAgg, c: Cell): Curve.SubAgg {
    match c
    case ActivatedAt(ms) => row.(activated := ms)
    case EstablishedAt(ms) => row.(established := ms)
    case EndedIn(state) => row.(terminal := state)
    case Auth(n) => row.(authRetransmits := n)
    case Acct(n) => row.(acctRetransmits := n)
    case Seen => row
  }

  function RowOf(rows: Curve.Subs, k: nat): Curve.SubAgg {
    if k in rows then rows[k] else BLANK
  }

  function Put(rows: Curve.Subs, cells: map<nat, Cell>): Curve.Subs {
    map k | k in rows.Keys + cells.Keys :: if k in cells then Fill(RowOf(rows, k), cells[k]) else rows[k]
  }

  method PutAll(rows: Curve.Subs, cells: map<nat, Cell>) returns (r: Curve.Subs)
    ensures r == Put(rows, cells)
  {
    r := rows;
    var todo := cells.Keys;
    while todo != {}
      invariant todo <= cells.Keys
      invariant r.Keys == rows.Keys + (cells.Keys - todo)
      invariant forall k :: k in r ==>
                  r[k] == if k in cells && k !in todo then Fill(RowOf(rows, k), cells[k]) else rows[k]
      decreases todo
    {
      var k :| k in todo;
      r := r[k := Fill(RowOf(r, k), cells[k])];
      todo := todo - {k};
    }
  }

  function ActivatedCells(m: map<nat, int>): map<nat, Cell> { map k | k in m :: ActivatedAt(m[k]) }
  function EstablishedCells(m: map<nat, int>): map<nat, Cell> { map k | k in m :: EstablishedAt(m[k]) }
  function TerminalCells(m: map<nat, string>): map<nat, Cell> { map k | k in m :: EndedIn(m[k]) }
  function AuthCells(m: map<nat, int>): map<nat, Cell> { map k | k in m :: Auth(m[k]) }
  function AcctCells(m: map<nat, int>): map<nat, Cell> { map k | k in m :: Acct(m[k]) }
  function SeenCells(s: set<nat>): map<nat, Cell> { map k | k in s :: Seen }

  lemma PutAt(rows: Curve.Subs, cells: map<nat, Cell>, k: nat)
    ensures k in Put(rows, cells) <==> k in rows || k in cells
    ensures RowOf(Put(rows, cells), k) == if k in cells then Fill(RowOf(rows, k), cells[k]) else RowOf(rows, k)
  {
  }

  lemma RowsAt(a: Agg, k: nat)
    ensures k in Rows(a) <==> k in RowKeys(a)
    ensures RowOf(Rows(a), k) == Row(a, k)
  {
  }

  /** Overwriting one column of the rows with a shard's table is the rows of the merged table. */
  lemma PutColumn(a: Agg, b: Agg, cells: map<nat, Cell>)
    requires forall k: nat :: k in RowKeys(b) <==> k in RowKeys(a) || k in cells
    requires forall k: nat :: Row(b, k) == if k in cells then Fill(Row(a, k), cells[k]) else Row(a, k)
    ensures Put(Rows(a), cells) == Rows(b)
  {
    var put, rows := Put(Rows(a), cells), Rows(b);
    forall k: nat ensures (k in put <==> k in rows) && RowOf(put, k) == RowOf(rows, k) {
      PutAt(Rows(a), cells, k);
      RowsAt(a, k);
      RowsAt(b, k);
    }
    assert put.Keys == rows.Keys;
    forall k | k in put ensures put[k] == rows[k] { assert RowOf(put, k) == RowOf(rows, k); }
  }

  lemma PutActivated(a: Agg, m: map<nat, int>)
    ensures Put(Rows(a), ActivatedCells(m)) == Rows(a.(activated := a.activated + m))
  {
    PutColumn(a, a.(activated := a.activated + m), ActivatedCells(m));
  }

  lemma PutEstablished(a: Agg, m: map<nat, int>)
    ensures Put(Rows(a), EstablishedCells(m)) == Rows(a.(established := a.established + m))
  {
    PutColumn(a, a.(established := a.established + m), EstablishedCells(m));
  }

  lemma PutTerminal(a: Agg, m: map<nat, string>)
    ensures Put(Rows(a), TerminalCells(m)) == Rows(a.(terminal := a.terminal + m))
  {
    PutColumn(a, a.(terminal := a.terminal + m), TerminalCells(m));
  }

  lemma PutAuth(a: Agg, m: map<nat, int>)
    ensures Put(Rows(a), AuthCells(m)) == Rows(a.(auth := a.auth + m))
  {
    PutColumn(a, a.(auth := a.auth + m), AuthCells(m));
  }

  lemma PutAcct(a: Agg, m: map<nat, int>)
    ensures Put(Rows(a), AcctCells(m)) == Rows(a.(acct := a.acct + m))
  {
    PutColumn(a, a.(acct := a.acct + m), AcctCells(m));
  }

  lemma PutSeen(a: Agg, s: set<nat>)
    ensures Put(Rows(a), SeenCells(s)) == Rows(a.(seen := a.seen + s))
  {
    PutColumn(a, a.(seen := a.seen + s), SeenCells(s));
  }

  /** One shard's tables over the rows merged so far. */
  method MergeShard(rows: Curve.Subs, ghost acc: Agg, shard: ShardAggregation) returns (r: Curve.Subs)
    requires rows == Rows(acc)
    ensures r == Rows(Merge(acc, shard.Value()))
  {
    ghost var now := acc;
    PutActivated(now, shard.activatedOffsetMs);
    r := PutAll(rows, ActivatedCells(shard.activatedOffsetMs));
    now := now.(activated := now.activated + shard.activatedOffsetMs);
    PutEstablished(now, shard.establishedOffsetMs);
    r := PutAll(r, EstablishedCells(shard.establishedOffsetMs));
    now := now.(established := now.established + shard.establishedOffsetMs);
    PutTerminal(now, shard.terminalState);
    r := PutAll(r, TerminalCells(shard.terminalState));
    now := now.(terminal := now.terminal + shard.terminalState);
    PutAuth(now, shard.authRetransmits);
    r := PutAll(r, AuthCells(shard.authRetransmits));
    now := now.(auth := now.auth + shard.authRetransmits);
    PutAcct(now, shard.acctRetransmits);
    r := PutAll(r, AcctCells(shard.acctRetransmits));
    now := now.(acct := now.acct + shard.acctRetransmits);
    PutSeen(now, shard.seenSubs);
    r := PutAll(r, SeenCells(shard.seenSubs));
    now := now.(seen := now.seen + shard.seenSubs);
    SameRows(now, Merge(acc, shard.Value()));
  }

  lemma SameRows(a: Agg, b: Agg)
    requires a.seen == b.seen && a.activated == b.activated && a.established == b.established
    requires a.terminal == b.terminal && a.auth == b.auth && a.acct == b.acct
    ensures Rows(a) == Rows(b)
  {
    forall k: nat ensures Row(a, k) == Row(b, k) && (k in RowKeys(a) <==> k in RowKeys(b)) {}
  }

  // ---- The summary ----

  datatype Retransmits = Retransmits(total: nat, subscribers: nat, p50: int, p95: int, p99: int, max: int)

  datatype Section = Section(
    received: nat, acked: nat, naked: nat, dropped: nat, latency: Option<Percentile.Distribution>)

  datatype Summary = Summary(
    total: int, established: nat, authFailed: nat, acctFailed: nat, terminated: nat, stillInFlight: int,
    timeToFirstMs: int, timeToFullMs: int, latencyMs: Percentile.Distribution, curve: seq<Curve.CurvePoint>,
    retransmits: Retransmits, coa: Section, disconnect: Section)

  /** Milliseconds from activation to establishment, of the subscribers with both. */
  function SetupTimes(rows: Curve.Subs): map<nat, int> {
    map k | k in rows && rows[k].established >= 0 && rows[k].activated >= 0 :: rows[k].established - rows[k].activated
  }

  function RetransmitTotals(rows: Curve.Subs): map<nat, int> {
    map k | k in rows :: rows[k].authRetransmits + rows[k].acctRetransmits
  }

  function Retransmitting(rows: Curve.Subs): set<nat> {
    set k | k in rows && rows[k].authRetransmits + rows[k].acctRetransmits > 0
  }

  ghost function Terminals(shards: seq<Agg>): multiset<string> {
    if shards == [] then multiset{} else Terminals(shards[..|shards| - 1]) + Bag(shards[|shards| - 1].terminal)
  }

  ghost function Establishments(shards: seq<Agg>): multiset<int> {
    if shards == [] then multiset{} else Establishments(shards[..|shards| - 1]) + Bag(shards[|shards| - 1].established)
  }

  ghost function SectionOf(t: Traffic): Section {
    Section(t.received, t.acked, t.naked, t.dropped, if |t.latencies| == 0 then None else Some(Dist(t.latencies)))
  }

  ghost function RetransmitsOf(total: nat, rows: Curve.Subs): Retransmits {
    var d := Dist(Bag(RetransmitTotals(rows)));
    Retransmits(total, |Retransmitting(rows)|, Int32(d.p50), Int32(d.p95), Int32(d.p99), Int32(d.max))
  }

  /** What the summary of the given shards says, counted directly. */
  ghost function SummaryOf(shards: seq<Agg>, bucketMs: int): Summary {
    SummaryFrom(MergeAll(shards), Terminals(shards), Dist(Establishments(shards)), bucketMs)
  }

  ghost function SummaryFrom(a: Agg, ended: multiset<string>, first: Percentile.Distribution, bucketMs: int): Summary {
    var rows := Rows(a);
    Summary(|rows|, ended[ESTABLISHED], ended[AUTH_FAILED], ended[ACCT_FAILED], ended[TERMINATED],
            if |rows| < |ended| then 0 else |rows| - |ended|,
            first.min, first.max, Dist(Bag(SetupTimes(rows))),
            Curve.CurveOf(rows, if bucketMs <= 0 then 1000 else bucketMs),
            RetransmitsOf(a.retransmits, rows), SectionOf(a.coa), SectionOf(a.disconnect))
  }

  method CountTerminals(counts: multiset<string>, ended: map<nat, string>) returns (r: multiset<string>)
    ensures r == counts + Bag(ended)
  {
    r := counts;
    var todo := ended.Keys;
    ghost var done: set<nat> := {};
    ghost var bag: multiset<string> := multiset{};
    OnlyAll(ended);
    while todo != {}
      invariant done <= ended.Keys && todo == ended.Keys - done
      invariant r == counts + bag && bag == Bag(Only(ended, done))
      decreases todo
    {
      var k :| k in todo;
      BagOne(ended, done, k);
      AddLast(counts, bag, ended[k]);
      r := r + multiset{ended[k]};
      bag := bag + multiset{ended[k]};
      done := done + {k};
      todo := todo - {k};
    }
    assert done == ended.Keys;
  }

  /** The earliest and latest offset met so far; both 0 until one is. */
  datatype Span = Span(seen: bool, earliest: int, latest: int)

  ghost predicate Spans(s: Span, bag: multiset<int>) {
    if bag == multiset{} then s == Span(false, 0, 0)
    else s.seen && s.earliest in bag && s.latest in bag && forall x :: x in bag ==> s.earliest <= x <= s.latest
  }

  method Widen(s: Span, ghost a: multiset<int>, ghost b: multiset<int>, x: int) returns (r: Span)
    requires Spans(s, a + b)
    ensures Spans(r, a + (b + multiset{x}))
  {
    if !s.seen {
      r := Span(true, x, x);
    } else {
      r := Span(true, if x < s.earliest then x else s.earliest, if x > s.latest then x else s.latest);
    }
    ghost var all := a + (b + multiset{x});
    assert x in all && forall y :: y in all <==> y in a + b || y == x;
  }

  method WidenAll(span: Span, offsets: map<nat, int>, ghost before: multiset<int>) returns (r: Span)
    requires Spans(span, before)
    ensures Spans(r, before + Bag(offsets))
  {
    r := span;
    var todo := offsets.Keys;
    ghost var done: set<nat> := {};
    ghost var bag: multiset<int> := multiset{};
    OnlyAll(offsets);
    assert before + bag == before;
    while todo != {}
      invariant done <= offsets.Keys && todo == offsets.Keys - done
      invariant bag == Bag(Only(offsets, done)) && Spans(r, before + bag)
      decreases todo
    {
      var k :| k in todo;
      BagOne(offsets, done, k);
      r := Widen(r, before, bag, offsets[k]);
      bag := bag + multiset{offsets[k]};
      done := done + {k};
      todo := todo - {k};
    }
    assert done == offsets.Keys;
  }

  lemma SpanIsDist(s: Span, bag: multiset<int>)
    requires Spans(s, bag)
    ensures s.earliest == Dist(bag).min && s.latest == Dist(bag).max
  {
    var l := Listing(bag);
    if bag != multiset{} {
      Percentile.DistributionOrdered(l);
      assert forall x :: x in bag <==> x in l;
    }
  }

  /** Setup times of the rows with both offsets, in some order. */
  method ListSetupTimes(rows: Curve.Subs, ghost all: map<nat, int>) returns (times: seq<int>)
    requires forall k :: k in all <==> k in rows && rows[k].established >= 0 && rows[k].activated >= 0
    requires forall k :: k in all ==> all[k] == rows[k].established - rows[k].activated
    ensures multiset(times) == Bag(all)
  {
    times := [];
    var todo := rows.Keys;
    ghost var done: set<nat> := {};
    ghost var bag: multiset<int> := multiset{};
    OnlyAll(all);
    while todo != {}
      invariant done <= all.Keys && all.Keys - done <= todo <= rows.Keys - done
      invariant multiset(times) == bag && bag == Bag(Only(all, done))
      decreases todo
    {
      var k :| k in todo;
      var s := rows[k];
      todo := todo - {k};
      if s.established >= 0 && s.activated >= 0 {
        BagOne(all, done, k);
        times := times + [s.established - s.activated];
        bag := bag + multiset{s.established - s.activated};
        done := done + {k};
      }
    }
    assert done == all.Keys;
  }

  method SetupSection(rows: Curve.Subs) returns (d: Percentile.Distribution)
    ensures d == Dist(Bag(SetupTimes(rows)))
  {
    var times := ListSetupTimes(rows, SetupTimes(rows));
    DistOfSamples(times);
    d := Percentile.ComputeDistribution(times);
  }

  lemma OneMore(s: set<nat>, done: set<nat>, k: nat)
    requires k !in done
    ensures |s * (done + {k})| == |s * done| + if k in s then 1 else 0
  {
    if k in s {
      assert s * (done + {k}) == s * done + {k};
    } else {
      assert s * (done + {k}) == s * done;
    }
  }

  /** Per-subscriber retransmit totals, and how many are positive. */
  method ListRetransmits(rows: Curve.Subs, ghost all: map<nat, int>, ghost positive: set<nat>)
      returns (totals: seq<int>, retransmitting: nat)
    requires all.Keys == rows.Keys && positive <= rows.Keys
    requires forall k :: k in rows ==> all[k] == rows[k].authRetransmits + rows[k].acctRetransmits
    requires forall k :: k in rows ==> (k in positive <==> all[k] > 0)
    ensures multiset(totals) == Bag(all) && retransmitting == |positive|
  {
    totals, retransmitting := [], 0;
    var todo := rows.Keys;
    ghost var done: set<nat> := {};
    ghost var bag: multiset<int> := multiset{};
    OnlyAll(all);
    while todo != {}
      invariant done <= rows.Keys && todo == rows.Keys - done
      invariant multiset(totals) == bag && bag == Bag(Only(all, done))
      invariant retransmitting == |positive * done|
      decreases todo
    {
      var k :| k in todo;
      var total := rows[k].authRetransmits + rows[k].acctRetransmits;
      BagOne(all, done, k);
      totals := totals + [total];
      bag := bag + multiset{total};
      if total > 0 { retransmitting := retransmitting + 1; }
      OneMore(positive, done, k);
      done := done + {k};
      todo := todo - {k};
    }
    assert done == all.Keys && positive * done == positive;
  }

  method SectionFor(received: nat, acked: nat, naked: nat, dropped: nat, latencies: seq<int>) returns (s: Section)
    ensures s == SectionOf(Traffic(received, acked, naked, dropped, multiset(latencies)))
  {
    DistOfSamples(latencies);
    var latency := None;
    if |latencies| > 0 {
      latency := Some(Percentile.ComputeDistribution(latencies));
    }
    s := Section(received, acked, naked, dropped, latency);
  }

  method RetransmitSection(total: nat, rows: Curve.Subs) returns (r: Retransmits)
    ensures r == RetransmitsOf(total, rows)
  {
    var totals, retransmitting := ListRetransmits(rows, RetransmitTotals(rows), Retransmitting(rows));
    DistOfSamples(totals);
    var d := Percentile.ComputeDistribution(totals);
    r := Retransmits(total, retransmitting, Int32(d.p50), Int32(d.p95), Int32(d.p99), Int32(d.max));
  }

  /** Everything not in a terminal state, never below 0. */
  method StillInFlight(total: nat, counts: multiset<string>) returns (n: int)
    ensures n == if total < |counts| then 0 else total - |counts|
  {
    n := total;
    var rest := counts;
    while rest != multiset{}
      invariant rest <= counts && n == total - |counts| + |rest|
      decreases |rest|
    {
      var state :| state in rest;
      n := n - rest[state];
      rest := rest[state := 0];
    }
    if n < 0 { n := 0; }
  }

  ghost function Values(shards: seq<ShardAggregation>): (values: seq<Agg>)
    reads shards
    ensures |values| == |shards|
    ensures forall i :: 0 <= i < |shards| ==> values[i] == shards[i].Value()
  {
    if shards == [] then [] else Values(shards[..|shards| - 1]) + [shards[|shards| - 1].Value()]
  }

  /** Counters added up and tables merged, shard after shard. */
  datatype Totals = Totals(
    retransmits: nat,
    coaReceived: nat, coaAcked: nat, coaNaked: nat, coaDropped: nat, coaLatencies: seq<int>,
    disconnectReceived: nat, disconnectAcked: nat, disconnectNaked: nat, disconnectLatencies: seq<int>)

  ghost predicate Totalled(t: Totals, a: Agg) {
    && t.retransmits == a.retransmits
    && Traffic(t.coaReceived, t.coaAcked, t.coaNaked, t.coaDropped, multiset(t.coaLatencies)) == a.coa
    && Traffic(t.disconnectReceived, t.disconnectAcked, t.disconnectNaked, 0, multiset(t.disconnectLatencies))
       == a.disconnect
  }

  method AddTotals(t: Totals, ghost acc: Agg, shard: ShardAggregation) returns (r: Totals)
    requires Totalled(t, acc)
    ensures Totalled(r, Merge(acc, shard.Value()))
  {
    r := Totals(
      t.retransmits + shard.totalRetransmits,
      t.coaReceived + shard.coaReceived, t.coaAcked + shard.coaAcked, t.coaNaked + shard.coaNaked,
      t.coaDropped + shard.coaDropped, t.coaLatencies + shard.coaLatencies,
      t.disconnectReceived + shard.disconnectReceived, t.disconnectAcked + shard.disconnectAcked,
      t.disconnectNaked + shard.disconnectNaked, t.disconnectLatencies + shard.disconnectLatencies);
  }

  /** The shards reduced so far. */
  datatype Reduction = Reduction(rows: Curve.Subs, totals: Totals, counts: multiset<string>, span: Span)

  ghost predicate Reduced(r: Reduction, values: seq<Agg>) {
    && r.rows == Rows(MergeAll(values)) && Totalled(r.totals, MergeAll(values))
    && r.counts == Terminals(values) && Spans(r.span, Establishments(values))
  }

  method AddShard(r: Reduction, ghost values: seq<Agg>, ghost i: nat, shard: ShardAggregation) returns (next: Reduction)
    requires i < |values| && Reduced(r, values[..i]) && values[i] == shard.Value()
    ensures Reduced(next, values[..i + 1])
  {
    ghost var acc := MergeAll(values[..i]);
    var totals := AddTotals(r.totals, acc, shard);
    var rows := MergeShard(r.rows, acc, shard);
    var span := WidenAll(r.span, shard.establishedOffsetMs, Establishments(values[..i]));
    var counts := CountTerminals(r.counts, shard.terminalState);
    next := Reduction(rows, totals, counts, span);
    assert values[..i + 1][..i] == values[..i];
  }

  const UNREDUCED := Reduction(map[], Totals(0, 0, 0, 0, 0, [], 0, 0, 0, []), multiset{}, Span(false, 0, 0))

  lemma ReducedNothing()
    ensures Reduced(UNREDUCED, [])
  {
    assert Rows(NOTHING) == map[];
  }

  method Reduce(shards: seq<ShardAggregation>, ghost values: seq<Agg>) returns (r: Reduction)
    requires values == Values(shards)
    ensures Reduced(r, values)
  {
    ReducedNothing();
    r := UNREDUCED;
    for i := 0 to |shards|
      invariant Reduced(r, values[..i])
    {
      r := AddShard(r, values, i, shards[i]);
    }
    assert values[..|shards|] == values;
  }

  method CurveSection(rows: Curve.Subs, width: int) returns (curve: seq<Curve.CurvePoint>)
    requires width > 0
    ensures curve == Curve.CurveOf(rows, width)
  {
    curve := Curve.BuildEstablishmentCurve(rows, width);
    Curve.CurveUnique(rows, width, curve, Curve.CurveOf(rows, width));
  }

  method Extremes(span: Span, ghost met: multiset<int>) returns (first: int, last: int)
    requires Spans(span, met)
    ensures first == Dist(met).min && last == Dist(met).max
  {
    SpanIsDist(span, met);
    return if span.seen then span.earliest else 0, if span.seen then span.latest else 0;
  }

  method Sections(t: Totals, ghost a: Agg) returns (coa: Section, disconnect: Section)
    requires Totalled(t, a)
    ensures coa == SectionOf(a.coa) && disconnect == SectionOf(a.disconnect)
  {
    coa := SectionFor(t.coaReceived, t.coaAcked, t.coaNaked, t.coaDropped, t.coaLatencies);
    disconnect := SectionFor(t.disconnectReceived, t.disconnectAcked, t.disconnectNaked, 0, t.disconnectLatencies);
  }

  /** The sections read off the rows. */
  method RowSections(rows: Curve.Subs, total: nat, bucketMs: int)
      returns (latency: Percentile.Distribution, curve: seq<Curve.CurvePoint>, retransmits: Retransmits)
    ensures latency == Dist(Bag(SetupTimes(rows)))
    ensures curve == Curve.CurveOf(rows, if bucketMs <= 0 then 1000 else bucketMs)
    ensures retransmits == RetransmitsOf(total, rows)
  {
    latency := SetupSection(rows);
    curve := CurveSection(rows, if bucketMs <= 0 then 1000 else bucketMs);
    retransmits := RetransmitSection(total, rows);
  }

  method Summarise(r: Reduction, ghost a: Agg, ghost ended: multiset<string>, ghost met: multiset<int>, bucketMs: int)
      returns (s: Summary)
    requires r.rows == Rows(a) && Totalled(r.totals, a) && r.counts == ended && Spans(r.span, met)
    ensures s == SummaryFrom(a, ended, Dist(met), bucketMs)
  {
    var rows, counts := r.rows, r.counts;
    var latency, curve, retransmits := RowSections(rows, r.totals.retransmits, bucketMs);
    var first, last := Extremes(r.span, met);
    var stillInFlight := StillInFlight(|rows|, counts);
    var coa, disconnect := Sections(r.totals, a);
    s := Summary(
      |rows|, counts[ESTABLISHED], counts[AUTH_FAILED], counts[ACCT_FAILED], counts[TERMINATED], stillInFlight,
      first, last, latency, curve, retransmits, coa, disconnect);
  }

  /** The whole reduction, over shards whose counters stand at `values`. */
  method Aggregate(shards: seq<ShardAggregation>, ghost values: seq<Agg>, bucketMs: int) returns (s: Summary)
    requires values == Values(shards)
    ensures s == SummaryOf(values, bucketMs)
  {
    var r := Reduce(shards, values);
    s := Summarise(r, MergeAll(values), Terminals(values), Establishments(values), bucketMs);
  }

  // ---- Sharded and single-pass summaries agree ----

  ghost predicate Apart(shards: seq<Agg>) {
    forall i, j, k: nat :: 0 <= i < j < |shards| && Knows(shards[i], k) ==> !Knows(shards[j], k)
  }

  lemma ShardsApart(es: seq<Event>, n: nat)
    requires n > 0
    ensures Apart(Sharded(es, n))
  {
    forall i, j, k: nat | 0 <= i < j < n && Knows(Sharded(es, n)[i], k) ensures !Knows(Sharded(es, n)[j], k) {
      ShardKeys(es, n, i, k);
      ShardKeys(es, n, j, k);
    }
  }

  lemma ApartFromMerge(shards: seq<Agg>, k: nat)
    requires Apart(shards) && shards != []
    ensures !(Knows(MergeAll(shards[..|shards| - 1]), k) && Knows(shards[|shards| - 1], k))
  {
    MergeKnows(shards[..|shards| - 1], k);
  }

  lemma ApartTables(a: Agg, b: Agg)
    requires forall k: nat :: !(Knows(a, k) && Knows(b, k))
    ensures a.terminal.Keys !! b.terminal.Keys && a.established.Keys !! b.established.Keys
  {
    forall k: nat ensures !(k in a.terminal && k in b.terminal) && !(k in a.established && k in b.established) {
      assert !(Knows(a, k) && Knows(b, k));
    }
  }

  /** With no subscriber in two shards, per-shard counts are counts over the merged tables. */
  lemma {:induction false} CountsMerge(shards: seq<Agg>)
    requires Apart(shards)
    ensures Terminals(shards) == Bag(MergeAll(shards).terminal)
    ensures Establishments(shards) == Bag(MergeAll(shards).established)
  {
    if shards != [] {
      var init, last := shards[..|shards| - 1], shards[|shards| - 1];
      CountsMerge(init);
      var merged := MergeAll(init);
      forall k: nat ensures !(Knows(merged, k) && Knows(last, k)) { ApartFromMerge(shards, k); }
      ApartTables(merged, last);
      BagUnion(merged.terminal, last.terminal);
      BagUnion(merged.established, last.established);
    }
  }

  lemma ShardedParts(es: seq<Event>, n: nat)
    requires n > 0
    ensures var shards, whole := Sharded(es, n), Fold(es);
            && MergeAll(shards) == whole
            && Terminals(shards) == Bag(whole.terminal) && Establishments(shards) == Bag(whole.established)
  {
    ShardingLosesNothing(es, n);
    ShardsApart(es, n);
    CountsMerge(Sharded(es, n));
  }

  lemma SingleParts(a: Agg)
    ensures MergeAll([a]) == a
    ensures Terminals([a]) == Bag(a.terminal) && Establishments([a]) == Bag(a.established)
  {
    NothingMerged(a);
    assert [a][..0] == [];
    assert MergeAll([a]) == a;
    CountsMerge([a]);
  }

  /** For every stream and every number of shards, the sharded summary is that of a single pass. */
  lemma ShardedSummary(es: seq<Event>, n: nat, bucketMs: int)
    requires n > 0
    ensures SummaryOf(Sharded(es, n), bucketMs) == SummaryOf([Fold(es)], bucketMs)
  {
    ShardedParts(es, n);
    SingleParts(Fold(es));
  }

  lemma SplitCount<T>(whole: set<T>, part: set<T>)
    requires part <= whole
    ensures |whole| == |part| + |whole - part|
  {
    assert whole == part + (whole - part);
  }

  lemma EndedHaveRows(a: Agg)
    ensures |Rows(a)| == |a.terminal| + |RowKeys(a) - a.terminal.Keys|
  {
    assert Rows(a).Keys == RowKeys(a);
    assert |a.terminal| == |a.terminal.Keys|;
    SplitCount(RowKeys(a), a.terminal.Keys);
  }

  /**
   Every subscriber is in a terminal state or still in flight: the subtraction never goes negative,
   because an ended subscriber has a row and is counted in one shard only.
   */
  lemma SubscribersAddUp(es: seq<Event>, n: nat, bucketMs: int)
    requires n > 0
    ensures var s, ended := SummaryOf(Sharded(es, n), bucketMs), Terminals(Sharded(es, n));
            && s.total == |ended| + s.stillInFlight
            && s.stillInFlight == |RowKeys(Fold(es)) - Fold(es).terminal.Keys|
            && |ended| == |Fold(es).terminal|
            && s.established == |Holders(Fold(es).terminal, ESTABLISHED)|
            && s.authFailed == |Holders(Fold(es).terminal, AUTH_FAILED)|
            && s.acctFailed == |Holders(Fold(es).terminal, ACCT_FAILED)|
            && s.terminated == |Holders(Fold(es).terminal, TERMINATED)|
  {
    ShardedParts(es, n);
    EndedHaveRows(Fold(es));
    BagTallies(Fold(es).terminal);
  }

  // ---- Who is counted ----

  function Appearing(es: seq<Event>): set<nat> {
    set e | e in es :: e.sub
  }

  function Entered(es: seq<Event>): set<nat> {
    set e | e in es && Tabled(e) :: e.sub
  }

  lemma RowKeysAre(a: Agg, k: nat)
    ensures k in RowKeys(a) <==> k in a.seen || Knows(a, k)
  {
  }

  /** A subscriber has a row for any event of its own; subscriber 0 only for one that enters it in a table. */
  lemma {:induction false} RowKeysExactly(es: seq<Event>, k: nat)
    ensures k in RowKeys(Fold(es)) <==> (if k == 0 then k in Entered(es) else k in Appearing(es))
  {
    if es != [] {
      var init, e := es[..|es| - 1], es[|es| - 1];
      assert es == init + [e];
      RowKeysExactly(init, k);
      RowKeysAre(Fold(init), k);
      RowKeysAre(Fold(es), k);
      KnownAfter(Fold(init), e, k);
      SeenAfter(Fold(init), e, k);
      assert Appearing(es) == Appearing(init) + {e.sub};
      assert Entered(es) == Entered(init) + if Tabled(e) then {e.sub} else {};
    }
  }

  /**
   The total counts every subscriber that appears in any event exactly if subscriber 0 does not appear
   only in events that enter it nowhere; in that case it counts all but that one.
   */
  lemma TotalCountsAppearing(es: seq<Event>, n: nat, bucketMs: int)
    requires n > 0
    ensures var total, missed := SummaryOf(Sharded(es, n), bucketMs).total, 0 in Appearing(es) && 0 !in Entered(es);
            && total == |Appearing(es)| - (if missed then 1 else 0)
            && (total == |Appearing(es)| <==> !missed)
  {
    ShardingLosesNothing(es, n);
    RowsAre(es, if 0 in Appearing(es) && 0 !in Entered(es) then Appearing(es) - {0} else Appearing(es));
  }

  lemma RowsAre(es: seq<Event>, counted: set<nat>)
    requires counted == if 0 in Appearing(es) && 0 !in Entered(es) then Appearing(es) - {0} else Appearing(es)
    ensures |Rows(Fold(es))| == |counted|
  {
    var a := Fold(es);
    forall k: nat ensures k in Rows(a).Keys <==> k in counted {
      RowKeysExactly(es, k);
      assert 0 in Entered(es) ==> 0 in Appearing(es);
    }
    assert Rows(a).Keys == counted;
  }

  /** A CoA for nobody in particular: an event of subscriber 0, and a total of none. */
  lemma SubscriberZeroIsMissed(n: nat, bucketMs: int)
    requires n > 0
    ensures var es := [Event(0, CoAInbound, CoAReceived, 5, "", 43, 0)];
            0 in Appearing(es) && SummaryOf(Sharded(es, n), bucketMs).total == 0
  {
    var es := [Event(0, CoAInbound, CoAReceived, 5, "", 43, 0)];
    assert es[0] in es;
    assert Appearing(es) == {0};
    TotalCountsAppearing(es, n, bucketMs);
  }
}
