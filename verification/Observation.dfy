/**
 What one collector shard learns from the events it sees (observe in pkg/collector/aggregate.go),
 and why splitting the stream over shards by subscriber loses nothing.
 */
module Observation {

  datatype Category = SubscriberLifecycle | PacketOutbound | CoAInbound | DisconnectInbound | OtherCategory

  datatype EventType =
    | SubscriberActivated | SubscriberTerminal | RequestRetransmitted
    | CoAReceived | CoAAcked | CoANaked | CoADropped
    | DisconnectReceived | DisconnectAcked | DisconnectNaked
    | OtherType

  datatype Event = Event(
    sub: nat, category: Category, eventType: EventType, offsetMs: int, state: string, code: nat, latencyUs: int)

  const ESTABLISHED := "established"

  /** Request counters and answer latencies of one direction; latencies are kept as a bag. */
  datatype Traffic = Traffic(received: nat, acked: nat, naked: nat, dropped: nat, latencies: multiset<int>)

  datatype Agg = Agg(
    total: nat, seen: set<nat>,
    activated: map<nat, int>, established: map<nat, int>, terminal: map<nat, string>,
    auth: map<nat, int>, acct: map<nat, int>, retransmits: nat,
    coa: Traffic, disconnect: Traffic)

  const QUIET := Traffic(0, 0, 0, 0, multiset{})
  const NOTHING := Agg(0, {}, map[], map[], map[], map[], map[], 0, QUIET, QUIET)

  /** A 32-bit signed counter. */
  function Int32(x: int): int {
    var low := x % 0x1_0000_0000;
    if low >= 0x8000_0000 then low - 0x1_0000_0000 else low
  }

  /** The offset first recorded for a subscriber stays. */
  function FirstWins(m: map<nat, int>, k: nat, v: int): map<nat, int> {
    if k in m then m else m[k := v]
  }

  function Bumped(m: map<nat, int>, k: nat): map<nat, int> {
    m[k := Int32((if k in m then m[k] else 0) + 1)]
  }

  function Sampled(bag: multiset<int>, latencyUs: int): multiset<int> {
    if latencyUs > 0 then bag + multiset{latencyUs} else bag
  }

  /** The same on the list a shard keeps. */
  function WithSample(latencies: seq<int>, latencyUs: int): (r: seq<int>)
    ensures multiset(r) == Sampled(multiset(latencies), latencyUs)
  {
    if latencyUs > 0 then latencies + [latencyUs] else latencies
  }

  function Lifecycle(a: Agg, e: Event): Agg {
    match e.eventType
    case SubscriberActivated => a.(activated := FirstWins(a.activated, e.sub, e.offsetMs))
    case SubscriberTerminal =>
      a.(terminal := a.terminal[e.sub := e.state],
         established := if e.state == ESTABLISHED then FirstWins(a.established, e.sub, e.offsetMs) else a.established)
    case _ => a
  }

  function Retransmit(a: Agg, e: Event): Agg {
    a.(retransmits := a.retransmits + 1,
       auth := if e.code == 1 then Bumped(a.auth, e.sub) else a.auth,
       acct := if e.code == 4 then Bumped(a.acct, e.sub) else a.acct)
  }

  function CoA(t: Traffic, e: Event): Traffic {
    if e.eventType == CoAReceived then t.(received := t.received + 1)
    else if e.eventType == CoAAcked then t.(acked := t.acked + 1, latencies := Sampled(t.latencies, e.latencyUs))
    else if e.eventType == CoANaked then t.(naked := t.naked + 1, latencies := Sampled(t.latencies, e.latencyUs))
    else if e.eventType == CoADropped then t.(dropped := t.dropped + 1)
    else t
  }

  function Disconnect(t: Traffic, e: Event): Traffic {
    if e.eventType == DisconnectReceived then t.(received := t.received + 1)
    else if e.eventType == DisconnectAcked then t.(acked := t.acked + 1, latencies := Sampled(t.latencies, e.latencyUs))
    else if e.eventType == DisconnectNaked then t.(naked := t.naked + 1, latencies := Sampled(t.latencies, e.latencyUs))
    else t
  }

  function AtCoA(a: Agg, e: Event): Agg {
    a.(coa := CoA(a.coa, e))
  }

  function AtDisconnect(a: Agg, e: Event): Agg {
    a.(disconnect := Disconnect(a.disconnect, e))
  }

  /** Subscriber 0 is counted but not kept among the subscribers seen. */
  function Counted(a: Agg, e: Event): Agg {
    a.(total := a.total + 1, seen := if e.sub != 0 then a.seen + {e.sub} else a.seen)
  }

  function Observed(a: Agg, e: Event): Agg {
    var b := Counted(a, e);
    match e.category
    case SubscriberLifecycle => Lifecycle(b, e)
    case PacketOutbound => if e.eventType == RequestRetransmitted then Retransmit(b, e) else b
    case CoAInbound => AtCoA(b, e)
    case DisconnectInbound => AtDisconnect(b, e)
    case OtherCategory => b
  }

  /** One pass over a whole stream. */
  function Fold(es: seq<Event>): Agg {
    if es == [] then NOTHING else Observed(Fold(es[..|es| - 1]), es[|es| - 1])
  }

  lemma FoldSnoc(es: seq<Event>, e: Event)
    ensures Fold(es + [e]) == Observed(Fold(es), e)
  {
    assert (es + [e])[..|es|] == es;
  }

  /** One shard's counters, updated in place as events stream in. */
  class ShardAggregation {
    var totalEvents: nat
    var seenSubs: set<nat>
    var activatedOffsetMs: map<nat, int>
    var establishedOffsetMs: map<nat, int>
    var terminalState: map<nat, string>
    var authRetransmits: map<nat, int>
    var acctRetransmits: map<nat, int>
    var totalRetransmits: nat
    var coaReceived: nat
    var coaAcked: nat
    var coaNaked: nat
    var coaDropped: nat
    var coaLatencies: seq<int>
    var disconnectReceived: nat
    var disconnectAcked: nat
    var disconnectNaked: nat
    var disconnectLatencies: seq<int>

    constructor ()
      ensures Value() == NOTHING
    {
      totalEvents, totalRetransmits, seenSubs := 0, 0, {};
      activatedOffsetMs, establishedOffsetMs, terminalState := map[], map[], map[];
      authRetransmits, acctRetransmits := map[], map[];
      coaReceived, coaAcked, coaNaked, coaDropped, coaLatencies := 0, 0, 0, 0, [];
      disconnectReceived, disconnectAcked, disconnectNaked, disconnectLatencies := 0, 0, 0, [];
    }

    ghost function Value(): Agg
      reads this
    {
      Agg(totalEvents, seenSubs, activatedOffsetMs, establishedOffsetMs, terminalState,
          authRetransmits, acctRetransmits, totalRetransmits, CoATraffic(), DisconnectTraffic())
    }

    ghost function CoATraffic(): Traffic
      reads this
    {
      Traffic(coaReceived, coaAcked, coaNaked, coaDropped, multiset(coaLatencies))
    }

    ghost function DisconnectTraffic(): Traffic
      reads this
    {
      Traffic(disconnectReceived, disconnectAcked, disconnectNaked, 0, multiset(disconnectLatencies))
    }

    method ObserveLifecycle(e: Event)
      modifies this`activatedOffsetMs, this`terminalState, this`establishedOffsetMs
      ensures Value() == Lifecycle(old(Value()), e)
    {
      match e.eventType
      case SubscriberActivated =>
        if e.sub !in activatedOffsetMs {
          activatedOffsetMs := activatedOffsetMs[e.sub := e.offsetMs];
        }
      case SubscriberTerminal =>
        terminalState := terminalState[e.sub := e.state];
        if e.state == ESTABLISHED && e.sub !in establishedOffsetMs {
          establishedOffsetMs := establishedOffsetMs[e.sub := e.offsetMs];
        }
      case _ =>
    }

    method ObserveRetransmit(e: Event)
      modifies this`totalRetransmits, this`authRetransmits, this`acctRetransmits
      ensures Value() == Retransmit(old(Value()), e)
    {
      totalRetransmits := totalRetransmits + 1;
      if e.code == 1 {
        authRetransmits := Bumped(authRetransmits, e.sub);
      } else if e.code == 4 {
        acctRetransmits := Bumped(acctRetransmits, e.sub);
      }
    }

    method CountCoA(e: Event)
      modifies this`coaReceived, this`coaAcked, this`coaNaked, this`coaDropped, this`coaLatencies
      ensures CoATraffic() == CoA(old(CoATraffic()), e)
    {
      if e.eventType == CoAReceived {
        coaReceived := coaReceived + 1;
      } else if e.eventType == CoAAcked {
        coaAcked := coaAcked + 1;
        coaLatencies := WithSample(coaLatencies, e.latencyUs);
      } else if e.eventType == CoANaked {
        coaNaked := coaNaked + 1;
        coaLatencies := WithSample(coaLatencies, e.latencyUs);
      } else if e.eventType == CoADropped {
        coaDropped := coaDropped + 1;
      }
    }

    method CountDisconnect(e: Event)
      modifies this`disconnectReceived, this`disconnectAcked, this`disconnectNaked, this`disconnectLatencies
      ensures DisconnectTraffic() == Disconnect(old(DisconnectTraffic()), e)
    {
      if e.eventType == DisconnectReceived {
        disconnectReceived := disconnectReceived + 1;
      } else if e.eventType == DisconnectAcked {
        disconnectAcked := disconnectAcked + 1;
        disconnectLatencies := WithSample(disconnectLatencies, e.latencyUs);
      } else if e.eventType == DisconnectNaked {
        disconnectNaked := disconnectNaked + 1;
        disconnectLatencies := WithSample(disconnectLatencies, e.latencyUs);
      }
    }

    method ObserveCoA(e: Event)
      modifies this`coaReceived, this`coaAcked, this`coaNaked, this`coaDropped, this`coaLatencies
      ensures Value() == AtCoA(old(Value()), e)
    {
      CountCoA(e);
    }

    method ObserveDisconnect(e: Event)
      modifies this`disconnectReceived, this`disconnectAcked, this`disconnectNaked, this`disconnectLatencies
      ensures Value() == AtDisconnect(old(Value()), e)
    {
      CountDisconnect(e);
    }

    method Count(e: Event)
      modifies this`totalEvents, this`seenSubs
      ensures Value() == Counted(old(Value()), e)
    {
      totalEvents := totalEvents + 1;
      if e.sub != 0 {
        seenSubs := seenSubs + {e.sub};
      }
    }

    /** One event into this shard's counters. */
    method Observe(e: Event)
      modifies this
      ensures Value() == Observed(old(Value()), e)
    {
      Count(e);
      match e.category
      case SubscriberLifecycle => ObserveLifecycle(e);
      case PacketOutbound =>
        if e.eventType == RequestRetransmitted { ObserveRetransmit(e); }
      case CoAInbound => ObserveCoA(e);
      case DisconnectInbound => ObserveDisconnect(e);
      case OtherCategory =>
    }
  }

  // ---- What a single pass remembers ----

  datatype Kind = Activation | Establishment | Ending

  predicate Is(e: Event, kind: Kind, k: nat) {
    e.category == SubscriberLifecycle && e.sub == k &&
    match kind
    case Activation => e.eventType == SubscriberActivated
    case Establishment => e.eventType == SubscriberTerminal && e.state == "established"
    case Ending => e.eventType == SubscriberTerminal
  }

  predicate FirstAt(es: seq<Event>, kind: Kind, k: nat, i: int) {
    0 <= i < |es| && Is(es[i], kind, k) && forall j :: 0 <= j < i ==> !Is(es[j], kind, k)
  }

  predicate LastAt(es: seq<Event>, kind: Kind, k: nat, i: int) {
    0 <= i < |es| && Is(es[i], kind, k) && forall j :: i < j < |es| ==> !Is(es[j], kind, k)
  }

  lemma FirstSnoc(es: seq<Event>, e: Event, kind: Kind, k: nat)
    ensures forall i :: FirstAt(es, kind, k, i) ==> FirstAt(es + [e], kind, k, i)
    ensures forall i :: FirstAt(es + [e], kind, k, i) && i < |es| ==> FirstAt(es, kind, k, i)
    ensures (forall i :: !FirstAt(es, kind, k, i)) ==> (FirstAt(es + [e], kind, k, |es|) <==> Is(e, kind, k))
  {
    if forall i :: !FirstAt(es, kind, k, i) {
      forall n: nat | n < |es| ensures !Is(es[n], kind, k) { NoneBefore(es, kind, k, n); }
    }
  }

  lemma {:induction false} NoneBefore(es: seq<Event>, kind: Kind, k: nat, n: nat)
    requires n < |es| && forall i :: !FirstAt(es, kind, k, i)
    ensures !Is(es[n], kind, k)
    decreases n
  {
    forall j: nat | j < n ensures !Is(es[j], kind, k) { NoneBefore(es, kind, k, j); }
    assert !FirstAt(es, kind, k, n);
  }

  /** Entry k of a first-wins table holds the offset of the first matching event, and exists only for one. */
  ghost predicate HoldsFirst(m: map<nat, int>, es: seq<Event>, kind: Kind, k: nat) {
    && (forall i :: FirstAt(es, kind, k, i) ==> k in m && m[k] == es[i].offsetMs)
    && (k in m ==> exists i :: FirstAt(es, kind, k, i))
  }

  lemma HoldsFirstStep(m: map<nat, int>, es: seq<Event>, e: Event, kind: Kind, k: nat)
    requires HoldsFirst(m, es, kind, k)
    ensures HoldsFirst(if Is(e, kind, e.sub) then FirstWins(m, e.sub, e.offsetMs) else m, es + [e], kind, k)
  {
    FirstSnoc(es, e, kind, k);
    if k in m {
      var i :| FirstAt(es, kind, k, i);
      assert FirstAt(es + [e], kind, k, i);
      assert !FirstAt(es + [e], kind, k, |es|);
    } else if Is(e, kind, k) {
      assert FirstAt(es + [e], kind, k, |es|);
    }
  }

  ghost predicate HoldsLast(m: map<nat, string>, es: seq<Event>, k: nat) {
    && (forall i :: LastAt(es, Ending, k, i) ==> k in m && m[k] == es[i].state)
    && (k in m ==> exists i :: LastAt(es, Ending, k, i))
  }

  lemma HoldsLastStep(m: map<nat, string>, es: seq<Event>, e: Event, k: nat)
    requires HoldsLast(m, es, k)
    ensures HoldsLast(if Is(e, Ending, e.sub) then m[e.sub := e.state] else m, es + [e], k)
  {
    if Is(e, Ending, k) {
      assert LastAt(es + [e], Ending, k, |es|);
      assert forall i :: LastAt(es + [e], Ending, k, i) ==> i == |es|;
    } else {
      forall i ensures LastAt(es + [e], Ending, k, i) <==> LastAt(es, Ending, k, i) {
        if LastAt(es + [e], Ending, k, i) {
          forall j | i < j < |es| ensures !Is(es[j], Ending, k) { assert (es + [e])[j] == es[j]; }
        }
      }
    }
  }

  /**
   The single pass keeps, per subscriber, the offset of its first activation, the offset of its first
   established outcome, and the state of its last outcome.
   */
  lemma {:induction false} FoldRemembers(es: seq<Event>, k: nat)
    ensures HoldsFirst(Fold(es).activated, es, Activation, k)
    ensures HoldsFirst(Fold(es).established, es, Establishment, k)
    ensures HoldsLast(Fold(es).terminal, es, k)
  {
    if es != [] {
      var init, e := es[..|es| - 1], es[|es| - 1];
      assert es == init + [e];
      FoldRemembers(init, k);
      HoldsFirstStep(Fold(init).activated, init, e, Activation, k);
      HoldsFirstStep(Fold(init).established, init, e, Establishment, k);
      HoldsLastStep(Fold(init).terminal, init, e, k);
    }
  }

  /** Events of one category and type; for retransmissions, those of one subscriber and code. */
  function CountOf(es: seq<Event>, category: Category, eventType: EventType): (n: nat)
    ensures n <= |es|
  {
    if es == [] then 0
    else
      var e := es[|es| - 1];
      CountOf(es[..|es| - 1], category, eventType) + if e.category == category && e.eventType == eventType then 1 else 0
  }

  function Retransmissions(es: seq<Event>, k: nat, code: nat): (n: nat) {
    if es == [] then 0
    else
      var e := es[|es| - 1];
      Retransmissions(es[..|es| - 1], k, code)
      + if e.category == PacketOutbound && e.eventType == RequestRetransmitted && e.sub == k && e.code == code
        then 1 else 0
  }

  lemma Int32Next(x: int)
    ensures Int32(Int32(x) + 1) == Int32(x + 1)
  {
  }

  /** Entry k counts the retransmissions of k, in a 32-bit counter, and exists only if there was one. */
  predicate CountsRetransmissions(m: map<nat, int>, es: seq<Event>, k: nat, code: nat) {
    if Retransmissions(es, k, code) == 0 then k !in m
    else k in m && m[k] == Int32(Retransmissions(es, k, code))
  }

  lemma {:induction false} FoldCountsRetransmissions(es: seq<Event>, k: nat)
    ensures CountsRetransmissions(Fold(es).auth, es, k, 1)
    ensures CountsRetransmissions(Fold(es).acct, es, k, 4)
  {
    if es != [] {
      var init, e := es[..|es| - 1], es[|es| - 1];
      FoldCountsRetransmissions(init, k);
      ObservedRetransmits(Fold(init), e);
      BumpCounts(Fold(init).auth, es, k, 1);
      BumpCounts(Fold(init).acct, es, k, 4);
    }
  }

  predicate Retransmits(e: Event, code: nat) {
    e.category == PacketOutbound && e.eventType == RequestRetransmitted && e.code == code
  }

  lemma ObservedRetransmits(a: Agg, e: Event)
    ensures Observed(a, e).auth == if Retransmits(e, 1) then Bumped(a.auth, e.sub) else a.auth
    ensures Observed(a, e).acct == if Retransmits(e, 4) then Bumped(a.acct, e.sub) else a.acct
  {
    match e.category
    case SubscriberLifecycle =>
    case PacketOutbound =>
    case CoAInbound =>
    case DisconnectInbound =>
    case OtherCategory =>
  }

  lemma BumpCounts(m: map<nat, int>, es: seq<Event>, k: nat, code: nat)
    requires es != [] && CountsRetransmissions(m, es[..|es| - 1], k, code)
    ensures var e := es[|es| - 1];
            CountsRetransmissions(if Retransmits(e, code) then Bumped(m, e.sub) else m, es, k, code)
  {
    Int32Next(Retransmissions(es[..|es| - 1], k, code));
  }

  /** What an event changes, table by table. */
  lemma ObservedParts(a: Agg, e: Event)
    ensures Observed(a, e).total == a.total + 1
    ensures Observed(a, e).seen == if e.sub != 0 then a.seen + {e.sub} else a.seen
    ensures Observed(a, e).retransmits
            == a.retransmits + if e.category == PacketOutbound && e.eventType == RequestRetransmitted then 1 else 0
  {
    match e.category
    case SubscriberLifecycle =>
    case PacketOutbound =>
    case CoAInbound =>
    case DisconnectInbound =>
    case OtherCategory =>
  }

  lemma ObservedTraffic(a: Agg, e: Event)
    ensures Observed(a, e).coa == if e.category == CoAInbound then CoA(a.coa, e) else a.coa
    ensures Observed(a, e).disconnect
            == if e.category == DisconnectInbound then Disconnect(a.disconnect, e) else a.disconnect
  {
  }

  /** Every counter of the single pass counts the events of its kind; the answers sampled are at most the answers. */
  lemma {:induction false} FoldCounts(es: seq<Event>)
    ensures Fold(es).total == |es| && Fold(es).retransmits == CountOf(es, PacketOutbound, RequestRetransmitted)
    ensures CountsCoA(Fold(es).coa, es) && CountsDisconnect(Fold(es).disconnect, es)
  {
    if es != [] {
      var init, e := es[..|es| - 1], es[|es| - 1];
      FoldCounts(init);
      ObservedParts(Fold(init), e);
      ObservedTraffic(Fold(init), e);
      CoACountsStep(Fold(init).coa, init, e);
      DisconnectCountsStep(Fold(init).disconnect, init, e);
      assert es == init + [e];
    }
  }

  predicate CountsCoA(t: Traffic, es: seq<Event>) {
    && t.received == CountOf(es, CoAInbound, CoAReceived) && t.acked == CountOf(es, CoAInbound, CoAAcked)
    && t.naked == CountOf(es, CoAInbound, CoANaked) && t.dropped == CountOf(es, CoAInbound, CoADropped)
    && |t.latencies| <= t.acked + t.naked
  }

  predicate CountsDisconnect(t: Traffic, es: seq<Event>) {
    && t.received == CountOf(es, DisconnectInbound, DisconnectReceived)
    && t.acked == CountOf(es, DisconnectInbound, DisconnectAcked)
    && t.naked == CountOf(es, DisconnectInbound, DisconnectNaked)
    && |t.latencies| <= t.acked + t.naked
  }

  lemma CountSnoc(es: seq<Event>, e: Event, category: Category, eventType: EventType)
    ensures CountOf(es + [e], category, eventType)
            == CountOf(es, category, eventType) + if e.category == category && e.eventType == eventType then 1 else 0
  {
    assert (es + [e])[..|es|] == es;
  }

  lemma CoACountsStep(t: Traffic, es: seq<Event>, e: Event)
    requires CountsCoA(t, es)
    ensures CountsCoA(if e.category == CoAInbound then CoA(t, e) else t, es + [e])
  {
    CountSnoc(es, e, CoAInbound, CoAReceived);
    CountSnoc(es, e, CoAInbound, CoAAcked);
    CountSnoc(es, e, CoAInbound, CoANaked);
    CountSnoc(es, e, CoAInbound, CoADropped);
  }

  lemma DisconnectCountsStep(t: Traffic, es: seq<Event>, e: Event)
    requires CountsDisconnect(t, es)
    ensures CountsDisconnect(if e.category == DisconnectInbound then Disconnect(t, e) else t, es + [e])
  {
    CountSnoc(es, e, DisconnectInbound, DisconnectReceived);
    CountSnoc(es, e, DisconnectInbound, DisconnectAcked);
    CountSnoc(es, e, DisconnectInbound, DisconnectNaked);
  }

  /** The subscribers seen are those of any event at all, except subscriber 0. */
  lemma {:induction false} FoldSees(es: seq<Event>, k: nat)
    ensures k in Fold(es).seen <==> k != 0 && exists i :: 0 <= i < |es| && es[i].sub == k
  {
    if es != [] {
      var init, e := es[..|es| - 1], es[|es| - 1];
      FoldSees(init, k);
      ObservedParts(Fold(init), e);
      assert e.sub == k ==> exists i :: 0 <= i < |es| && es[i].sub == k;
      assert forall i :: 0 <= i < |init| ==> init[i] == es[i];
    }
  }

  // ---- Sharding ----

  /** The shard has an entry for subscriber k in some table. */
  predicate Knows(a: Agg, k: nat) {
    k in a.activated || k in a.established || k in a.terminal || k in a.auth || k in a.acct
  }

  function MergeTraffic(a: Traffic, b: Traffic): Traffic {
    Traffic(
      a.received + b.received, a.acked + b.acked, a.naked + b.naked, a.dropped + b.dropped, a.latencies + b.latencies)
  }

  /** The reduction of two shards: sums, unions, and the later table over the earlier. */
  function Merge(a: Agg, b: Agg): Agg {
    Agg(a.total + b.total, a.seen + b.seen,
        a.activated + b.activated, a.established + b.established, a.terminal + b.terminal,
        a.auth + b.auth, a.acct + b.acct, a.retransmits + b.retransmits,
        MergeTraffic(a.coa, b.coa), MergeTraffic(a.disconnect, b.disconnect))
  }

  function MergeAll(shards: seq<Agg>): Agg {
    if shards == [] then NOTHING else Merge(MergeAll(shards[..|shards| - 1]), shards[|shards| - 1])
  }

  /** What shard i of n is handed: subscribers are dealt out by id modulo n. */
  function ShardEvents(es: seq<Event>, n: nat, i: nat): seq<Event>
    requires n > 0
  {
    if es == [] then [] else
      var e := es[|es| - 1];
      ShardEvents(es[..|es| - 1], n, i) + if e.sub % n == i then [e] else []
  }

  function Sharded(es: seq<Event>, n: nat): (shards: seq<Agg>)
    requires n > 0
    ensures |shards| == n
  {
    seq(n, (i: nat) => Fold(ShardEvents(es, n, i)))
  }

  lemma FirstWinsMerge(a: map<nat, int>, b: map<nat, int>, k: nat, v: int)
    ensures k !in b ==> FirstWins(a, k, v) + b == FirstWins(a + b, k, v)
    ensures k !in a ==> a + FirstWins(b, k, v) == FirstWins(a + b, k, v)
  {
  }

  lemma BumpedMerge(a: map<nat, int>, b: map<nat, int>, k: nat)
    ensures k !in b ==> Bumped(a, k) + b == Bumped(a + b, k)
    ensures k !in a ==> a + Bumped(b, k) == Bumped(a + b, k)
  {
  }

  lemma PutMerge(a: map<nat, string>, b: map<nat, string>, k: nat, v: string)
    ensures k !in b ==> a[k := v] + b == (a + b)[k := v]
    ensures a + b[k := v] == (a + b)[k := v]
  {
  }

  lemma SampledMerge(a: multiset<int>, b: multiset<int>, us: int)
    ensures Sampled(a, us) + b == Sampled(a + b, us) == a + Sampled(b, us)
  {
  }

  lemma CoAMerge(a: Agg, b: Agg, e: Event)
    ensures Merge(AtCoA(a, e), b) == AtCoA(Merge(a, b), e) == Merge(a, AtCoA(b, e))
  {
    SampledMerge(a.coa.latencies, b.coa.latencies, e.latencyUs);
  }

  lemma DisconnectMerge(a: Agg, b: Agg, e: Event)
    ensures Merge(AtDisconnect(a, e), b) == AtDisconnect(Merge(a, b), e) == Merge(a, AtDisconnect(b, e))
  {
    SampledMerge(a.disconnect.latencies, b.disconnect.latencies, e.latencyUs);
  }

  lemma CountedMerge(a: Agg, b: Agg, e: Event)
    ensures Merge(Counted(a, e), b) == Counted(Merge(a, b), e) == Merge(a, Counted(b, e))
  {
    assert (a.seen + {e.sub}) + b.seen == (a.seen + b.seen) + {e.sub} == a.seen + (b.seen + {e.sub});
  }

  lemma LifecycleMergeLeft(a: Agg, b: Agg, e: Event)
    requires e.sub !in b.activated && e.sub !in b.established && e.sub !in b.terminal
    ensures Merge(Lifecycle(a, e), b) == Lifecycle(Merge(a, b), e)
  {
    if e.eventType == SubscriberActivated {
      FirstWinsMerge(a.activated, b.activated, e.sub, e.offsetMs);
    } else if e.eventType == SubscriberTerminal {
      FirstWinsMerge(a.established, b.established, e.sub, e.offsetMs);
      PutMerge(a.terminal, b.terminal, e.sub, e.state);
    }
  }

  lemma LifecycleMergeRight(a: Agg, b: Agg, e: Event)
    requires e.sub !in a.activated && e.sub !in a.established && e.sub !in a.terminal
    ensures Merge(a, Lifecycle(b, e)) == Lifecycle(Merge(a, b), e)
  {
    if e.eventType == SubscriberActivated {
      FirstWinsMerge(a.activated, b.activated, e.sub, e.offsetMs);
    } else if e.eventType == SubscriberTerminal {
      FirstWinsMerge(a.established, b.established, e.sub, e.offsetMs);
      PutMerge(a.terminal, b.terminal, e.sub, e.state);
    }
  }

  lemma RetransmitMerge(a: Agg, b: Agg, e: Event)
    ensures e.sub !in b.auth && e.sub !in b.acct ==> Merge(Retransmit(a, e), b) == Retransmit(Merge(a, b), e)
    ensures e.sub !in a.auth && e.sub !in a.acct ==> Merge(a, Retransmit(b, e)) == Retransmit(Merge(a, b), e)
  {
    BumpedMerge(a.auth, b.auth, e.sub);
    BumpedMerge(a.acct, b.acct, e.sub);
  }

  /** An event whose subscriber the other shard does not know may be observed before or after the merge. */
  lemma ObserveMergeLeft(a: Agg, b: Agg, e: Event)
    requires !Knows(b, e.sub)
    ensures Merge(Observed(a, e), b) == Observed(Merge(a, b), e)
  {
    CountedMerge(a, b, e);
    match e.category
    case SubscriberLifecycle => LifecycleMergeLeft(Counted(a, e), b, e);
    case PacketOutbound => RetransmitMerge(Counted(a, e), b, e);
    case CoAInbound => CoAMerge(Counted(a, e), b, e);
    case DisconnectInbound => DisconnectMerge(Counted(a, e), b, e);
    case OtherCategory =>
  }

  lemma ObserveMergeRight(a: Agg, b: Agg, e: Event)
    requires !Knows(a, e.sub)
    ensures Merge(a, Observed(b, e)) == Observed(Merge(a, b), e)
  {
    CountedMerge(a, b, e);
    match e.category
    case SubscriberLifecycle => LifecycleMergeRight(a, Counted(b, e), e);
    case PacketOutbound => RetransmitMerge(a, Counted(b, e), e);
    case CoAInbound => CoAMerge(a, Counted(b, e), e);
    case DisconnectInbound => DisconnectMerge(a, Counted(b, e), e);
    case OtherCategory =>
  }

  /** The event enters its subscriber in some table. */
  predicate Tabled(e: Event) {
    match e.category
    case SubscriberLifecycle => e.eventType == SubscriberActivated || e.eventType == SubscriberTerminal
    case PacketOutbound => e.eventType == RequestRetransmitted && (e.code == 1 || e.code == 4)
    case _ => false
  }

  lemma KnownLifecycle(a: Agg, e: Event, k: nat)
    requires e.category == SubscriberLifecycle
    ensures Knows(Lifecycle(a, e), k) <==> Knows(a, k) || (k == e.sub && Tabled(e))
  {
  }

  lemma KnownRetransmit(a: Agg, e: Event, k: nat)
    ensures Knows(Retransmit(a, e), k) <==> Knows(a, k) || (k == e.sub && (e.code == 1 || e.code == 4))
  {
  }

  lemma KnownElsewhere(a: Agg, e: Event, k: nat)
    ensures Knows(AtCoA(a, e), k) <==> Knows(a, k)
    ensures Knows(AtDisconnect(a, e), k) <==> Knows(a, k)
    ensures Knows(Counted(a, e), k) <==> Knows(a, k)
  {
  }

  /** Exactly whom an event makes known. */
  lemma KnownAfter(a: Agg, e: Event, k: nat)
    ensures Knows(Observed(a, e), k) <==> Knows(a, k) || (k == e.sub && Tabled(e))
  {
    KnownElsewhere(a, e, k);
    KnownElsewhere(Counted(a, e), e, k);
    match e.category
    case SubscriberLifecycle => KnownLifecycle(Counted(a, e), e, k);
    case PacketOutbound => KnownRetransmit(Counted(a, e), e, k);
    case _ =>
  }

  lemma SeenAfter(a: Agg, e: Event, k: nat)
    ensures k in Observed(a, e).seen <==> k in a.seen || (k == e.sub && k != 0)
  {
    ObservedParts(a, e);
  }

  lemma {:induction false} MergeKnows(shards: seq<Agg>, k: nat)
    ensures Knows(MergeAll(shards), k) <==> exists i :: 0 <= i < |shards| && Knows(shards[i], k)
  {
    if shards != [] {
      MergeKnows(shards[..|shards| - 1], k);
      assert Knows(shards[|shards| - 1], k) ==> exists i :: 0 <= i < |shards| && Knows(shards[i], k);
    }
  }

  /** Observing an event in the one shard that may know its subscriber is observing it after the merge. */
  lemma {:induction false} ObserveInOne(shards: seq<Agg>, j: nat, e: Event)
    requires j < |shards| && forall i :: 0 <= i < |shards| && i != j ==> !Knows(shards[i], e.sub)
    ensures MergeAll(shards[j := Observed(shards[j], e)]) == Observed(MergeAll(shards), e)
  {
    var last := |shards| - 1;
    var init := shards[..last];
    var updated := shards[j := Observed(shards[j], e)];
    if j == last {
      MergeKnows(init, e.sub);
      assert updated[..last] == init;
      ObserveMergeRight(MergeAll(init), shards[last], e);
    } else {
      ObserveInOne(init, j, e);
      assert updated[..last] == init[j := Observed(init[j], e)];
      ObserveMergeLeft(MergeAll(init), shards[last], e);
    }
  }

  /** A shard only ever learns about the subscribers dealt to it. */
  lemma {:induction false} ShardKeys(es: seq<Event>, n: nat, i: nat, k: nat)
    requires n > 0
    ensures Knows(Fold(ShardEvents(es, n, i)), k) || k in Fold(ShardEvents(es, n, i)).seen ==> k % n == i
  {
    if es != [] {
      var init, e := es[..|es| - 1], es[|es| - 1];
      ShardKeys(init, n, i, k);
      FoldSnoc(ShardEvents(init, n, i), e);
      KnownAfter(Fold(ShardEvents(init, n, i)), e, k);
      SeenAfter(Fold(ShardEvents(init, n, i)), e, k);
      assert ShardEvents(init, n, i) + [] == ShardEvents(init, n, i);
    }
  }

  /** Merging n shards gives exactly what one shard would have learnt from the whole stream. */
  lemma {:induction false} ShardingLosesNothing(es: seq<Event>, n: nat)
    requires n > 0
    ensures MergeAll(Sharded(es, n)) == Fold(es)
  {
    if es == [] {
      MergeOfNothing(n, Sharded(es, n));
    } else {
      var init, e := es[..|es| - 1], es[|es| - 1];
      var j := e.sub % n;
      ShardingLosesNothing(init, n);
      forall i | 0 <= i < n && i != j ensures !Knows(Sharded(init, n)[i], e.sub) { ShardKeys(init, n, i, e.sub); }
      ObserveInOne(Sharded(init, n), j, e);
      ShardedStep(es, n);
    }
  }

  lemma EmptyPlus<T>(m: map<nat, T>)
    ensures map[] + m == m
  {
  }

  lemma NothingMerged(a: Agg)
    ensures Merge(NOTHING, a) == a
  {
    EmptyPlus(a.activated);
    EmptyPlus(a.established);
    EmptyPlus(a.terminal);
    EmptyPlus(a.auth);
    EmptyPlus(a.acct);
    QuietMerged(a.coa);
    QuietMerged(a.disconnect);
  }

  lemma QuietMerged(t: Traffic)
    ensures MergeTraffic(QUIET, t) == t
  {
  }

  lemma {:induction false} MergeOfNothing(n: nat, shards: seq<Agg>)
    requires |shards| == n && forall i :: 0 <= i < n ==> shards[i] == NOTHING
    ensures MergeAll(shards) == NOTHING
    decreases n
  {
    if n > 0 {
      MergeOfNothing(n - 1, shards[..n - 1]);
      assert shards[n - 1] == NOTHING;
      NothingMerged(NOTHING);
    }
  }

  lemma ShardedStep(es: seq<Event>, n: nat)
    requires n > 0 && es != []
    ensures var init, e := es[..|es| - 1], es[|es| - 1];
            Sharded(es, n) == Sharded(init, n)[e.sub % n := Observed(Sharded(init, n)[e.sub % n], e)]
  {
    var init, e := es[..|es| - 1], es[|es| - 1];
    forall i: nat | i < n
      ensures Fold(ShardEvents(es, n, i))
              == if i == e.sub % n then Observed(Fold(ShardEvents(init, n, i)), e) else Fold(ShardEvents(init, n, i))
    {
      FoldSnoc(ShardEvents(init, n, i), e);
      assert ShardEvents(init, n, i) + [] == ShardEvents(init, n, i);
    }
  }
}
