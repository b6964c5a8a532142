/** Bounded sharded queues, batching and flushing (pkg/collector/collector.go). */
module Collector {
  import opened Wrappers
  import opened Observation
  import opened Aggregate

  const DEFAULT_PER_SHARD_BUFFER := 16384
  const DEFAULT_BATCH_SIZE := 4096

  function Concat(batches: seq<seq<Event>>): seq<Event> {
    if batches == [] then [] else Concat(batches[..|batches| - 1]) + batches[|batches| - 1]
  }

  lemma ConcatSnoc(batches: seq<seq<Event>>, batch: seq<Event>)
    ensures Concat(batches + [batch]) == Concat(batches) + batch
  {
    assert (batches + [batch])[..|batches|] == batches;
  }

  /**
   What one shard worker holds: its channel, its batch, the batches its writer stored, and how many
   writes failed. `taken` and `flushed` are the whole history: every event received and every batch
   handed to the writer.
   */
  datatype Shard = Shard(
    queue: seq<Event>, batch: seq<Event>, written: seq<seq<Event>>, writeErrors: nat,
    taken: seq<Event>, flushed: seq<seq<Event>>)

  predicate ShardOk(s: Shard, perShardBuffer: nat, batchSize: nat) {
    History(s, perShardBuffer, batchSize) && |s.batch| < batchSize
  }

  /** Nothing received is lost: it was handed to the writer, batch by batch, or is in the batch now. */
  predicate History(s: Shard, perShardBuffer: nat, batchSize: nat) {
    && |s.queue| <= perShardBuffer && |s.batch| <= batchSize
    && Concat(s.flushed) + s.batch == s.taken
    && (forall b :: b in s.flushed ==> 0 < |b| <= batchSize)
    && |s.written| + s.writeErrors == |s.flushed|
    && (s.writeErrors == 0 ==> s.written == s.flushed)
  }

  const IDLE := Shard([], [], [], 0, [], [])

  /** One flush: the batch goes to the writer, which stores it or fails; an empty batch is not written. */
  function Flush(s: Shard, ok: bool): Shard {
    if s.batch == [] then s
    else if ok then s.(batch := [], flushed := s.flushed + [s.batch], written := s.written + [s.batch])
    else s.(batch := [], flushed := s.flushed + [s.batch], writeErrors := s.writeErrors + 1)
  }

  function Take(s: Shard): Shard
    requires s.queue != []
  {
    var e := s.queue[0];
    s.(queue := s.queue[1..], batch := s.batch + [e], taken := s.taken + [e])
  }

  lemma FlushKeeps(s: Shard, ok: bool, perShardBuffer: nat, batchSize: nat)
    requires batchSize > 0 && History(s, perShardBuffer, batchSize)
    ensures ShardOk(Flush(s, ok), perShardBuffer, batchSize)
    ensures Flush(s, ok).batch == [] && Flush(s, ok).queue == s.queue && Flush(s, ok).taken == s.taken
  {
    ConcatSnoc(s.flushed, s.batch);
  }

  lemma TakeKeeps(s: Shard, perShardBuffer: nat, batchSize: nat)
    requires s.queue != [] && ShardOk(s, perShardBuffer, batchSize)
    ensures History(Take(s), perShardBuffer, batchSize)
    ensures Take(s).taken + Take(s).queue == s.taken + s.queue
  {
    assert Concat(s.flushed) + (s.batch + [s.queue[0]]) == (Concat(s.flushed) + s.batch) + [s.queue[0]];
  }

  /** One event received: it joins the batch, and a full batch is flushed. */
  function Next(s: Shard, ok: bool, batchSize: nat): (t: Shard)
    requires s.queue != []
    ensures t.queue == s.queue[1..]
  {
    var t := Take(s);
    if |t.batch| >= batchSize then Flush(t, ok) else t
  }

  lemma NextKeeps(s: Shard, ok: bool, perShardBuffer: nat, batchSize: nat)
    requires s.queue != [] && ShardOk(s, perShardBuffer, batchSize)
    ensures ShardOk(Next(s, ok, batchSize), perShardBuffer, batchSize)
    ensures Next(s, ok, batchSize).taken == s.taken + [s.queue[0]] && Next(s, ok, batchSize).queue == s.queue[1..]
    ensures Next(s, ok, batchSize).taken + Next(s, ok, batchSize).queue == s.taken + s.queue
  {
    TakeKeeps(s, perShardBuffer, batchSize);
    FlushKeeps(Take(s), ok, perShardBuffer, batchSize);
  }

  /** An event joins the batch; the one that fills it sends the batch off, stored or counted as a failed write. */
  lemma FullBatchGoesOff(s: Shard, ok: bool, batchSize: nat)
    requires s.queue != []
    ensures var t, batch := Next(s, ok, batchSize), s.batch + [s.queue[0]];
            if |batch| < batchSize
            then t.batch == batch && t.flushed == s.flushed && t.written == s.written && t.writeErrors == s.writeErrors
            else t.batch == [] && t.flushed == s.flushed + [batch]
                 && t.written == (if ok then s.written + [batch] else s.written)
                 && t.writeErrors == s.writeErrors + if ok then 0 else 1
  {
  }

  lemma ShardEventsSnoc(es: seq<Event>, e: Event, n: nat, i: nat)
    requires n > 0
    ensures ShardEvents(es + [e], n, i) == ShardEvents(es, n, i) + if e.sub % n == i then [e] else []
  {
    assert (es + [e])[..|es|] == es;
  }

  /** Shard i received, or still queues, exactly the accepted events dealt to it, in order. */
  ghost predicate Accounted(shards: seq<Shard>, accepted: seq<Event>) {
    |shards| > 0 &&
    forall i :: 0 <= i < |shards| ==> shards[i].taken + shards[i].queue == ShardEvents(accepted, |shards|, i)
  }

  ghost predicate AllOk(shards: seq<Shard>, perShardBuffer: nat, batchSize: nat) {
    forall i :: 0 <= i < |shards| ==> ShardOk(shards[i], perShardBuffer, batchSize)
  }

  /** Subscribers are dealt out by id modulo the number of shards. */
  function ShardOf(e: Event, n: nat): (i: nat)
    requires n > 0
    ensures i < n
  {
    e.sub % n
  }

  function Enqueued(shards: seq<Shard>, e: Event): (r: seq<Shard>)
    requires |shards| > 0
    ensures |r| == |shards|
  {
    var i := ShardOf(e, |shards|);
    shards[i := shards[i].(queue := shards[i].queue + [e])]
  }

  lemma EnqueueAccounted(shards: seq<Shard>, accepted: seq<Event>, e: Event)
    requires Accounted(shards, accepted)
    ensures Accounted(Enqueued(shards, e), accepted + [e])
    ensures forall j :: 0 <= j < |shards| ==> Enqueued(shards, e)[j].taken == shards[j].taken
  {
    var n := |shards|;
    var i := ShardOf(e, n);
    var now := Enqueued(shards, e);
    forall j | 0 <= j < n ensures now[j].taken + now[j].queue == ShardEvents(accepted + [e], n, j) {
      ShardEventsSnoc(accepted, e, n, j);
      assert shards[i].taken + (shards[i].queue + [e]) == (shards[i].taken + shards[i].queue) + [e];
    }
  }

  /** Replacing one shard by a sound one that received and queues the same events. */
  lemma ReplaceKeeps(shards: seq<Shard>, i: nat, s: Shard, accepted: seq<Event>, perShardBuffer: nat, batchSize: nat)
    requires i < |shards| && Accounted(shards, accepted) && AllOk(shards, perShardBuffer, batchSize)
    requires ShardOk(s, perShardBuffer, batchSize) && s.taken + s.queue == shards[i].taken + shards[i].queue
    ensures Accounted(shards[i := s], accepted) && AllOk(shards[i := s], perShardBuffer, batchSize)
  {
  }

  lemma IdleOk(n: nat, perShardBuffer: nat, batchSize: nat)
    requires n > 0 && batchSize > 0
    ensures Accounted(Idle(n), []) && AllOk(Idle(n), perShardBuffer, batchSize)
  {
  }

  function Idle(n: nat): (shards: seq<Shard>)
    ensures |shards| == n && forall i :: 0 <= i < n ==> shards[i] == IDLE
  {
    seq(n, _ => IDLE)
  }

  method NewAggregations(n: nat) returns (created: seq<ShardAggregation>)
    ensures |created| == n && fresh(created)
    ensures forall i :: 0 <= i < n ==> created[i].Value() == NOTHING
    ensures forall i, j :: 0 <= i < j < n ==> created[i] != created[j]
  {
    created := [];
    while |created| < n
      invariant |created| <= n && fresh(created)
      invariant forall i :: 0 <= i < |created| ==> created[i].Value() == NOTHING
      invariant forall i, j :: 0 <= i < j < |created| ==> created[i] != created[j]
    {
      var next := new ShardAggregation();
      created := created + [next];
    }
  }

  /** With nothing queued or batched, each shard received its accepted events, and stored them unless a write failed. */
  lemma DrainedMeans(shards: seq<Shard>, accepted: seq<Event>, perShardBuffer: nat, batchSize: nat, i: nat)
    requires Accounted(shards, accepted) && AllOk(shards, perShardBuffer, batchSize) && Drained(shards)
    requires i < |shards|
    ensures shards[i].taken == ShardEvents(accepted, |shards|, i)
    ensures shards[i].writeErrors == 0 ==> Concat(shards[i].written) == shards[i].taken
  {
    assert ShardOk(shards[i], perShardBuffer, batchSize);
  }

  lemma EnqueueKeeps(shards: seq<Shard>, accepted: seq<Event>, e: Event, perShardBuffer: nat, batchSize: nat)
    requires Accounted(shards, accepted) && AllOk(shards, perShardBuffer, batchSize)
    requires |shards[ShardOf(e, |shards|)].queue| < perShardBuffer
    ensures Accounted(Enqueued(shards, e), accepted + [e]) && AllOk(Enqueued(shards, e), perShardBuffer, batchSize)
    ensures forall j :: 0 <= j < |shards| ==> Enqueued(shards, e)[j].taken == shards[j].taken
  {
    EnqueueAccounted(shards, accepted, e);
  }

  ghost predicate DrainedBelow(shards: seq<Shard>, n: nat) {
    forall i :: 0 <= i < n && i < |shards| ==> shards[i].queue == [] && shards[i].batch == []
  }

  lemma DrainedReplace(shards: seq<Shard>, i: nat, s: Shard)
    requires i < |shards| && DrainedBelow(shards, i)
    ensures DrainedBelow(shards[i := s], i)
    ensures s.queue == [] && s.batch == [] ==> DrainedBelow(shards[i := s], i + 1)
  {
  }

  ghost predicate Drained(shards: seq<Shard>) {
    DrainedBelow(shards, |shards|)
  }

  class Collector {
    const shardCount: nat
    const perShardBuffer: nat
    const batchSize: nat
    const aggregations: seq<ShardAggregation>

    var shards: seq<Shard>
    var totalSubmitted: nat
    var droppedFull: nat
    var dropped: nat
    var stopped: bool

    /** Every event Submit put on a channel, in order; and how many Submits there were. */
    ghost var accepted: seq<Event>
    ghost var submits: nat

    /** Every shard's counters are a single pass over what it received. */
    ghost predicate Aggregated(shards: seq<Shard>)
      reads aggregations
    {
      |shards| == |aggregations| && forall i :: 0 <= i < |shards| ==> aggregations[i].Value() == Fold(shards[i].taken)
    }

    ghost predicate Valid()
      reads this, aggregations
    {
      ValidBut(0)
    }

    /** Valid, but for the given number of Submits not yet counted anywhere. */
    ghost predicate ValidBut(pending: nat)
      reads this, aggregations
    {
      Books(pending) && Aggregated(shards)
    }

    /** What does not concern the counters. */
    ghost predicate Books(pending: nat)
      reads this
    {
      && shardCount > 0 && batchSize > 0 && |shards| == shardCount && |aggregations| == shardCount
      && (forall i, j :: 0 <= i < j < shardCount ==> aggregations[i] != aggregations[j])
      && |accepted| == totalSubmitted
      && submits == totalSubmitted + droppedFull + dropped + pending
      && AllOk(shards, perShardBuffer, batchSize)
      && Accounted(shards, accepted)
      && (stopped ==> Drained(shards))
    }

    constructor (shardCount: int, perShardBuffer: int, batchSize: int, cpus: nat)
      requires cpus > 0
      ensures Valid() && !stopped && accepted == [] && submits == 0
      ensures fresh(aggregations)
      ensures this.shardCount == if shardCount <= 0 then cpus else shardCount
      ensures this.perShardBuffer == if perShardBuffer <= 0 then 16384 else perShardBuffer
      ensures this.batchSize == if batchSize <= 0 then 4096 else batchSize
    {
      var n: nat := if shardCount <= 0 then cpus else shardCount;
      this.shardCount := n;
      var buffer: nat := if perShardBuffer <= 0 then DEFAULT_PER_SHARD_BUFFER else perShardBuffer;
      var size: nat := if batchSize <= 0 then DEFAULT_BATCH_SIZE else batchSize;
      this.perShardBuffer := buffer;
      this.batchSize := size;
      this.shards := Idle(n);
      totalSubmitted, droppedFull, dropped, stopped := 0, 0, 0, false;
      accepted, submits := [], 0;
      IdleOk(n, buffer, size);
      var created := NewAggregations(n);
      this.aggregations := created;
    }

    lemma SameCounters(a: seq<Shard>, b: seq<Shard>)
      requires Aggregated(a) && |a| == |b| && forall i :: 0 <= i < |a| ==> b[i].taken == a[i].taken
      ensures Aggregated(b)
    {
    }

    method Accept(queued: seq<Shard>, ghost all: seq<Event>)
      requires ValidBut(1) && !stopped && |queued| == shardCount && |all| == |accepted| + 1
      requires Accounted(queued, all) && AllOk(queued, perShardBuffer, batchSize) && Aggregated(queued)
      modifies this`shards, this`totalSubmitted, this`accepted
      ensures ValidBut(0) && accepted == all && shards == queued
    {
      shards := queued;
      totalSubmitted := totalSubmitted + 1;
      accepted := all;
    }

    /** The channel had room. */
    method Enqueue(e: Event)
      requires ValidBut(1) && !stopped && |shards[ShardOf(e, shardCount)].queue| < perShardBuffer
      modifies this`shards, this`totalSubmitted, this`accepted
      ensures ValidBut(0)
      ensures accepted == old(accepted) + [e] && shards == Enqueued(old(shards), e)
    {
      EnqueueKeeps(shards, accepted, e, perShardBuffer, batchSize);
      SameCounters(shards, Enqueued(shards, e));
      Accept(Enqueued(shards, e), accepted + [e]);
    }

    method Refuse(late: bool)
      requires ValidBut(1)
      modifies this`dropped, this`droppedFull
      ensures Valid()
      ensures dropped == old(dropped) + (if late then 1 else 0)
      ensures droppedFull == old(droppedFull) + (if late then 0 else 1)
    {
      if late {
        dropped := dropped + 1;
      } else {
        droppedFull := droppedFull + 1;
      }
    }

    /** Onto the channel if it has room. */
    method Offer(e: Event)
      requires ValidBut(1) && !stopped
      modifies this`shards, this`totalSubmitted, this`accepted, this`dropped, this`droppedFull
      ensures Valid()
      ensures var i := ShardOf(e, shardCount);
              if |old(shards)[i].queue| < perShardBuffer
              then accepted == old(accepted) + [e] && shards == Enqueued(old(shards), e)
              else droppedFull == old(droppedFull) + 1 && accepted == old(accepted) && shards == old(shards)
    {
      if |shards[ShardOf(e, shardCount)].queue| < perShardBuffer {
        Enqueue(e);
      } else {
        Refuse(false);
      }
    }

    /** One more call, not yet counted anywhere. */
    ghost method Begin()
      requires Valid()
      modifies this`submits
      ensures ValidBut(1) && submits == old(submits) + 1
    {
      submits := submits + 1;
    }

    /** Never blocks: an event is put on its channel, or counted as dropped. */
    method Submit(e: Event)
      requires Valid()
      modifies this
      ensures Valid() && stopped == old(stopped) && submits == old(submits) + 1
      ensures old(stopped) ==> dropped == old(dropped) + 1 && accepted == old(accepted) && shards == old(shards)
      ensures !old(stopped) ==>
                var i := ShardOf(e, shardCount);
                if |old(shards)[i].queue| < perShardBuffer
                then accepted == old(accepted) + [e] && shards == Enqueued(old(shards), e)
                else droppedFull == old(droppedFull) + 1 && accepted == old(accepted) && shards == old(shards)
    {
      Begin();
      if stopped {
        Refuse(true);
      } else {
        Offer(e);
      }
    }

    /** The worker's new state, accounting for the same events. */
    method Store(i: nat, s: Shard)
      requires Books(0) && i < shardCount && !stopped && Aggregated(shards[i := s])
      requires ShardOk(s, perShardBuffer, batchSize) && s.taken + s.queue == shards[i].taken + shards[i].queue
      modifies this`shards
      ensures Valid() && shards == old(shards)[i := s]
    {
      ReplaceKeeps(shards, i, s, accepted, perShardBuffer, batchSize);
      shards := shards[i := s];
    }

    /** A shard worker flushes its batch; whether the write succeeds is up to the file system. */
    method FlushShard(i: nat) returns (ok: bool)
      requires Valid() && i < shardCount && !stopped
      modifies this`shards
      ensures Valid() && shards == old(shards)[i := Flush(old(shards)[i], ok)]
    {
      ok := *;
      FlushKeeps(shards[i], ok, perShardBuffer, batchSize);
      Store(i, Flush(shards[i], ok));
    }

    /** The event at the head of the channel goes into the shard's counters. */
    method ObserveNext(i: nat, ghost next: Shard)
      requires i < shardCount == |shards| && Aggregated(shards) && shards[i].queue != []
      requires forall j, k :: 0 <= j < k < shardCount ==> aggregations[j] != aggregations[k]
      requires next.taken == shards[i].taken + [shards[i].queue[0]]
      modifies aggregations[i]
      ensures Aggregated(shards[i := next])
    {
      FoldSnoc(shards[i].taken, shards[i].queue[0]);
      aggregations[i].Observe(shards[i].queue[0]);
    }

    /** A shard worker receives one event: it is observed, batched, and a full batch is flushed. */
    method Receive(i: nat) returns (ok: bool)
      requires Valid() && i < shardCount && !stopped && shards[i].queue != []
      modifies this`shards, aggregations[i]
      ensures Valid() && shards == old(shards)[i := Next(old(shards)[i], ok, batchSize)]
    {
      ok := *;
      ghost var next := Next(shards[i], ok, batchSize);
      NextKeeps(shards[i], ok, perShardBuffer, batchSize);
      ObserveNext(i, next);
      var s := Take(shards[i]);
      if |s.batch| >= batchSize {
        s := Flush(s, ok);
      }
      Store(i, s);
    }

    /** The closed channel is emptied, then the last batch flushed. */
    method DrainShard(i: nat)
      requires Valid() && i < shardCount && !stopped && DrainedBelow(shards, i)
      modifies this`shards, aggregations[i]
      ensures Valid() && DrainedBelow(shards, i + 1)
    {
      while shards[i].queue != []
        invariant Valid() && DrainedBelow(shards, i)
        decreases |shards[i].queue|
      {
        ghost var before := shards;
        var ok := Receive(i);
        DrainedReplace(before, i, Next(before[i], ok, batchSize));
      }
      ghost var before := shards;
      var ok := FlushShard(i);
      DrainedReplace(before, i, Flush(before[i], ok));
    }

    /**
     A clean stop. No event is accepted afterwards, every shard has observed exactly the accepted events
     dealt to it, once and in order, and unless a write failed its file holds exactly those events.
     */
    method Stop()
      requires Valid()
      modifies this`shards, this`stopped, aggregations
      ensures Valid() && stopped
      ensures forall i :: 0 <= i < shardCount ==> aggregations[i].Value() == Fold(ShardEvents(accepted, shardCount, i))
      ensures forall i :: 0 <= i < shardCount && shards[i].writeErrors == 0 ==>
                Concat(shards[i].written) == ShardEvents(accepted, shardCount, i)
    {
      if !stopped {
        var i := 0;
        while i < shardCount
          invariant i <= shardCount && Valid() && !stopped && DrainedBelow(shards, i)
        {
          DrainShard(i);
          i := i + 1;
        }
        stopped := true;
      }
      forall i | 0 <= i < shardCount
        ensures shards[i].taken == ShardEvents(accepted, shardCount, i)
        ensures shards[i].writeErrors == 0 ==> Concat(shards[i].written) == shards[i].taken
      {
        DrainedMeans(shards, accepted, perShardBuffer, batchSize, i);
      }
    }

    lemma OneBySharding()
      requires Valid() && stopped
      ensures Values(aggregations) == Sharded(accepted, shardCount)
    {
      forall i | 0 <= i < shardCount ensures Values(aggregations)[i] == Sharded(accepted, shardCount)[i] {
        DrainedMeans(shards, accepted, perShardBuffer, batchSize, i);
      }
    }

    /**
     The summary, only after Stop. It is the summary a single shard would give after one pass over every
     accepted event.
     */
    method Summary(bucketMs: int) returns (r: Result<Aggregate.Summary, string>)
      requires Valid()
      ensures r.Ok? <==> stopped
      ensures r.Ok? ==> r.value == SummaryOf([Fold(accepted)], bucketMs)
    {
      if !stopped {
        return Err("collector aggregate: must call Stop before Aggregate");
      }
      OneBySharding();
      ShardedSummary(accepted, shardCount, bucketMs);
      var s := Aggregate.Aggregate(aggregations, Sharded(accepted, shardCount), bucketMs);
      r := Ok(s);
    }
  }
}
