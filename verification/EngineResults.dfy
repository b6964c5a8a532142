/**
 What a Send returns and how a Deliver ends, read off the steps of the run they were part of
 (pkg/io/sender.go, pkg/io/matcher.go).
 */
module EngineResults {
  import opened Wrappers
  import opened Bytes
  import opened Packets
  import opened Matcher
  import opened RequestEngine
  import opened EngineRuns
  import IdAllocator

  // ---- What a Send returns ----

  /**
   What step j settles for Send i: a reply read off the channel, a timeout of the last attempt allowed, a
   cancelled context, a failed build or write, or a scan given up.
   */
  function Decision(states: seq<State>, steps: seq<Step>, j: nat, i: nat): Option<SendResult>
    requires j < |steps| < |states|
  {
    if !steps[j].SendStep? || steps[j].i != i || i !in states[j].sends then None
    else
      var s, x := states[j], states[j].sends[i];
      match steps[j].a
      case Receive =>
        if x.phase.Waiting? && Buffer(s.channels, x.phase.token) != [] && x.sent != []
        then Some(Replied(x.phase.lease, x.phase.token, s.channels[x.phase.token][0], x.sent[|x.sent| - 1]))
        else None
      case Expire => if |x.sent| >= x.maxAttempts then Some(FinalTimeout) else None
      case CancelContext => Some(Aborted(ContextDone))
      case FailBuild => Some(Aborted(BuildFailed))
      case Write(ok) => if ok then None else Some(Aborted(WriteFailed))
      case GiveUpScan(exhausted) => Some(if exhausted then Exhausted else Aborted(ContextDone))
      case _ => None
  }

  /** What is settled for a Send once its thread stands here. */
  function Settled(x: Send): Option<SendResult> {
    match x.phase
    case Cancelling(_, _, why) => SettledBy(x, None, why)
    case Releasing(lease, why) => SettledBy(x, Some(lease), why)
    case Returned(result) => Some(result)
    case _ => None
  }

  function SettledBy(x: Send, lease: Option<Lease>, why: Why): Option<SendResult> {
    match why
    case TimedOut => if x.attempt + 1 < x.maxAttempts then None else Some(FinalTimeout)
    case Answered(token, delivery) =>
      if lease.Some? then Some(Replied(lease.value, token, delivery, x.attempt)) else None
    case _ => Some(Aborted(why))
  }

  /** One step of Send i settles what Decision says, where nothing was settled, or leaves what was. */
  lemma SettledAfter(c: Config, states: seq<State>, steps: seq<Step>, j: nat, i: nat)
    requires j < |steps| && |states| == |steps| + 1 && StepTaken(c, states, steps, j) && i in states[j].sends
    requires steps[j].SendStep? && steps[j].i == i && CountsOk(states[j].sends[i])
    ensures i in states[j + 1].sends
    ensures var was, now := Settled(states[j].sends[i]), Settled(states[j + 1].sends[i]);
            var decided := Decision(states, steps, j, i);
            && (decided.Some? ==> was.None? && now == decided)
            && (decided.None? ==> now == was)
  {
    OwnStep(states[j], i, steps[j].a);
  }

  lemma OwnStep(s: State, i: nat, a: SendAction)
    requires CanSend(s, i, a) && i in s.sends
    ensures i in DoSend(s, i, a).sends && DoSend(s, i, a).sends[i] == NextSend(s, i, a)
  {
  }

  lemma OtherStep(c: Config, s: State, st: Step, i: nat)
    requires CanDo(c, s, st) && i in s.sends && !(st.SendStep? && st.i == i)
    ensures i in Do(c, s, st).sends && Do(c, s, st).sends[i] == s.sends[i]
  {
    LeaseLifecycle(c, s, st);
  }

  lemma FirstSend(s: State, j: nat, a: SendAction, i: nat)
    requires CanSend(s, j, a) && i !in s.sends && i in DoSend(s, j, a).sends
    ensures j == i && a.Start?
    ensures var x := DoSend(s, j, a).sends[i];
            && x.phase.Scanning? && x.dst == a.dst
            && x.maxAttempts == if a.maxRetries >= 0 then a.maxRetries + 1 else 1
  {
  }

  lemma FirstStep(c: Config, s: State, st: Step, i: nat)
    requires CanDo(c, s, st) && i !in s.sends && i in Do(c, s, st).sends
    ensures st.SendStep? && st.i == i && st.a.Start?
    ensures var x := Do(c, s, st).sends[i];
            && x.phase.Scanning? && x.dst == st.a.dst
            && x.maxAttempts == if st.a.maxRetries >= 0 then st.a.maxRetries + 1 else 1
  {
    match st
    case SendStep(j, a) => FirstSend(s, j, a, i);
    case DeliverStep(d, b) =>
      if b.TryClaim? { ClaimEffects(c, s, d, b); } else { OnlyClaimMatches(c, s, d, b); }
    case CloseAll =>
  }

  lemma CountsInRun(c: Config, states: seq<State>, steps: seq<Step>, k: nat, i: nat)
    requires Run(c, states, steps) && k < |states| && i in states[k].sends
    ensures CountsOk(states[k].sends[i])
  {
    RunKeepsInv(c, states, steps, k);
  }

  /** The steps that settled something for Send i, among the first k. */
  ghost predicate SettledAt(states: seq<State>, steps: seq<Step>, k: nat, i: nat, r: SendResult, j: nat)
    requires k <= |steps| < |states|
  {
    j < k && Decision(states, steps, j, i) == Some(r)
  }

  ghost predicate OnlySettledAs(states: seq<State>, steps: seq<Step>, k: nat, i: nat, now: Option<SendResult>)
    requires k <= |steps| < |states|
  {
    && (forall j: nat :: j < k && Decision(states, steps, j, i).Some? ==> Decision(states, steps, j, i) == now)
    && (forall j: nat, l: nat :: j < l < k ==>
          Decision(states, steps, j, i).None? || Decision(states, steps, l, i).None?)
    && (now.Some? ==> exists j: nat :: SettledAt(states, steps, k, i, now.value, j))
  }

  lemma OnlySettledStep(
      states: seq<State>, steps: seq<Step>, k: nat, i: nat, was: Option<SendResult>, now: Option<SendResult>)
    requires k < |steps| < |states| && OnlySettledAs(states, steps, k, i, was)
    requires var decided := Decision(states, steps, k, i);
             (decided.Some? ==> was.None? && now == decided) && (decided.None? ==> now == was)
    ensures OnlySettledAs(states, steps, k + 1, i, now)
  {
    if Decision(states, steps, k, i).Some? {
      assert SettledAt(states, steps, k + 1, i, now.value, k);
    } else if now.Some? {
      var j: nat :| SettledAt(states, steps, k, i, now.value, j);
      assert SettledAt(states, steps, k + 1, i, now.value, j);
    }
  }

  lemma {:induction false} SettledOverRun(c: Config, states: seq<State>, steps: seq<Step>, k: nat, i: nat)
    requires Run(c, states, steps) && k <= |steps|
    ensures OnlySettledAs(states, steps, k, i, if i in states[k].sends then Settled(states[k].sends[i]) else None)
  {
    if k > 0 {
      var s, st := states[k - 1], steps[k - 1];
      SettledOverRun(c, states, steps, k - 1, i);
      assert StepTaken(c, states, steps, k - 1);
      if i !in s.sends {
        if i in states[k].sends { FirstStep(c, s, st, i); }
      } else if st.SendStep? && st.i == i {
        CountsInRun(c, states, steps, k - 1, i);
        SettledAfter(c, states, steps, k - 1, i);
      } else {
        OtherStep(c, s, st, i);
      }
      OnlySettledStep(states, steps, k - 1, i,
                      if i in s.sends then Settled(s.sends[i]) else None,
                      if i in states[k].sends then Settled(states[k].sends[i]) else None);
    }
  }

  /**
   A Send that has returned reports exactly what one step of its own settled, and no other step of it
   settled anything: a reply if and only if it read one off its channel, which is then the reply returned, with
   the Identifier and the token it waited under and the number last sent; a final timeout if and only if
   the timer of its last attempt ran out; and so on.
   */
  lemma ReturnedAsSettled(c: Config, states: seq<State>, steps: seq<Step>, k: nat, i: nat)
    requires Run(c, states, steps) && k <= |steps| && i in states[k].sends && states[k].sends[i].phase.Returned?
    ensures var r := states[k].sends[i].phase.result;
            && (exists j: nat :: SettledAt(states, steps, k, i, r, j))
            && (forall j: nat :: j < k && Decision(states, steps, j, i).Some? ==>
                  Decision(states, steps, j, i) == Some(r))
            && (forall j: nat, l: nat :: j < l < k ==>
                  Decision(states, steps, j, i).None? || Decision(states, steps, l, i).None?)
  {
    SettledOverRun(c, states, steps, k, i);
  }

  /** In particular for the reply: whatever ran in between, what was read off the channel is what is returned. */
  lemma ReceivedIsReturned(c: Config, states: seq<State>, steps: seq<Step>, j: nat, k: nat, i: nat)
    requires Run(c, states, steps) && j < k <= |steps| && steps[j] == SendStep(i, Receive)
    requires i in states[k].sends && states[k].sends[i].phase.Returned?
    ensures i in states[j].sends && states[j].sends[i].phase.Waiting?
    ensures var x := states[j].sends[i];
            && Buffer(states[j].channels, x.phase.token) != [] && x.sent != []
            && states[k].sends[i].phase.result
               == Replied(x.phase.lease, x.phase.token, states[j].channels[x.phase.token][0], x.sent[|x.sent| - 1])
  {
    assert StepTaken(c, states, steps, j);
    CountsInRun(c, states, steps, j, i);
    SettledOverRun(c, states, steps, k, i);
    assert Decision(states, steps, j, i).Some?;
  }

  /** The limit and the destination of a Send are those it was started with: MaxRetries + 1 attempts, at least one. */
  lemma {:induction false} StartedAs(c: Config, states: seq<State>, steps: seq<Step>, j: nat, k: nat, i: nat)
    requires Run(c, states, steps) && j < k <= |steps| && steps[j].SendStep? && steps[j].i == i && steps[j].a.Start?
    ensures i in states[k].sends && states[k].sends[i].dst == steps[j].a.dst
    ensures states[k].sends[i].maxAttempts == if steps[j].a.maxRetries >= 0 then steps[j].a.maxRetries + 1 else 1
    decreases k
  {
    assert StepTaken(c, states, steps, k - 1);
    if j == k - 1 {
      FirstStep(c, states[j], steps[j], i);
    } else {
      StartedAs(c, states, steps, j, k - 1, i);
      if steps[k - 1].SendStep? && steps[k - 1].i == i {
        OwnStep(states[k - 1], i, steps[k - 1].a);
      } else {
        OtherStep(c, states[k - 1], steps[k - 1], i);
      }
    }
  }

  /**
   A Send never stands still but while it waits: it can take up, build, write, cancel and release, and once a
   delivery is on its channel it can read it.
   */
  lemma SendCanGoOn(s: State, i: nat, src: string, id: byte, auth: Digest, sub: nat, a: SendAction)
    requires i in s.sends
    ensures match s.sends[i].phase
            case Scanning =>
              && CanSend(s, i, GiveUpScan(true)) && CanSend(s, i, GiveUpScan(false))
              && (Lease(IdAllocator.Tuple(src, s.sends[i].dst), id) !in s.held ==> CanSend(s, i, Allocate(src, id)))
            case Building(_) => CanSend(s, i, Register(auth, sub)) && CanSend(s, i, FailBuild)
            case Writing(_, _) => CanSend(s, i, Write(true)) && CanSend(s, i, Write(false))
            case Waiting(_, t) =>
              && CanSend(s, i, Expire) && CanSend(s, i, CancelContext)
              && (t in s.channels && s.channels[t] != [] ==> CanSend(s, i, Receive))
            case Cancelling(_, _, _) => CanSend(s, i, CancelEntry)
            case Releasing(_, _) => CanSend(s, i, Release)
            case Returned(_) => !CanSend(s, i, a)
  {
  }

  // ---- How a Deliver ends ----

  /** Step j is the lookup of Deliver d, and finds this entry pending. */
  ghost predicate FoundPending(states: seq<State>, steps: seq<Step>, j: nat, d: nat, ifl: Inflight)
    requires j < |steps| < |states|
  {
    && steps[j] == DeliverStep(d, Lookup) && d in states[j].delivers
    && var k := states[j].delivers[d].Key(); k in states[j].tables.pending && states[j].tables.pending[k] == ifl
  }

  /** Step j is its last look at what was recently answered: with nothing pending, or after losing the claim. */
  ghost predicate LookedBack(states: seq<State>, steps: seq<Step>, j: nat, d: nat, dup: Option<Completed>)
    requires j < |steps| < |states|
  {
    && d in states[j].delivers
    && var k, t := states[j].delivers[d].Key(), states[j].tables;
       && (steps[j] == DeliverStep(d, Reread) || (steps[j] == DeliverStep(d, Lookup) && k !in t.pending))
       && dup == if k in t.recentDone then Some(t.recentDone[k]) else None
  }

  /** Step j is its claim, made while that entry was still the pending one. */
  ghost predicate ClaimedAt(states: seq<State>, steps: seq<Step>, j: nat, d: nat, ifl: Inflight)
    requires j < |steps| < |states|
  {
    && steps[j].DeliverStep? && steps[j].d == d && steps[j].b.TryClaim? && d in states[j].delivers
    && var k := states[j].delivers[d].Key();
       k in states[j].tables.pending && states[j].tables.pending[k].token == ifl.token
  }

  ghost predicate EverFound(states: seq<State>, steps: seq<Step>, k: nat, d: nat, ifl: Inflight)
    requires k <= |steps| < |states|
  {
    exists j: nat :: j < k && FoundPending(states, steps, j, d, ifl)
  }

  ghost predicate EverClaimed(states: seq<State>, steps: seq<Step>, k: nat, d: nat, ifl: Inflight)
    requires k <= |steps| < |states|
  {
    exists j: nat :: j < k && ClaimedAt(states, steps, j, d, ifl)
  }

  ghost predicate EverLookedBack(states: seq<State>, steps: seq<Step>, k: nat, d: nat, dup: Option<Completed>)
    requires k <= |steps| < |states|
  {
    exists j: nat :: j < k && LookedBack(states, steps, j, d, dup)
  }

  /** The reply of Deliver d verifies for an entry that was pending when it looked and still when it claimed. */
  ghost predicate Matched(c: Config, states: seq<State>, steps: seq<Step>, k: nat, d: nat, x: Delivery)
    requires k <= |steps| < |states|
  {
    exists ifl: Inflight :: c.verifies(x, ifl.requestAuth)
      && EverFound(states, steps, k, d, ifl) && EverClaimed(states, steps, k, d, ifl)
  }

  ghost predicate Refuted(c: Config, states: seq<State>, steps: seq<Step>, k: nat, d: nat, x: Delivery)
    requires k <= |steps| < |states|
  {
    exists ifl: Inflight :: !c.verifies(x, ifl.requestAuth) && EverFound(states, steps, k, d, ifl)
  }

  ghost predicate Repeated(c: Config, states: seq<State>, steps: seq<Step>, k: nat, d: nat, x: Delivery, again: bool)
    requires k <= |steps| < |states|
  {
    exists dup: Option<Completed> ::
      (again <==> dup.Some? && c.verifies(x, dup.value.requestAuth)) && EverLookedBack(states, steps, k, d, dup)
  }

  /** Why a Deliver stands where it does. */
  ghost predicate Explained(c: Config, states: seq<State>, steps: seq<Step>, k: nat, d: nat, x: Deliver)
    requires k <= |steps| < |states|
  {
    match x.phase
    case Arrived => true
    case Checking(ifl) => EverFound(states, steps, k, d, ifl)
    case Claiming(ifl) => c.verifies(x.delivery, ifl.requestAuth) && EverFound(states, steps, k, d, ifl)
    case Pushing(ifl) =>
      && c.verifies(x.delivery, ifl.requestAuth)
      && EverFound(states, steps, k, d, ifl) && EverClaimed(states, steps, k, d, ifl)
    case Rereading => true
    case Judging(dup) => EverLookedBack(states, steps, k, d, dup)
    case Finished(Delivered) => Matched(c, states, steps, k, d, x.delivery)
    case Finished(ValidationFailed) => Refuted(c, states, steps, k, d, x.delivery)
    case Finished(DuplicateReply) => Repeated(c, states, steps, k, d, x.delivery, true)
    case Finished(UnmatchedReply) => Repeated(c, states, steps, k, d, x.delivery, false)
  }

  lemma EverLater(c: Config, states: seq<State>, steps: seq<Step>, k: nat, d: nat)
    requires k < |steps| < |states|
    ensures forall ifl: Inflight :: EverFound(states, steps, k, d, ifl) ==> EverFound(states, steps, k + 1, d, ifl)
    ensures forall ifl: Inflight :: EverClaimed(states, steps, k, d, ifl) ==> EverClaimed(states, steps, k + 1, d, ifl)
    ensures forall dup: Option<Completed> ::
              EverLookedBack(states, steps, k, d, dup) ==> EverLookedBack(states, steps, k + 1, d, dup)
  {
  }

  lemma ExplainedLater(c: Config, states: seq<State>, steps: seq<Step>, k: nat, d: nat, x: Deliver)
    requires k < |steps| < |states| && Explained(c, states, steps, k, d, x)
    ensures Explained(c, states, steps, k + 1, d, x)
  {
    EverLater(c, states, steps, k, d);
  }

  lemma ExplainedStep(c: Config, states: seq<State>, steps: seq<Step>, k: nat, d: nat, b: DeliverAction)
    requires k < |steps| < |states| && steps[k] == DeliverStep(d, b) && CanDeliver(c, states[k], d, b)
    requires d in states[k].delivers ==> Explained(c, states, steps, k, d, states[k].delivers[d])
    ensures Explained(c, states, steps, k + 1, d, NextDeliver(c, states[k], d, b))
  {
    var s := states[k];
    EverLater(c, states, steps, k, d);
    if b.Lookup? {
      var key := s.delivers[d].Key();
      if key in s.tables.pending {
        assert FoundPending(states, steps, k, d, s.tables.pending[key]);
      } else {
        assert LookedBack(
          states, steps, k, d, if key in s.tables.recentDone then Some(s.tables.recentDone[key]) else None);
      }
    } else if b.Reread? {
      var key := s.delivers[d].Key();
      assert LookedBack(
        states, steps, k, d, if key in s.tables.recentDone then Some(s.tables.recentDone[key]) else None);
    } else if b.TryClaim? {
      ClaimExplained(states, steps, k, d);
    }
  }

  lemma ClaimExplained(states: seq<State>, steps: seq<Step>, k: nat, d: nat)
    requires k < |steps| < |states| && d in states[k].delivers && states[k].delivers[d].phase.Claiming?
    requires steps[k].DeliverStep? && steps[k].d == d && steps[k].b.TryClaim?
    ensures var x := states[k].delivers[d];
            StillPending(states[k].tables, x.Key(), x.phase.ifl) ==> EverClaimed(states, steps, k + 1, d, x.phase.ifl)
  {
    var x := states[k].delivers[d];
    if StillPending(states[k].tables, x.Key(), x.phase.ifl) {
      assert ClaimedAt(states, steps, k, d, x.phase.ifl);
    }
  }

  /**
   Over every run: a Deliver that has delivered verified its reply for an entry that was pending under its key at
   its lookup and the same still at its claim; one that failed validation found an entry for which the reply does
   not verify; and a duplicate or unmatched one looked at the answered table, with nothing pending or after it
   lost its claim, where a record was or was not for which the reply verifies.
   */
  lemma {:induction false} DeliverExplained(c: Config, states: seq<State>, steps: seq<Step>, k: nat, d: nat)
    requires Run(c, states, steps) && k <= |steps| && d in states[k].delivers
    ensures Explained(c, states, steps, k, d, states[k].delivers[d])
  {
    if k > 0 {
      var s, st := states[k - 1], steps[k - 1];
      assert StepTaken(c, states, steps, k - 1);
      if d in s.delivers { DeliverExplained(c, states, steps, k - 1, d); }
      DeliverKeptOrMoved(c, s, st, d);
      if st.DeliverStep? && st.d == d {
        DeliverMovesOne(c, s, d, st.b);
        ExplainedStep(c, states, steps, k - 1, d, st.b);
      } else {
        ExplainedLater(c, states, steps, k - 1, d, states[k].delivers[d]);
      }
    }
  }

  // ---- The second copy of a reply ----

  /** What a claim leaves on record: the authenticator of the request answered, for half a minute at least. */
  lemma ClaimIsRemembered(c: Config, s: State, d: nat, now: int, gcAt: int)
    requires CanDeliver(c, s, d, TryClaim(now, gcAt)) && gcAt - now <= 30_000
    requires StillPending(s.tables, s.delivers[d].Key(), s.delivers[d].phase.ifl)
    ensures var ifl := s.delivers[d].phase.ifl;
            AnsweredWith(DoDeliver(c, s, d, TryClaim(now, gcAt)), s.delivers[d].Key(),
                         Completed(ifl.requestAuth, ifl.subId, now))
  {
  }

  /** A sweep takes what is older than 30 seconds, and nothing while the table is below 1024 entries. */
  lemma SweepExactly(m: map<Key, Completed>, gcAt: int, k: Key)
    ensures k in Collected(m, gcAt) <==> k in m && (|m| < 1024 || gcAt - m[k].completedAt <= 30_000)
    ensures k in Collected(m, gcAt) ==> Collected(m, gcAt)[k] == m[k]
  {
  }

  /**
   A reply claimed at step j, and a copy of it, or any other reply that verifies for the same request, that
   arrives after: as long as the claim is remembered the copy can only end as duplicate_reply.
   */
  lemma SecondCopyIsDuplicate(
      c: Config, states: seq<State>, steps: seq<Step>, j: nat, last: nat, d: nat, e: nat, now: int, gcAt: int)
    requires Run(c, states, steps) && j < last <= |steps| && steps[j] == DeliverStep(d, TryClaim(now, gcAt))
    requires d in states[j].delivers && states[j].delivers[d].phase.Claiming? && gcAt - now <= 30_000
    requires var k, ifl := states[j].delivers[d].Key(), states[j].delivers[d].phase.ifl;
             && StillPending(states[j].tables, k, ifl)
             && Remembered(states, steps, j + 1, last, k, Completed(ifl.requestAuth, ifl.subId, now))
             && e !in states[j + 1].delivers && e in states[last].delivers && states[last].delivers[e].Key() == k
             && c.verifies(states[last].delivers[e].delivery, ifl.requestAuth)
    ensures states[last].delivers[e].phase.Finished? ==> states[last].delivers[e].phase == Finished(DuplicateReply)
  {
    var k, ifl := states[j].delivers[d].Key(), states[j].delivers[d].phase.ifl;
    assert StepTaken(c, states, steps, j);
    ClaimIsRemembered(c, states[j], d, now, gcAt);
    FateThroughout(c, states, steps, j + 1, last, k, Completed(ifl.requestAuth, ifl.subId, now), e);
  }

  // ---- Requests are answered ----

  /** Arrive to Push of a Deliver whose reply verifies for what is pending under its key. */
  lemma Handed(c: Config, states: seq<State>, steps: seq<Step>, routes: iset<IdAllocator.Tuple>, d: nat, src: string,
               wire: seq<byte>, ifl: Inflight)
    returns (longer: seq<State>, more: seq<Step>)
    requires Run(c, states, steps) && Over(states, steps, routes) && c.decode(wire).Some?
    requires var s, x := states[|steps|], Delivery(c.decode(wire).value, wire);
             && d !in s.delivers && Key(src, x.reply.identifier) in s.tables.pending
             && s.tables.pending[Key(src, x.reply.identifier)] == ifl && c.verifies(x, ifl.requestAuth)
             && Buffer(s.channels, ifl.token) == []
    ensures Run(c, longer, more) && Over(longer, more, routes) && |more| == |steps| + 5
    ensures var s, t := states[|steps|], longer[|more|];
            && t.sends == s.sends && t.held == s.held
            && t.channels == s.channels[ifl.token := [Delivery(c.decode(wire).value, wire)]]
  {
    longer, more := Extend(c, states, steps, routes, DeliverStep(d, Arrive(src, wire)));
    longer, more := Extend(c, longer, more, routes, DeliverStep(d, Lookup));
    longer, more := Extend(c, longer, more, routes, DeliverStep(d, Check));
    longer, more := Extend(c, longer, more, routes, DeliverStep(d, TryClaim(0, 0)));
    longer, more := Extend(c, longer, more, routes, DeliverStep(d, Push));
    assert [] + [Delivery(c.decode(wire).value, wire)] == [Delivery(c.decode(wire).value, wire)];
  }

  /**
   For any destination, local address and Identifier, any request authenticator and any datagram that decodes to a reply
   with that Identifier and verifies: a run in which the Send returns that reply, as its first transmission's.
   */
  lemma RepliesHappen(c: Config, t: IdAllocator.Tuple, auth: Digest, wire: seq<byte>)
    returns (states: seq<State>, steps: seq<Step>)
    requires c.decode(wire).Some? && c.verifies(Delivery(c.decode(wire).value, wire), auth)
    ensures Run(c, states, steps) && 0 in states[|steps|].sends && |states| == |steps| + 1
    ensures var reply := c.decode(wire).value;
            states[|steps|].sends[0].phase == Returned(Replied(Lease(t, reply.identifier), 0, Delivery(reply, wire), 0))
  {
    var reply := c.decode(wire).value;
    var l, routes := Lease(t, reply.identifier), iset{t};
    states, steps := [INITIAL], [];
    states, steps := Opened(c, states, steps, routes, 0, l);
    states, steps := Sent(c, states, steps, routes, 0, l, auth);
    states, steps := Handed(c, states, steps, routes, 0, t.src, wire, Inflight(0, auth, 0));
    states, steps := Extend(c, states, steps, routes, SendStep(0, Receive));
    states, steps := Extend(c, states, steps, routes, SendStep(0, Release));
  }

  /** What reaches Deliver: the datagrams that decode with one of the eight reply codes. */
  lemma RepliesReachDeliver(crypto: Crypto, secret: seq<byte>, wire: seq<byte>)
    ensures Radius(crypto, secret).decode(wire).Some? <==>
            DecodeBytes(wire, secret).Ok? && DecodeBytes(wire, secret).value.code in {2, 3, 5, 11, 41, 42, 44, 45}
    ensures Radius(crypto, secret).decode(wire).Some? ==>
              Radius(crypto, secret).decode(wire).value == DecodeBytes(wire, secret).value
  {
  }

  /**
   Encoder, matcher and Send together: any reply without a Message-Authenticator that a server encodes under the
   shared secret and the request's authenticator can come back as the result of the Send.
   */
  lemma EncodedReplyIsReturned(crypto: Crypto, p: PacketValue, random: Option<Digest>, t: IdAllocator.Tuple)
    returns (states: seq<State>, steps: seq<Step>)
    requires p.code in {2, 3, 5, 11, 41, 42, 44, 45} && !HasMessageAuth(p.attributes)
    requires Encoding(crypto, p, random).result.Ok?
    ensures Run(Radius(crypto, p.secret), states, steps) && |states| == |steps| + 1 && 0 in states[|steps|].sends
    ensures var x := states[|steps|].sends[0];
            && x.phase.Returned? && x.phase.result.Replied? && x.phase.result.retransmitN == 0
            && x.phase.result.lease == Lease(t, p.identifier)
            && x.phase.result.delivery.reply.code == p.code
            && x.phase.result.delivery.reply.attributes == p.attributes
            && x.phase.result.delivery.wire == Encoding(crypto, p, random).result.value
  {
    var wire := Encoding(crypto, p, random).result.value;
    PlainReplyValidates(crypto, p, random);
    EncodeDecodeRoundTrip(crypto, p, random);
    EncodedAttributes(crypto, p, random);
    states, steps := RepliesHappen(Radius(crypto, p.secret), t, p.requestAuthenticator, wire);
  }
}
