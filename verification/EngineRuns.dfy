/** What the request engine promises over stretches of its runs rather than in single states. */
module EngineRuns {
  import opened Wrappers
  import opened Bytes
  import opened Packets
  import opened Matcher
  import opened RequestEngine
  import IdAllocator

  // ---- Every Identifier taken goes back once ----

  /** Allocations of Send i among the first k steps. */
  function Taken(steps: seq<Step>, k: nat, i: nat): nat
    requires k <= |steps|
  {
    if k == 0 then 0
    else
      Taken(steps, k - 1, i)
      + match steps[k - 1] case SendStep(j, Allocate(_, _)) => if j == i then 1 else 0 case _ => 0
  }

  /** Releases of Send i among the first k steps. */
  function Given(steps: seq<Step>, k: nat, i: nat): nat
    requires k <= |steps|
  {
    if k == 0 then 0
    else
      Given(steps, k - 1, i)
      + match steps[k - 1] case SendStep(j, Release) => if j == i then 1 else 0 case _ => 0
  }

  /** The Identifier that the last allocation of Send i among the first k steps took. */
  function LastTaken(states: seq<State>, steps: seq<Step>, k: nat, i: nat): Option<Lease>
    requires k <= |steps| < |states|
  {
    if k == 0 then None
    else
      match steps[k - 1]
      case SendStep(j, Allocate(src, id)) =>
        if j == i && i in states[k - 1].sends then Some(Lease(IdAllocator.Tuple(src, states[k - 1].sends[i].dst), id))
        else LastTaken(states, steps, k - 1, i)
      case _ => LastTaken(states, steps, k - 1, i)
  }

  function HeldBy(s: State, i: nat): Option<Lease> {
    if i in s.sends then LeaseOf(s.sends[i]) else None
  }

  lemma {:induction false} Balance(c: Config, states: seq<State>, steps: seq<Step>, k: nat, i: nat)
    requires Run(c, states, steps) && k <= |steps|
    ensures Taken(steps, k, i) == Given(steps, k, i) + if HeldBy(states[k], i).Some? then 1 else 0
    ensures HeldBy(states[k], i).Some? ==> HeldBy(states[k], i) == LastTaken(states, steps, k, i)
  {
    if k > 0 {
      Balance(c, states, steps, k - 1, i);
      assert StepTaken(c, states, steps, k - 1);
      LeaseLifecycle(c, states[k - 1], steps[k - 1]);
      HeldAfter(c, states[k - 1], steps[k - 1], i);
    }
  }

  /** What one step does to the Identifier of Send i. */
  lemma HeldAfter(c: Config, s: State, st: Step, i: nat)
    requires CanDo(c, s, st)
    ensures HeldBy(Do(c, s, st), i) ==
            match st
            case SendStep(j, Allocate(src, id)) =>
              if j == i then Some(Lease(IdAllocator.Tuple(src, s.sends[i].dst), id)) else HeldBy(s, i)
            case SendStep(j, Release) => if j == i then None else HeldBy(s, i)
            case _ => HeldBy(s, i)
    ensures st.SendStep? && st.i == i && st.a.Allocate? ==> HeldBy(s, i).None? && i in s.sends
    ensures st.SendStep? && st.i == i && st.a.Release? ==> HeldBy(s, i).Some?
  {
    if st.SendStep? && st.i == i && !st.a.Start? { OwnLease(s, i, st.a); }
    if st.SendStep? && st.i != i { OthersUnmoved(s, st.i, st.a, i); }
  }

  lemma OwnLease(s: State, i: nat, a: SendAction)
    requires CanSend(s, i, a) && !a.Start?
    ensures LeaseOf(NextSend(s, i, a)) ==
            match a
            case Allocate(src, id) => Some(Lease(IdAllocator.Tuple(src, s.sends[i].dst), id))
            case Release => None
            case _ => LeaseOf(s.sends[i])
    ensures a.Allocate? ==> LeaseOf(s.sends[i]).None?
    ensures a.Release? ==> LeaseOf(s.sends[i]).Some?
  {
  }

  lemma OthersUnmoved(s: State, j: nat, a: SendAction, i: nat)
    requires CanSend(s, j, a) && j != i
    ensures HeldBy(DoSend(s, j, a), i) == HeldBy(s, i)
  {
  }

  /**
   Over every run a Send has given back as many Identifiers as it took, but for the one it holds now;
   so once it has returned, all of them. Each Release gives back the very one its last Allocate took.
   */
  lemma LeasesGoBackOnce(c: Config, states: seq<State>, steps: seq<Step>, k: nat, i: nat)
    requires Run(c, states, steps) && k <= |steps|
    ensures Given(steps, k, i) <= Taken(steps, k, i) <= Given(steps, k, i) + 1
    ensures i in states[k].sends && states[k].sends[i].phase.Returned? ==> Given(steps, k, i) == Taken(steps, k, i)
    ensures k < |steps| && steps[k] == SendStep(i, Release) ==>
              && LastTaken(states, steps, k, i).Some? && LastTaken(states, steps, k, i).value in states[k].held
              && states[k + 1].held == states[k].held - {LastTaken(states, steps, k, i).value}
  {
    Balance(c, states, steps, k, i);
    if k < |steps| && steps[k] == SendStep(i, Release) {
      assert StepTaken(c, states, steps, k);
      HeldAfter(c, states[k], steps[k], i);
      LeaseLifecycle(c, states[k], steps[k]);
      RunKeepsInv(c, states, steps, k);
      assert Holds(states[k], i, LeaseOf(states[k].sends[i]).value);
    }
  }

  // ---- The allocator behind the leases ----

  type Model = map<IdAllocator.Tuple, IdAllocator.IdState>

  /** What the engine's steps do to the allocator, as its methods say. */
  function ModelAfter(states: seq<State>, steps: seq<Step>, k: nat): Model
    requires k <= |steps| < |states|
  {
    if k == 0 then map[]
    else
      var m := ModelAfter(states, steps, k - 1);
      match steps[k - 1]
      case SendStep(i, Allocate(src, id)) =>
        if i in states[k - 1].sends then
          var t := IdAllocator.Tuple(src, states[k - 1].sends[i].dst);
          m[t := IdAllocator.Take(IdAllocator.At(m, t), id)]
        else m
      case SendStep(i, Release) =>
        var l := HeldBy(states[k - 1], i);
        if l.Some? && l.value.tuple in m then m[l.value.tuple := IdAllocator.Drop(m[l.value.tuple], l.value.id)] else m
      case _ => m
  }

  /** The allocator holds on each tuple exactly the Identifiers leased there. */
  ghost predicate Refines(held: set<Lease>, m: Model) {
    forall t: IdAllocator.Tuple, id: byte :: id in IdAllocator.At(m, t).held <==> Lease(t, id) in held
  }

  lemma TakeRefines(held: set<Lease>, m: Model, l: Lease)
    requires Refines(held, m)
    ensures Refines(held + {l}, m[l.tuple := IdAllocator.Take(IdAllocator.At(m, l.tuple), l.id)])
  {
  }

  lemma DropRefines(held: set<Lease>, m: Model, l: Lease)
    requires Refines(held, m) && l in held
    ensures l.tuple in m && Refines(held - {l}, m[l.tuple := IdAllocator.Drop(m[l.tuple], l.id)])
  {
    assert l.id in IdAllocator.At(m, l.tuple).held;
  }

  lemma {:induction false} AllocatorRefines(c: Config, states: seq<State>, steps: seq<Step>, k: nat)
    requires Run(c, states, steps) && k <= |steps|
    ensures Refines(states[k].held, ModelAfter(states, steps, k))
  {
    if k > 0 {
      var s, st, m := states[k - 1], steps[k - 1], ModelAfter(states, steps, k - 1);
      AllocatorRefines(c, states, steps, k - 1);
      assert StepTaken(c, states, steps, k - 1);
      RunKeepsInv(c, states, steps, k - 1);
      LeaseLifecycle(c, s, st);
      match st
      case SendStep(i, Allocate(src, id)) =>
        HeldAfter(c, s, st, i);
        TakeRefines(s.held, m, Lease(IdAllocator.Tuple(src, s.sends[i].dst), id));
      case SendStep(i, Release) =>
        HeldAfter(c, s, st, i);
        assert Holds(s, i, HeldBy(s, i).value);
        DropRefines(s.held, m, HeldBy(s, i).value);
      case _ =>
    }
  }

  /** Whenever no Send is running, Inflight reports 0 for every tuple. */
  lemma NothingInFlightWhenIdle(c: Config, states: seq<State>, steps: seq<Step>, k: nat, t: IdAllocator.Tuple)
    requires Run(c, states, steps) && k <= |steps|
    requires forall i :: i in states[k].sends ==> states[k].sends[i].phase.Returned?
    ensures |IdAllocator.At(ModelAfter(states, steps, k), t).held| == 0
  {
    AllocatorRefines(c, states, steps, k);
    IdentifiersNeverShared(c, states, steps, k);
    assert forall id: byte :: id !in IdAllocator.At(ModelAfter(states, steps, k), t).held;
  }

  // ---- When a registration can displace another request ----

  /** Send `i` allocates on a route of the set. */
  ghost predicate OnRoute(s: State, st: Step, routes: iset<IdAllocator.Tuple>) {
    match st
    case SendStep(i, Allocate(src, _)) => i in s.sends ==> IdAllocator.Tuple(src, s.sends[i].dst) in routes
    case _ => true
  }

  /** Every attempt of the run goes over one of these routes. */
  ghost predicate Over(states: seq<State>, steps: seq<Step>, routes: iset<IdAllocator.Tuple>) {
    |states| == |steps| + 1 && forall k :: 0 <= k < |steps| ==> OnRoute(states[k], steps[k], routes)
  }

  /** The step registers a request under a key where another is pending. */
  predicate Displaces(s: State, st: Step) {
    && st.SendStep? && st.a.Register? && st.i in s.sends && s.sends[st.i].phase.Building?
    && KeyOf(s.sends[st.i].phase.lease) in s.tables.pending
  }

  ghost predicate NeverDisplaces(c: Config, routes: iset<IdAllocator.Tuple>) {
    forall states: seq<State>, steps: seq<Step>, k: nat ::
      Run(c, states, steps) && Over(states, steps, routes) && k < |steps| ==> !Displaces(states[k], steps[k])
  }

  /** No local address is used towards two destinations. */
  ghost predicate SingleDestinations(routes: iset<IdAllocator.Tuple>) {
    forall t: IdAllocator.Tuple, u: IdAllocator.Tuple :: t in routes && u in routes && t.src == u.src ==> t.dst == u.dst
  }

  lemma {:induction false} LeasesOnRoutes(
      c: Config, states: seq<State>, steps: seq<Step>, routes: iset<IdAllocator.Tuple>, k: nat, i: nat)
    requires Run(c, states, steps) && Over(states, steps, routes) && k <= |steps|
    ensures HeldBy(states[k], i).Some? ==> HeldBy(states[k], i).value.tuple in routes
  {
    if k > 0 {
      LeasesOnRoutes(c, states, steps, routes, k - 1, i);
      assert StepTaken(c, states, steps, k - 1);
      HeldAfter(c, states[k - 1], steps[k - 1], i);
      assert OnRoute(states[k - 1], steps[k - 1], routes);
    }
  }

  lemma RoutesKeepOneDestination(
      c: Config, states: seq<State>, steps: seq<Step>, routes: iset<IdAllocator.Tuple>, k: nat)
    requires Run(c, states, steps) && Over(states, steps, routes) && k <= |steps| && SingleDestinations(routes)
    ensures OneDestination(states[k])
  {
    forall i, l | Holds(states[k], i, l) ensures l.tuple in routes {
      LeasesOnRoutes(c, states, steps, routes, k, i);
    }
  }

  /** One step more. */
  lemma Extend(c: Config, states: seq<State>, steps: seq<Step>, routes: iset<IdAllocator.Tuple>, st: Step)
    returns (longer: seq<State>, more: seq<Step>)
    requires Run(c, states, steps) && Over(states, steps, routes)
    requires CanDo(c, states[|steps|], st) && OnRoute(states[|steps|], st, routes)
    ensures longer == states + [Do(c, states[|steps|], st)] && more == steps + [st]
    ensures Run(c, longer, more) && Over(longer, more, routes)
  {
    longer, more := states + [Do(c, states[|steps|], st)], steps + [st];
    forall k | 0 <= k < |more| ensures StepTaken(c, longer, more, k) && OnRoute(longer[k], more[k], routes) {
      if k < |steps| {
        assert StepTaken(c, states, steps, k) && OnRoute(states[k], steps[k], routes);
      }
    }
  }

  /** Start and Allocate of a new Send. */
  lemma Opened(c: Config, states: seq<State>, steps: seq<Step>, routes: iset<IdAllocator.Tuple>, i: nat, l: Lease)
    returns (longer: seq<State>, more: seq<Step>)
    requires Run(c, states, steps) && Over(states, steps, routes) && l.tuple in routes
    requires i !in states[|steps|].sends && l !in states[|steps|].held
    ensures Run(c, longer, more) && Over(longer, more, routes) && |more| == |steps| + 2
    ensures var s, t := states[|steps|], longer[|more|];
            && t.sends == s.sends[i := Send(l.tuple.dst, 1, 0, [], Building(l))] && t.held == s.held + {l}
            && t.tables == s.tables && t.claimedBy == s.claimedBy
            && t.delivers == s.delivers && t.channels == s.channels
  {
    var s := states[|steps|];
    longer, more := Extend(c, states, steps, routes, SendStep(i, Start(l.tuple.dst, 0)));
    longer, more := Extend(c, longer, more, routes, SendStep(i, Allocate(l.tuple.src, l.id)));
    assert longer[|more|].sends == s.sends[i := Send(l.tuple.dst, 1, 0, [], Building(l))];
  }

  /** Register and Write of a Send that holds its Identifier. */
  lemma Sent(c: Config, states: seq<State>, steps: seq<Step>, routes: iset<IdAllocator.Tuple>, i: nat, l: Lease,
             auth: Digest)
    returns (longer: seq<State>, more: seq<Step>)
    requires Run(c, states, steps) && Over(states, steps, routes)
    requires i in states[|steps|].sends && states[|steps|].sends[i] == Send(l.tuple.dst, 1, 0, [], Building(l))
    ensures Run(c, longer, more) && Over(longer, more, routes) && |more| == |steps| + 2
    ensures var s, t := states[|steps|], longer[|more|];
            && t.sends == s.sends[i := Send(l.tuple.dst, 1, 0, [0], Waiting(l, s.tables.created))]
            && t.held == s.held && t.claimedBy == s.claimedBy && t.delivers == s.delivers
            && t.channels == s.channels[s.tables.created := []]
            && t.tables == Registered(s.tables, KeyOf(l), auth, i)
  {
    var s := states[|steps|];
    longer, more := Extend(c, states, steps, routes, SendStep(i, Register(auth, i)));
    longer, more := Extend(c, longer, more, routes, SendStep(i, Write(true)));
    assert [] + [0] == [0];
    assert longer[|more|].sends == s.sends[i := Send(l.tuple.dst, 1, 0, [0], Waiting(l, s.tables.created))];
  }

  /**
   Two destinations behind any one local address, any Identifier: the first request is on the wire and
   waiting when the second is registered under the same key, and then nothing is pending for it.
   */
  lemma TwoDestinationsDisplace(
      c: Config, routes: iset<IdAllocator.Tuple>, t: IdAllocator.Tuple, u: IdAllocator.Tuple, id: byte)
    returns (states: seq<State>, steps: seq<Step>)
    requires t in routes && u in routes && t.src == u.src && t.dst != u.dst
    ensures Run(c, states, steps) && Over(states, steps, routes) && |steps| == 7
    ensures Displaces(states[6], steps[6])
    ensures var s := states[7];
            && Carries(s, 0, 0) && s.sends[0].phase == Waiting(Lease(t, id), 0) && s.sends[0].sent == [0]
            && 0 !in s.claimedBy && forall k :: k in s.tables.pending ==> s.tables.pending[k].token != 0
  {
    var l, m := Lease(t, id), Lease(u, id);
    states, steps := [INITIAL], [];
    states, steps := Opened(c, states, steps, routes, 0, l);
    states, steps := Sent(c, states, steps, routes, 0, l, ZERO_AUTH);
    states, steps := Opened(c, states, steps, routes, 1, m);
    states, steps := Extend(c, states, steps, routes, SendStep(1, Register(ZERO_AUTH, 1)));
  }

  /**
   Over every run of attempts on the given routes no registration displaces another request, if and only
   if the routes use each local address towards one destination.
   */
  lemma DisplacementExactly(c: Config, routes: iset<IdAllocator.Tuple>)
    ensures NeverDisplaces(c, routes) <==> SingleDestinations(routes)
  {
    if SingleDestinations(routes) {
      forall states: seq<State>, steps: seq<Step>, k: nat
        | Run(c, states, steps) && Over(states, steps, routes) && k < |steps|
        ensures !Displaces(states[k], steps[k])
      {
        RoutesKeepOneDestination(c, states, steps, routes, k);
        if Displaces(states[k], steps[k]) { RegisterDisplacesNobody(c, states, steps, k, steps[k].i); }
      }
    } else {
      var t: IdAllocator.Tuple, u: IdAllocator.Tuple :|
        t in routes && u in routes && t.src == u.src && t.dst != u.dst;
      var states, steps := TwoDestinationsDisplace(c, routes, t, u, 0);
      assert Displaces(states[6], steps[6]);
    }
  }

  // ---- Once a key is answered ----

  /** The step makes the key forgotten: registered again, swept as stale, or closed. */
  predicate Forgets(s: State, st: Step, k: Key, done: Completed) {
    match st
    case SendStep(i, Register(_, _)) => i in s.sends && s.sends[i].phase.Building? && KeyOf(s.sends[i].phase.lease) == k
    case DeliverStep(_, TryClaim(_, gcAt)) => |s.tables.recentDone| + 1 >= GC_THRESHOLD && Stale(done, gcAt)
    case CloseAll => true
    case _ => false
  }

  ghost predicate Remembered(states: seq<State>, steps: seq<Step>, first: nat, last: nat, k: Key, done: Completed) {
    |states| == |steps| + 1 && first <= last <= |steps|
    && forall n :: first <= n < last ==> !Forgets(states[n], steps[n], k, done)
  }

  /**
   How far a Deliver whose reply verifies may have got by now, that stood at `start` when the key was
   answered (at Arrived, if it came later). Only the one that had claimed already delivers; all others end
   as duplicates, unless they had found another request pending that their reply does not verify for, or
   had nothing to compare it with when they last looked.
   */
  predicate Fate(c: Config, start: DeliverPhase, x: Deliver, done: Completed) {
    var duplicate := x.phase == Judging(Some(done)) || x.phase == Finished(DuplicateReply);
    match start
    case Arrived => x.phase == Arrived || duplicate
    case Checking(ifl) =>
      if c.verifies(x.delivery, ifl.requestAuth)
      then x.phase == start || x.phase == Claiming(ifl) || x.phase == Rereading || duplicate
      else x.phase == start || x.phase == Finished(ValidationFailed)
    case Claiming(ifl) => x.phase == start || x.phase == Rereading || duplicate
    case Rereading => x.phase == start || duplicate
    case Judging(dup) =>
      x.phase == start
      || x.phase == Finished(if dup.Some? && c.verifies(x.delivery, dup.value.requestAuth)
                             then DuplicateReply else UnmatchedReply)
    case Pushing(ifl) => x.phase == start || x.phase == Finished(Delivered)
    case Finished(_) => x.phase == start
  }

  /** Where a Deliver stood in a state; one that is not there yet has still to arrive. */
  function StartOf(s: State, d: nat): DeliverPhase {
    if d in s.delivers then s.delivers[d].phase else Arrived
  }

  lemma FateStep(c: Config, s: State, d: nat, b: DeliverAction, start: DeliverPhase, done: Completed)
    requires Disjoint(s.tables) && CanDeliver(c, s, d, b) && d in s.delivers
    requires AnsweredWith(s, s.delivers[d].Key(), done) && c.verifies(s.delivers[d].delivery, done.requestAuth)
    requires Fate(c, start, s.delivers[d], done)
    ensures Fate(c, start, NextDeliver(c, s, d, b), done)
  {
  }

  lemma DeliverKeptOrMoved(c: Config, s: State, st: Step, d: nat)
    requires CanDo(c, s, st) && d in Do(c, s, st).delivers
    ensures if d !in s.delivers then Do(c, s, st).delivers[d].phase == Arrived
            else if st.DeliverStep? && st.d == d then Do(c, s, st).delivers[d] == NextDeliver(c, s, d, st.b)
            else Do(c, s, st).delivers[d] == s.delivers[d]
  {
    match st
    case SendStep(i, a) => SendKeepsDelivers(s, i, a);
    case DeliverStep(e, b) => DeliverMovesOne(c, s, e, b);
    case CloseAll =>
  }

  lemma SendKeepsDelivers(s: State, i: nat, a: SendAction)
    requires CanSend(s, i, a)
    ensures DoSend(s, i, a).delivers == s.delivers
  {
  }

  lemma DeliverMovesOne(c: Config, s: State, e: nat, b: DeliverAction)
    requires CanDeliver(c, s, e, b)
    ensures DoDeliver(c, s, e, b).delivers == s.delivers[e := NextDeliver(c, s, e, b)]
    ensures e !in s.delivers ==> NextDeliver(c, s, e, b).phase == Arrived
  {
  }

  lemma DeliverKeepsReply(c: Config, s: State, d: nat, b: DeliverAction)
    requires CanDeliver(c, s, d, b) && d in s.delivers
    ensures NextDeliver(c, s, d, b).Key() == s.delivers[d].Key()
    ensures NextDeliver(c, s, d, b).delivery == s.delivers[d].delivery
  {
  }

  lemma {:induction false} KeyStaysAnswered(
      c: Config, states: seq<State>, steps: seq<Step>, first: nat, last: nat, k: Key, done: Completed)
    requires Run(c, states, steps) && Remembered(states, steps, first, last, k, done)
    requires AnsweredWith(states[first], k, done)
    ensures AnsweredWith(states[last], k, done)
    decreases last
  {
    if first < last {
      KeyStaysAnswered(c, states, steps, first, last - 1, k, done);
      RunKeepsDisjoint(c, states, steps, last - 1);
      assert StepTaken(c, states, steps, last - 1);
      NotForgotten(c, states[last - 1], states[last], steps[last - 1], k, done);
    }
  }

  /** An answered key stays so until it is registered again, collected, or closed. */
  lemma NotForgotten(c: Config, s: State, t: State, st: Step, k: Key, done: Completed)
    requires Disjoint(s.tables) && CanDo(c, s, st) && t == Do(c, s, st)
    requires AnsweredWith(s, k, done) && !Forgets(s, st, k, done)
    ensures AnsweredWith(t, k, done)
  {
    match st
    case SendStep(i, a) => SendKeepsAnswered(s, i, a, k, done);
    case DeliverStep(d, b) => DeliverKeepsAnswered(c, s, d, b, k, done);
    case CloseAll =>
  }

  ghost predicate Fated(c: Config, s: State, t: State, k: Key, done: Completed, d: nat) {
    d in t.delivers && t.delivers[d].Key() == k && c.verifies(t.delivers[d].delivery, done.requestAuth) ==>
      Fate(c, StartOf(s, d), t.delivers[d], done)
  }

  lemma FatedStep(c: Config, start: State, s: State, t: State, st: Step, k: Key, done: Completed, d: nat)
    requires CanDo(c, s, st) && t == Do(c, s, st) && Disjoint(s.tables) && AnsweredWith(s, k, done)
    requires Fated(c, start, s, k, done, d) && (d !in s.delivers ==> d !in start.delivers)
    ensures Fated(c, start, t, k, done, d)
  {
    if d in t.delivers && t.delivers[d].Key() == k && c.verifies(t.delivers[d].delivery, done.requestAuth) {
      DeliverKeptOrMoved(c, s, st, d);
      if d in s.delivers && st.DeliverStep? && st.d == d {
        DeliverKeepsReply(c, s, d, st.b);
        FateStep(c, s, d, st.b, StartOf(start, d), done);
      }
    }
  }

  lemma RunKeepsDisjoint(c: Config, states: seq<State>, steps: seq<Step>, k: nat)
    requires Run(c, states, steps) && k < |states|
    ensures Disjoint(states[k].tables)
  {
    RunKeepsInv(c, states, steps, k);
  }

  lemma {:induction false} FateThroughout(
      c: Config, states: seq<State>, steps: seq<Step>, first: nat, last: nat, k: Key, done: Completed, d: nat)
    requires Run(c, states, steps) && Remembered(states, steps, first, last, k, done)
    requires AnsweredWith(states[first], k, done)
    ensures Fated(c, states[first], states[last], k, done, d)
    decreases last
  {
    if first < last {
      FateThroughout(c, states, steps, first, last - 1, k, done, d);
      KeyStaysAnswered(c, states, steps, first, last - 1, k, done);
      RunKeepsDisjoint(c, states, steps, last - 1);
      assert StepTaken(c, states, steps, last - 1);
      if d !in states[last - 1].delivers { NotThereBefore(c, states, steps, first, last - 1, d); }
      FatedStep(c, states[first], states[last - 1], states[last], steps[last - 1], k, done, d);
    }
  }

  /**
   Between an answer and the next registration, stale sweep or close, the key stays answered, and no
   further reply for it that verifies is delivered: whatever runs in between, every Deliver that arrives
   later ends as duplicate_reply, and one that was already under way as its Fate says.
   */
  lemma AnsweredThroughout(
      c: Config, states: seq<State>, steps: seq<Step>, first: nat, last: nat, k: Key, done: Completed)
    requires Run(c, states, steps) && Remembered(states, steps, first, last, k, done)
    requires AnsweredWith(states[first], k, done)
    ensures AnsweredWith(states[last], k, done)
    ensures forall d: nat :: Fated(c, states[first], states[last], k, done, d)
  {
    KeyStaysAnswered(c, states, steps, first, last, k, done);
    forall d: nat ensures Fated(c, states[first], states[last], k, done, d) {
      FateThroughout(c, states, steps, first, last, k, done, d);
    }
  }

  lemma DeliversStay(c: Config, s: State, t: State, st: Step, d: nat)
    requires CanDo(c, s, st) && t == Do(c, s, st) && d !in t.delivers
    ensures d !in s.delivers
  {
    match st
    case SendStep(i, a) => SendKeepsDelivers(s, i, a);
    case DeliverStep(e, b) => DeliverMovesOne(c, s, e, b);
    case CloseAll =>
  }

  /** A Deliver never goes away. */
  lemma {:induction false} NotThereBefore(
      c: Config, states: seq<State>, steps: seq<Step>, first: nat, last: nat, d: nat)
    requires Run(c, states, steps) && first <= last <= |steps| && d !in states[last].delivers
    ensures d !in states[first].delivers
    decreases last
  {
    if first < last {
      assert StepTaken(c, states, steps, last - 1);
      DeliversStay(c, states[last - 1], states[last], steps[last - 1], d);
      NotThereBefore(c, states, steps, first, last - 1, d);
    }
  }

  /** In particular no reply is delivered in that time but by a Deliver that had claimed before. */
  lemma NoSecondDelivery(
      c: Config, states: seq<State>, steps: seq<Step>, first: nat, last: nat, k: Key, done: Completed, d: nat)
    requires Run(c, states, steps) && Remembered(states, steps, first, last, k, done)
    requires AnsweredWith(states[first], k, done)
    requires d in states[last].delivers && states[last].delivers[d].Key() == k
    requires c.verifies(states[last].delivers[d].delivery, done.requestAuth)
    requires states[last].delivers[d].phase == Finished(Delivered)
    ensures StartOf(states[first], d).Pushing? || StartOf(states[first], d) == Finished(Delivered)
  {
    FateThroughout(c, states, steps, first, last, k, done, d);
  }
}
