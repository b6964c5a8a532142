/**
 Several readers at work at once (Start and readLoop in pkg/server/listener.go). A datagram is judged, and what
 its verdict calls for is done one effect at a time, with the effects of other readers in between.
 */
module Readers {
  import opened Bytes
  import opened Handler

  datatype Counter = ForAcked | ForNaked | ForDropped

  /** One thing a reader does that others can see. */
  datatype Effect = Submit(record: Record) | Send(reply: seq<byte>) | Count(counter: Counter) | Call(callback: Callback)

  function Apply(s: Seen, e: Effect): Seen {
    match e
    case Submit(record) => s.(log := s.log + [record])
    case Send(reply) => s.(sent := s.sent + [reply])
    case Count(ForAcked) => s.(acked := s.acked + 1)
    case Count(ForNaked) => s.(naked := s.naked + 1)
    case Count(ForDropped) => s.(dropped := s.dropped + 1)
    case Call(callback) => s.(callbacks := s.callbacks + [callback])
  }

  function ApplyAll(s: Seen, es: seq<Effect>): Seen {
    if es == [] then s else Apply(ApplyAll(s, es[..|es| - 1]), es[|es| - 1])
  }

  /** The effects of one datagram, in the order of the source. */
  function Program(v: Verdict, wrote: bool, reply: seq<byte>): seq<Effect> {
    match v
    case Drop(why) => [Submit(why), Count(ForDropped)]
    case Nak(kind, request, cause) =>
      if wrote
      then [Submit(ReceivedRequest(kind, request.identifier)), Send(reply),
            Submit(Naked(kind, request.identifier, cause)), Count(ForNaked)]
      else [Submit(ReceivedRequest(kind, request.identifier)), Submit(Failure), Count(ForDropped)]
    case Ack(kind, request, target) =>
      if wrote
      then [Submit(ReceivedRequest(kind, request.identifier)), Send(reply),
            Submit(Acked(kind, request.identifier, target)), Count(ForAcked), Call(Callback(kind, target, request))]
      else [Submit(ReceivedRequest(kind, request.identifier)), Submit(Failure), Count(ForDropped)]
  }

  lemma ApplySnoc(s: Seen, es: seq<Effect>, e: Effect)
    ensures ApplyAll(s, es + [e]) == Apply(ApplyAll(s, es), e)
  {
    assert (es + [e])[..|es|] == es;
  }

  lemma {:induction false} ApplyConcat(s: Seen, a: seq<Effect>, b: seq<Effect>)
    ensures ApplyAll(s, a + b) == ApplyAll(ApplyAll(s, a), b)
  {
    if b == [] {
      assert a + b == a;
    } else {
      var init, last := b[..|b| - 1], b[|b| - 1];
      ApplyConcat(s, a, init);
      assert a + b == (a + init) + [last];
      ApplySnoc(s, a + init, last);
    }
  }

  lemma ApplyFive(s: Seen, es: seq<Effect>)
    requires 2 <= |es| <= 5
    ensures ApplyAll(s, es) ==
            var two := Apply(Apply(s, es[0]), es[1]);
            if |es| == 2 then two
            else
              var three := Apply(two, es[2]);
              if |es| == 3 then three
              else if |es| == 4 then Apply(three, es[3])
              else Apply(Apply(three, es[3]), es[4])
  {
    assert ApplyAll(s, []) == s;
    assert es[..0] == [] && es[..1][..0] == [] && es[..2][..1] == es[..1];
    assert ApplyAll(s, es[..1]) == Apply(s, es[0]);
    assert ApplyAll(s, es[..2]) == Apply(Apply(s, es[0]), es[1]);
    if |es| > 2 {
      assert es[..3][..2] == es[..2];
      assert ApplyAll(s, es[..3]) == Apply(ApplyAll(s, es[..2]), es[2]);
    }
    if |es| > 3 {
      assert es[..4][..3] == es[..3];
      assert ApplyAll(s, es[..4]) == Apply(ApplyAll(s, es[..3]), es[3]);
    }
    assert es[..|es|] == es;
  }

  /** A reader left alone does with a datagram what HandlePacket does. */
  lemma ProgramIsAfter(s: Seen, v: Verdict, wrote: bool, reply: seq<byte>)
    requires v.Drop? ==> !wrote
    ensures ApplyAll(s, Program(v, wrote, reply)) == After(s, v, wrote, reply)
  {
    ApplyFive(s, Program(v, wrote, reply));
  }

  // ---- The readers together ----

  /** `done` is all that was seen, in order; `pending` is what each reader has still to do for its datagram. */
  datatype State = State(done: seq<Effect>, pending: seq<seq<Effect>>, jobs: seq<Job>)

  /** A reader takes up a datagram, or does the next thing its current one calls for. */
  datatype Step = Read(reader: nat, job: Job) | Act(reader: nat)

  /** What a job writes is what HandlePacket may write for its datagram; ProgramIsAfter ties the effects to it. */
  ghost predicate CanStep(x: Server, s: State, st: Step) {
    st.reader < |s.pending| &&
    match st
    case Read(r, job) => s.pending[r] == [] && x.Allowed(job)
    case Act(r) => s.pending[r] != []
  }

  ghost function ProgramOf(x: Server, j: Job): seq<Effect> {
    Program(x.Judged(j), j.wrote, j.reply)
  }

  ghost function Next(x: Server, s: State, st: Step): State
    requires CanStep(x, s, st)
  {
    match st
    case Read(r, job) => s.(pending := s.pending[r := ProgramOf(x, job)], jobs := s.jobs + [job])
    case Act(r) => s.(done := s.done + [s.pending[r][0]], pending := s.pending[r := s.pending[r][1..]])
  }

  ghost predicate Run(x: Server, readers: nat, states: seq<State>, steps: seq<Step>) {
    && |states| == |steps| + 1 && states[0] == State([], seq(readers, _ => []), [])
    && forall k :: 0 <= k < |steps| ==> CanStep(x, states[k], steps[k]) && states[k + 1] == Next(x, states[k], steps[k])
  }

  function SeenOf(s: State): Seen {
    ApplyAll(NOTHING_SEEN, s.done)
  }

  /** All that the datagrams call for, one after another. */
  ghost function Due(x: Server, jobs: seq<Job>): seq<Effect> {
    if jobs == [] then [] else Due(x, jobs[..|jobs| - 1]) + ProgramOf(x, jobs[|jobs| - 1])
  }

  function Left(pending: seq<seq<Effect>>): multiset<Effect> {
    if pending == [] then multiset{} else Left(pending[..|pending| - 1]) + multiset(pending[|pending| - 1])
  }

  function CountsIn(es: seq<Effect>): nat {
    if es == [] then 0 else CountsIn(es[1..]) + if es[0].Count? then 1 else 0
  }

  /** Readers whose datagram is in no counter yet: each program has one count. */
  function InFlight(pending: seq<seq<Effect>>): nat {
    if pending == [] then 0 else InFlight(pending[..|pending| - 1]) + CountsIn(pending[|pending| - 1])
  }

  // Sums of bags, element by element.

  lemma AddToBoth<T>(a: multiset<T>, b: multiset<T>, c: multiset<T>, d: multiset<T>, e: multiset<T>)
    requires a + b == c + d
    ensures (a + e) + b == (c + e) + d
  {
    assert (a + e) + b == (a + b) + e && (c + e) + d == (c + d) + e;
  }

  lemma MoreDue<T>(done: multiset<T>, left: multiset<T>, after: multiset<T>, due: multiset<T>, more: multiset<T>)
    requires done + left == due && after + multiset{} == left + more
    ensures done + after == due + more
  {
    assert done + (left + more) == (done + left) + more;
  }

  lemma MoreDone<T>(done: multiset<T>, left: multiset<T>, after: multiset<T>, due: multiset<T>, e: T, rest: multiset<T>)
    requires done + left == due && after + (multiset{e} + rest) == left + rest
    ensures (done + multiset{e}) + after == due
  {
    forall z ensures (after + multiset{e})[z] == left[z] {
      assert (after + (multiset{e} + rest))[z] == (left + rest)[z];
    }
    assert after + multiset{e} == left;
    assert (done + multiset{e}) + after == done + (after + multiset{e});
  }

  lemma {:induction false} LeftReplace(p: seq<seq<Effect>>, r: nat, q: seq<Effect>)
    requires r < |p|
    ensures Left(p[r := q]) + multiset(p[r]) == Left(p) + multiset(q)
    ensures InFlight(p[r := q]) + CountsIn(p[r]) == InFlight(p) + CountsIn(q)
  {
    var last := |p| - 1;
    if r == last {
      assert p[r := q][..last] == p[..last];
    } else {
      LeftReplace(p[..last], r, q);
      assert p[r := q][..last] == p[..last][r := q];
      AddToBoth(Left(p[..last][r := q]), multiset(p[r]), Left(p[..last]), multiset(q), multiset(p[last]));
    }
  }

  lemma ProgramCountsOnce(v: Verdict, wrote: bool, reply: seq<byte>)
    ensures CountsIn(Program(v, wrote, reply)) == 1
  {
    var es := Program(v, wrote, reply);
    assert es[0..] == es && es[|es|..] == [];
    CountFrom(es, 0);
    CountFrom(es, 1);
    if |es| > 2 { CountFrom(es, 2); }
    if |es| > 3 { CountFrom(es, 3); }
    if |es| > 4 { CountFrom(es, 4); }
  }

  lemma CountFrom(es: seq<Effect>, k: nat)
    requires k < |es|
    ensures CountsIn(es[k..]) == CountsIn(es[k + 1..]) + if es[k].Count? then 1 else 0
  {
    assert es[k..][1..] == es[k + 1..];
  }

  function Counted(s: Seen): nat {
    s.acked + s.naked + s.dropped
  }

  /** Nothing a verdict calls for is lost or done twice. */
  ghost predicate Balanced(x: Server, s: State) {
    multiset(s.done) + Left(s.pending) == multiset(Due(x, s.jobs))
  }

  ghost predicate Tallied(s: State) {
    Counted(SeenOf(s)) + InFlight(s.pending) == |s.jobs|
  }

  ghost predicate OnceEach(pending: seq<seq<Effect>>) {
    forall r :: 0 <= r < |pending| ==> CountsIn(pending[r]) <= 1
  }

  ghost predicate Inv(x: Server, s: State) {
    x.AllAllowed(s.jobs) && Balanced(x, s) && Tallied(s) && OnceEach(s.pending)
  }

  lemma {:induction false} IdleInv(x: Server, pending: seq<seq<Effect>>)
    requires forall r :: 0 <= r < |pending| ==> pending[r] == []
    ensures Left(pending) == multiset{} && InFlight(pending) == 0
  {
    if pending != [] { IdleInv(x, pending[..|pending| - 1]); }
  }

  lemma AllowedSnoc(x: Server, jobs: seq<Job>, job: Job)
    requires x.AllAllowed(jobs) && x.Allowed(job)
    ensures x.AllAllowed(jobs + [job])
  {
    forall i | 0 <= i < |jobs + [job]| ensures x.Allowed((jobs + [job])[i]) {
      assert i < |jobs| ==> x.Allowed(jobs[i]);
    }
  }

  lemma ReadBags(s: State, r: nat, program: seq<Effect>, due: seq<Effect>)
    requires r < |s.pending| && s.pending[r] == []
    requires multiset(s.done) + Left(s.pending) == multiset(due)
    ensures multiset(s.done) + Left(s.pending[r := program]) == multiset(due + program)
  {
    LeftReplace(s.pending, r, program);
    MoreDue(multiset(s.done), Left(s.pending), Left(s.pending[r := program]), multiset(due), multiset(program));
  }

  lemma CountsHead(es: seq<Effect>)
    requires es != []
    ensures CountsIn(es) == CountsIn(es[1..]) + if es[0].Count? then 1 else 0
  {
  }

  lemma OnceUpdated(pending: seq<seq<Effect>>, r: nat, q: seq<Effect>)
    requires r < |pending| && OnceEach(pending) && CountsIn(q) <= 1
    ensures OnceEach(pending[r := q])
  {
  }

  lemma ReadTallies(s: State, r: nat, program: seq<Effect>)
    requires r < |s.pending| && s.pending[r] == [] && CountsIn(program) == 1 && OnceEach(s.pending)
    ensures InFlight(s.pending[r := program]) == InFlight(s.pending) + 1 && OnceEach(s.pending[r := program])
  {
    LeftReplace(s.pending, r, program);
    OnceUpdated(s.pending, r, program);
  }

  lemma DueSnoc(x: Server, jobs: seq<Job>, job: Job)
    ensures Due(x, jobs + [job]) == Due(x, jobs) + ProgramOf(x, job)
  {
    assert (jobs + [job])[..|jobs|] == jobs;
  }

  lemma ReadStep(x: Server, s: State, t: State, r: nat, job: Job)
    requires Inv(x, s) && CanStep(x, s, Read(r, job)) && t == Next(x, s, Read(r, job))
    ensures Inv(x, t)
  {
    var program := ProgramOf(x, job);
    AllowedSnoc(x, s.jobs, job);
    DueSnoc(x, s.jobs, job);
    ReadBags(s, r, program, Due(x, s.jobs));
    ProgramCountsOnce(x.Judged(job), job.wrote, job.reply);
    ReadTallies(s, r, program);
  }

  lemma CountedApply(s: Seen, e: Effect)
    ensures Counted(Apply(s, e)) == Counted(s) + if e.Count? then 1 else 0
  {
  }

  lemma ActBags(done: seq<Effect>, pending: seq<seq<Effect>>, r: nat, due: multiset<Effect>)
    requires r < |pending| && pending[r] != [] && multiset(done) + Left(pending) == due
    ensures var e, rest := pending[r][0], pending[r][1..];
            multiset(done + [e]) + Left(pending[r := rest]) == due
  {
    var e, rest := pending[r][0], pending[r][1..];
    assert pending[r] == [e] + rest;
    LeftReplace(pending, r, rest);
    MoreDone(multiset(done), Left(pending), Left(pending[r := rest]), due, e, multiset(rest));
  }

  lemma ActTallies(s: State, t: State, r: nat)
    requires r < |s.pending| && s.pending[r] != [] && Tallied(s) && OnceEach(s.pending)
    requires t == s.(done := s.done + [s.pending[r][0]], pending := s.pending[r := s.pending[r][1..]])
    ensures Tallied(t) && OnceEach(t.pending)
  {
    var e, rest := s.pending[r][0], s.pending[r][1..];
    CountsHead(s.pending[r]);
    LeftReplace(s.pending, r, rest);
    ApplySnoc(NOTHING_SEEN, s.done, e);
    CountedApply(SeenOf(s), e);
    OnceUpdated(s.pending, r, rest);
  }

  lemma ActStep(x: Server, s: State, t: State, r: nat)
    requires Inv(x, s) && CanStep(x, s, Act(r)) && t == Next(x, s, Act(r))
    ensures Inv(x, t)
  {
    assert x.AllAllowed(t.jobs);
    ActTallies(s, t, r);
    ActBags(s.done, s.pending, r, multiset(Due(x, s.jobs)));
  }

  lemma StartInv(x: Server, s: State, readers: nat)
    requires s == State([], seq(readers, _ => []), [])
    ensures Inv(x, s)
  {
    IdleInv(x, s.pending);
  }

  lemma StepKeepsInv(x: Server, s: State, t: State, st: Step)
    requires Inv(x, s) && CanStep(x, s, st) && t == Next(x, s, st)
    ensures Inv(x, t)
  {
    match st
    case Read(r, job) => ReadStep(x, s, t, r, job);
    case Act(r) => ActStep(x, s, t, r);
  }

  lemma {:induction false} RunKeepsInv(x: Server, readers: nat, states: seq<State>, steps: seq<Step>, k: nat)
    requires Run(x, readers, states, steps) && k < |states|
    ensures Inv(x, states[k])
  {
    if k == 0 {
      StartInv(x, states[0], readers);
    } else {
      RunKeepsInv(x, readers, states, steps, k - 1);
      StepKeepsInv(x, states[k - 1], states[k], steps[k - 1]);
    }
  }

  // ---- What is seen of a run ----

  /** At any moment every datagram received is acked, naked, dropped, or still with a reader that has to count it. */
  lemma EveryDatagramAccounted(x: Server, readers: nat, states: seq<State>, steps: seq<Step>, k: nat)
    requires Run(x, readers, states, steps) && k < |states|
    ensures var s := states[k];
            |s.jobs| == SeenOf(s).acked + SeenOf(s).naked + SeenOf(s).dropped + InFlight(s.pending)
    ensures forall r :: 0 <= r < |states[k].pending| ==> CountsIn(states[k].pending[r]) <= 1
  {
    RunKeepsInv(x, readers, states, steps, k);
  }

  ghost predicate Quiet(s: State) {
    forall r :: 0 <= r < |s.pending| ==> s.pending[r] == []
  }

  // How often each thing was seen.

  ghost predicate ShowsLog(log: seq<Record>, bag: multiset<Effect>) {
    forall q :: multiset(log)[q] == bag[Submit(q)]
  }

  ghost predicate ShowsSent(sent: seq<seq<byte>>, bag: multiset<Effect>) {
    forall q :: multiset(sent)[q] == bag[Send(q)]
  }

  ghost predicate ShowsCalls(callbacks: seq<Callback>, bag: multiset<Effect>) {
    forall q :: multiset(callbacks)[q] == bag[Call(q)]
  }

  ghost predicate Shows(s: Seen, bag: multiset<Effect>) {
    && ShowsLog(s.log, bag) && ShowsSent(s.sent, bag) && ShowsCalls(s.callbacks, bag)
    && ShowsCount(s, ForAcked, bag) && ShowsCount(s, ForNaked, bag) && ShowsCount(s, ForDropped, bag)
  }

  function Reading(s: Seen, c: Counter): nat {
    match c
    case ForAcked => s.acked
    case ForNaked => s.naked
    case ForDropped => s.dropped
  }

  ghost predicate ShowsCount(s: Seen, c: Counter, bag: multiset<Effect>) {
    Reading(s, c) == bag[Count(c)]
  }

  lemma CountOne(s: Seen, c: Counter, bag: multiset<Effect>, e: Effect)
    requires ShowsCount(s, c, bag)
    ensures ShowsCount(Apply(s, e), c, bag + multiset{e})
  {
  }

  lemma LogOne(log: seq<Record>, bag: multiset<Effect>, e: Effect)
    requires ShowsLog(log, bag)
    ensures ShowsLog(if e.Submit? then log + [e.record] else log, bag + multiset{e})
  {
  }

  lemma SentOne(sent: seq<seq<byte>>, bag: multiset<Effect>, e: Effect)
    requires ShowsSent(sent, bag)
    ensures ShowsSent(if e.Send? then sent + [e.reply] else sent, bag + multiset{e})
  {
  }

  lemma CallOne(callbacks: seq<Callback>, bag: multiset<Effect>, e: Effect)
    requires ShowsCalls(callbacks, bag)
    ensures ShowsCalls(if e.Call? then callbacks + [e.callback] else callbacks, bag + multiset{e})
  {
  }

  lemma ShowsOne(s: Seen, bag: multiset<Effect>, e: Effect)
    requires Shows(s, bag)
    ensures Shows(Apply(s, e), bag + multiset{e})
  {
    var t := Apply(s, e);
    LogOne(s.log, bag, e);
    SentOne(s.sent, bag, e);
    CallOne(s.callbacks, bag, e);
    CountOne(s, ForAcked, bag, e);
    CountOne(s, ForNaked, bag, e);
    CountOne(s, ForDropped, bag, e);
    assert t.log == if e.Submit? then s.log + [e.record] else s.log;
    assert t.sent == if e.Send? then s.sent + [e.reply] else s.sent;
    assert t.callbacks == if e.Call? then s.callbacks + [e.callback] else s.callbacks;
  }

  lemma {:induction false} SeenShows(es: seq<Effect>)
    ensures Shows(ApplyAll(NOTHING_SEEN, es), multiset(es))
  {
    if es != [] {
      var init, last := es[..|es| - 1], es[|es| - 1];
      assert es == init + [last];
      SeenShows(init);
      ShowsOne(ApplyAll(NOTHING_SEEN, init), multiset(init), last);
    }
  }

  lemma {:induction false} DueIsInTurn(x: Server, jobs: seq<Job>)
    requires x.AllAllowed(jobs)
    ensures ApplyAll(NOTHING_SEEN, Due(x, jobs)) == x.InTurn(NOTHING_SEEN, jobs)
  {
    if jobs != [] {
      var init, last := jobs[..|jobs| - 1], jobs[|jobs| - 1];
      DueIsInTurn(x, init);
      assert x.Allowed(last);
      ApplyConcat(NOTHING_SEEN, Due(x, init), ProgramOf(x, last));
      ProgramIsAfter(x.InTurn(NOTHING_SEEN, init), x.Judged(last), last.wrote, last.reply);
    }
  }

  /** Two listeners from outside, but for the order in which things happened. */
  predicate SameBut(a: Seen, b: Seen) {
    && multiset(a.log) == multiset(b.log) && multiset(a.sent) == multiset(b.sent)
    && multiset(a.callbacks) == multiset(b.callbacks)
    && a.acked == b.acked && a.naked == b.naked && a.dropped == b.dropped
  }

  lemma ShownTwice(a: Seen, b: Seen, bag: multiset<Effect>)
    requires Shows(a, bag) && Shows(b, bag)
    ensures SameBut(a, b)
  {
    assert forall q :: multiset(a.log)[q] == multiset(b.log)[q];
    assert forall q :: multiset(a.sent)[q] == multiset(b.sent)[q];
    assert forall q :: multiset(a.callbacks)[q] == multiset(b.callbacks)[q];
  }

  /**
   Over every run of any number of readers: once none has a datagram in hand, the events, replies,
   callbacks and counters are those of one reader that handled the same datagrams one after another. So every
   datagram's verdict was carried out once: one fitting reply for each that was answered, and no other.
   */
  lemma ReadersTogether(x: Server, readers: nat, states: seq<State>, steps: seq<Step>, k: nat)
    requires Run(x, readers, states, steps) && k < |states| && Quiet(states[k])
    ensures var s := states[k];
            && x.AllAllowed(s.jobs)
            && SameBut(SeenOf(s), x.InTurn(NOTHING_SEEN, s.jobs))
            && multiset(SeenOf(s).log) == multiset(x.Records(s.jobs))
            && multiset(SeenOf(s).callbacks) == multiset(x.Callbacks(s.jobs))
            && multiset(SeenOf(s).sent) == multiset(Replies(s.jobs))
            && |s.jobs| == SeenOf(s).acked + SeenOf(s).naked + SeenOf(s).dropped
  {
    var s := states[k];
    RunKeepsInv(x, readers, states, steps, k);
    IdleInv(x, s.pending);
    SeenShows(s.done);
    SeenShows(Due(x, s.jobs));
    DueIsInTurn(x, s.jobs);
    assert multiset(s.done) + multiset{} == multiset(s.done);
    ShownTwice(SeenOf(s), x.InTurn(NOTHING_SEEN, s.jobs), multiset(s.done));
    InTurnAdds(x, s.jobs);
  }
}
