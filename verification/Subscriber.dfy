/**
 One virtual subscriber (pkg/subscriber/subscriber.go, state.go): Run, cut into its atomic sections,
 interleaved with any number of OnCoA and OnDisconnect calls from the listener.
 */
module Subscriber {
  import opened Wrappers

  datatype State =
    | Idle | AuthSent | AuthRetry | AuthFailed | AcctSent | AcctRetry | AcctFailed | Established | Terminated

  predicate IsTerminal(s: State) {
    s == AuthFailed || s == AcctFailed || s == Established || s == Terminated
  }

  predicate IsFailure(s: State) {
    s == AuthFailed || s == AcctFailed
  }

  const ACCESS_ACCEPT := 2
  const ACCOUNTING_RESPONSE := 5

  /** What a Send call gave back: an error (or no result at all), a result without a reply, or a reply. */
  datatype SendResult = SendError | NoReply | Reply(code: nat)

  /** What is submitted to the collector. */
  datatype Record =
    | Activated | ReplyReceived(during: State, code: nat) | StateChanged(to: State)
    | TerminalEvent(final: State) | RunOutcome(final: State)
    | CoAReceived | DisconnectReceived | DisconnectOutcome

  /** Where Run stands: each value is the point just before one atomic section. */
  datatype Pc =
    | NotStarted | Begun
    | Entering(next: State) | Announcing(next: State)
    | Sending(phase: State) | Replied(phase: State, code: nat)
    | Ending(final: State) | EndingChanged(final: State) | EndingTerminal(final: State) | EndingOutcome(final: State)
    | Returned(final: State)

  /**
   The subscriber, the collector's record of it, and the history the theorems speak of: the Send
   results, and how often Run and OnDisconnect wrote the state.
   */
  datatype Machine = Machine(
    includeAcct: bool, state: State, live: bool, coaCount: nat, owed: nat, log: seq<Record>, pc: Pc,
    auth: Option<SendResult>, acct: Option<SendResult>, runWrites: nat, cuts: nat)

  function Start(includeAcct: bool): Machine {
    Machine(includeAcct, Idle, false, 0, 0, [], NotStarted, None, None, 0, 0)
  }

  datatype Step = RunStep(result: SendResult) | CoA | DisconnectLock | DisconnectEmit

  function Logged(m: Machine, record: Record): Machine {
    m.(log := m.log + [record])
  }

  /** Where a reply leads. */
  function AfterReply(includeAcct: bool, phase: State, code: nat): Pc {
    if phase == AuthSent then
      if code != ACCESS_ACCEPT then Ending(AuthFailed)
      else if !includeAcct then Ending(Established)
      else Entering(AcctSent)
    else if code != ACCOUNTING_RESPONSE then Ending(AcctFailed)
    else Ending(Established)
  }

  function AfterSend(m: Machine, phase: State, r: SendResult): Machine {
    var next :=
      if r.Reply? then Replied(phase, r.code) else Ending(if phase == AuthSent then AuthFailed else AcctFailed);
    if phase == AuthSent then m.(auth := Some(r), pc := next) else m.(acct := Some(r), pc := next)
  }

  /** Run's next atomic section; `r` is what a Send gives back. */
  function RunNext(m: Machine, r: SendResult): Machine {
    match m.pc
    case NotStarted => m.(live := true, pc := Begun)
    case Begun => Logged(m, Activated).(pc := Entering(AuthSent))
    case Entering(next) =>
      if m.state == next then m.(pc := Sending(next))
      else m.(state := next, runWrites := m.runWrites + 1, pc := Announcing(next))
    case Announcing(next) => Logged(m, StateChanged(next)).(pc := Sending(next))
    case Sending(phase) => AfterSend(m, phase, r)
    case Replied(phase, code) =>
      Logged(m, ReplyReceived(phase, code)).(pc := AfterReply(m.includeAcct, phase, code))
    case Ending(final) =>
      m.(state := final, runWrites := m.runWrites + 1,
         pc := if m.state != final then EndingChanged(final) else EndingTerminal(final))
    case EndingChanged(final) => Logged(m, StateChanged(final)).(pc := EndingTerminal(final))
    case EndingTerminal(final) => Logged(m, TerminalEvent(final)).(pc := EndingOutcome(final))
    case EndingOutcome(final) => Logged(m, RunOutcome(final)).(pc := Returned(final))
    case Returned(_) => m
  }

  /** OnDisconnect's lock section: nothing before Run stored its dependencies, nothing twice in a row. */
  function CutNext(m: Machine): Machine {
    if !m.live || m.state == Terminated then m
    else m.(state := Terminated, cuts := m.cuts + 1, owed := m.owed + 1)
  }

  /** The records of an OnDisconnect that did write the state. */
  function EmitNext(m: Machine): Machine {
    if m.owed == 0 then m
    else Logged(Logged(Logged(m, DisconnectReceived), StateChanged(Terminated)), DisconnectOutcome).(owed := m.owed - 1)
  }

  function CoANext(m: Machine): Machine {
    var counted := m.(coaCount := m.coaCount + 1);
    if m.live then Logged(counted, CoAReceived) else counted
  }

  function Next(m: Machine, s: Step): Machine {
    match s
    case RunStep(r) => RunNext(m, r)
    case CoA => CoANext(m)
    case DisconnectLock => CutNext(m)
    case DisconnectEmit => EmitNext(m)
  }

  function Exec(m: Machine, steps: seq<Step>): Machine {
    if steps == [] then m else Next(Exec(m, steps[..|steps| - 1]), steps[|steps| - 1])
  }

  lemma ExecSnoc(m: Machine, steps: seq<Step>, s: Step)
    ensures Exec(m, steps + [s]) == Next(Exec(m, steps), s)
  {
    assert (steps + [s])[..|steps|] == steps;
  }

  // ---- What every interleaving keeps ----

  function Count(log: seq<Record>, r: Record): (n: nat) {
    if log == [] then 0 else Count(log[..|log| - 1], r) + if log[|log| - 1] == r then 1 else 0
  }

  /** The state Run returns, from the two Send results and the configuration alone. */
  function Verdict(includeAcct: bool, auth: SendResult, acct: SendResult): State {
    if auth != Reply(ACCESS_ACCEPT) then AuthFailed
    else if !includeAcct || acct == Reply(ACCOUNTING_RESPONSE) then Established
    else AcctFailed
  }

  /** Run has settled on `final`, for the reason the Send results give. */
  predicate Settled(m: Machine, final: State) {
    && m.auth.Some?
    && (m.auth == Some(Reply(ACCESS_ACCEPT)) && m.includeAcct ==> m.acct.Some?)
    && final == Verdict(m.includeAcct, m.auth.value, if m.acct.Some? then m.acct.value else SendError)
  }

  predicate PcOk(m: Machine) {
    match m.pc
    case NotStarted => !m.live && m.auth == None && m.acct == None
    case Begun => m.auth == None && m.acct == None
    case Entering(next) => PhaseOk(m, next)
    case Announcing(next) => PhaseOk(m, next)
    case Sending(phase) => PhaseOk(m, phase)
    case Replied(phase, code) =>
      && (phase == AuthSent || phase == AcctSent)
      && (phase == AuthSent ==> m.auth == Some(Reply(code)) && m.acct == None)
      && (phase == AcctSent ==> m.includeAcct && m.auth == Some(Reply(ACCESS_ACCEPT)) && m.acct == Some(Reply(code)))
    case Ending(final) => Settled(m, final)
    case EndingChanged(final) => Settled(m, final)
    case EndingTerminal(final) => Settled(m, final)
    case EndingOutcome(final) => Settled(m, final)
    case Returned(final) => Settled(m, final)
  }

  predicate PhaseOk(m: Machine, phase: State) {
    && (phase == AuthSent || phase == AcctSent) && m.acct == None
    && (phase == AuthSent ==> m.auth == None)
    && (phase == AcctSent ==> m.includeAcct && m.auth == Some(Reply(ACCESS_ACCEPT)))
  }

  /** Run has written its final state, and stands before or after the records that report it. */
  function Final(pc: Pc): Option<State> {
    match pc
    case EndingChanged(f) => Some(f)
    case EndingTerminal(f) => Some(f)
    case EndingOutcome(f) => Some(f)
    case Returned(f) => Some(f)
    case _ => None
  }

  /** Run reports its final state once: one terminal event, then one outcome. */
  ghost predicate ReportsOk(m: Machine) {
    forall f: State ::
      && Count(m.log, TerminalEvent(f)) == (if m.pc == EndingOutcome(f) || m.pc == Returned(f) then 1 else 0)
      && Count(m.log, RunOutcome(f)) == (if m.pc == Returned(f) then 1 else 0)
  }

  /** Every state write of a disconnect is reported once, and needs a state write of Run before the next. */
  ghost predicate CutsOk(m: Machine) {
    && Count(m.log, DisconnectOutcome) + m.owed == m.cuts
    && m.cuts + (if m.state == Terminated then 0 else 1) <= m.runWrites + 1
    && (m.pc == NotStarted ==> m.state == Idle && m.cuts == 0)
  }

  /** The most state writes Run can have made on its way here. */
  function WritesBy(pc: Pc): nat {
    match pc
    case NotStarted => 0
    case Begun => 0
    case Entering(next) => if next == AuthSent then 0 else 1
    case Announcing(next) => if next == AuthSent then 1 else 2
    case Sending(phase) => if phase == AuthSent then 1 else 2
    case Replied(phase, _) => if phase == AuthSent then 1 else 2
    case Ending(_) => 2
    case _ => 3
  }

  /** Once Run wrote its final state, only a disconnect may have replaced it. */
  predicate EndOk(m: Machine) {
    Final(m.pc).Some? && m.state != Terminated ==> m.state == Final(m.pc).value
  }

  ghost predicate Inv(m: Machine) {
    && PcOk(m) && (m.live <==> m.pc != NotStarted) && ReportsOk(m) && CutsOk(m)
    && m.runWrites <= WritesBy(m.pc) && EndOk(m)
  }

  lemma LoggedCounts(m: Machine, record: Record)
    ensures forall r :: Count(Logged(m, record).log, r) == Count(m.log, r) + if r == record then 1 else 0
  {
    assert (m.log + [record])[..|m.log|] == m.log;
  }

  lemma EmitCounts(m: Machine)
    ensures forall f: State :: Count(EmitNext(m).log, TerminalEvent(f)) == Count(m.log, TerminalEvent(f))
    ensures forall f: State :: Count(EmitNext(m).log, RunOutcome(f)) == Count(m.log, RunOutcome(f))
    ensures Count(EmitNext(m).log, DisconnectOutcome) == Count(m.log, DisconnectOutcome) + if m.owed == 0 then 0 else 1
  {
    var m1 := Logged(m, DisconnectReceived);
    var m2 := Logged(m1, StateChanged(Terminated));
    LoggedCounts(m, DisconnectReceived);
    LoggedCounts(m1, StateChanged(Terminated));
    LoggedCounts(m2, DisconnectOutcome);
  }

  /** The record Run's next section submits, if any. */
  function Reported(m: Machine): Option<Record> {
    match m.pc
    case Begun => Some(Activated)
    case Announcing(next) => Some(StateChanged(next))
    case Replied(phase, code) => Some(ReplyReceived(phase, code))
    case EndingChanged(final) => Some(StateChanged(final))
    case EndingTerminal(final) => Some(TerminalEvent(final))
    case EndingOutcome(final) => Some(RunOutcome(final))
    case _ => None
  }

  lemma RunLogs(m: Machine, r: SendResult)
    ensures RunNext(m, r).log == if Reported(m).Some? then m.log + [Reported(m).value] else m.log
  {
  }

  lemma RunCountsOne(m: Machine, r: SendResult, q: Record)
    ensures Count(RunNext(m, r).log, q) == Count(m.log, q) + if Reported(m) == Some(q) then 1 else 0
  {
    RunLogs(m, r);
    if Reported(m).Some? { LoggedCounts(m, Reported(m).value); }
  }

  lemma RunReportsOne(m: Machine, t: Machine, r: SendResult, f: State)
    requires t == RunNext(m, r)
    requires Count(m.log, TerminalEvent(f)) == (if m.pc == EndingOutcome(f) || m.pc == Returned(f) then 1 else 0)
    requires Count(m.log, RunOutcome(f)) == (if m.pc == Returned(f) then 1 else 0)
    ensures Count(t.log, TerminalEvent(f)) == (if t.pc == EndingOutcome(f) || t.pc == Returned(f) then 1 else 0)
    ensures Count(t.log, RunOutcome(f)) == (if t.pc == Returned(f) then 1 else 0)
  {
    RunCountsOne(m, r, TerminalEvent(f));
    RunCountsOne(m, r, RunOutcome(f));
  }

  lemma RunReports(m: Machine, r: SendResult)
    requires ReportsOk(m)
    ensures ReportsOk(RunNext(m, r))
  {
    var t := RunNext(m, r);
    forall f: State
      ensures Count(t.log, TerminalEvent(f)) == (if t.pc == EndingOutcome(f) || t.pc == Returned(f) then 1 else 0)
      ensures Count(t.log, RunOutcome(f)) == (if t.pc == Returned(f) then 1 else 0)
    {
      RunReportsOne(m, t, r, f);
    }
  }

  lemma ReportsStep(m: Machine, s: Step)
    requires ReportsOk(m)
    ensures ReportsOk(Next(m, s))
  {
    match s
    case RunStep(r) => RunReports(m, r);
    case CoA => LoggedCounts(m.(coaCount := m.coaCount + 1), CoAReceived);
    case DisconnectLock =>
    case DisconnectEmit => EmitCounts(m);
  }

  lemma OutcomesStep(m: Machine, s: Step)
    ensures Count(Next(m, s).log, DisconnectOutcome)
            == Count(m.log, DisconnectOutcome) + if s == DisconnectEmit && m.owed != 0 then 1 else 0
  {
    match s
    case RunStep(r) => RunCountsOne(m, r, DisconnectOutcome);
    case CoA => LoggedCounts(m.(coaCount := m.coaCount + 1), CoAReceived);
    case DisconnectLock =>
    case DisconnectEmit => EmitCounts(m);
  }

  /** A state write of Run leaves a state that is not `terminated`, or counts as the one before the next cut. */
  lemma WritesAndCuts(m: Machine, s: Step)
    requires m.cuts + (if m.state == Terminated then 0 else 1) <= m.runWrites + 1
    requires (m.live <==> m.pc != NotStarted) && (m.pc == NotStarted ==> m.state == Idle && m.cuts == 0)
    ensures var t := Next(m, s);
            && t.cuts + (if t.state == Terminated then 0 else 1) <= t.runWrites + 1
            && (t.pc == NotStarted ==> t.state == Idle && t.cuts == 0)
            && t.cuts - t.owed == m.cuts - m.owed + if s == DisconnectEmit && m.owed != 0 then 1 else 0
  {
    match s
    case RunStep(r) => RunWritesOnce(m, r);
    case CoA =>
    case DisconnectLock =>
    case DisconnectEmit =>
  }

  lemma RunWritesOnce(m: Machine, r: SendResult)
    ensures var t := RunNext(m, r);
            && t.cuts == m.cuts && t.owed == m.owed && t.pc != NotStarted
            && t.runWrites == m.runWrites + (if t.state != m.state || m.pc.Ending? then 1 else 0)
  {
  }

  lemma CutsStep(m: Machine, s: Step)
    requires CutsOk(m) && (m.live <==> m.pc != NotStarted)
    ensures CutsOk(Next(m, s))
  {
    OutcomesStep(m, s);
    WritesAndCuts(m, s);
  }

  lemma PcStep(m: Machine, s: Step)
    requires PcOk(m) && (m.live <==> m.pc != NotStarted) && m.runWrites <= WritesBy(m.pc) && EndOk(m)
    ensures var t := Next(m, s); PcOk(t) && (t.live <==> t.pc != NotStarted) && t.includeAcct == m.includeAcct
  {
    match s
    case RunStep(r) => RunPcStep(m, r);
    case CoA =>
    case DisconnectLock =>
    case DisconnectEmit =>
  }

  lemma RunPcStep(m: Machine, r: SendResult)
    requires PcOk(m) && (m.live <==> m.pc != NotStarted)
    ensures var t := RunNext(m, r); PcOk(t) && (t.live <==> t.pc != NotStarted) && t.includeAcct == m.includeAcct
  {
  }

  lemma WritesStep(m: Machine, s: Step)
    requires PcOk(m) && m.runWrites <= WritesBy(m.pc) && EndOk(m)
    ensures var t := Next(m, s); t.runWrites <= WritesBy(t.pc) && EndOk(t)
  {
    match s
    case RunStep(r) => RunWritesStep(m, r);
    case CoA =>
    case DisconnectLock =>
    case DisconnectEmit =>
  }

  lemma RunWritesStep(m: Machine, r: SendResult)
    requires PcOk(m) && m.runWrites <= WritesBy(m.pc) && EndOk(m)
    ensures var t := RunNext(m, r); t.runWrites <= WritesBy(t.pc) && EndOk(t)
  {
  }

  lemma InvStep(m: Machine, s: Step)
    requires Inv(m)
    ensures Inv(Next(m, s)) && Next(m, s).includeAcct == m.includeAcct
  {
    var t := Next(m, s);
    PcStep(m, s);
    WritesStep(m, s);
    ReportsStep(m, s);
    CutsStep(m, s);
    assert Inv(t);
  }

  lemma {:induction false} Continues(m: Machine, steps: seq<Step>)
    requires Inv(m)
    ensures Inv(Exec(m, steps)) && Exec(m, steps).includeAcct == m.includeAcct
  {
    if steps != [] {
      Continues(m, steps[..|steps| - 1]);
      InvStep(Exec(m, steps[..|steps| - 1]), steps[|steps| - 1]);
    }
  }

  lemma Reachable(includeAcct: bool, steps: seq<Step>)
    ensures Inv(Exec(Start(includeAcct), steps))
    ensures Exec(Start(includeAcct), steps).includeAcct == includeAcct
  {
    Continues(Start(includeAcct), steps);
  }

  // ---- Theorems ----

  /**
   Whatever the listener does meanwhile, Run returns the verdict of its two Send results, having
   reported it by exactly one terminal event and one outcome; established needs an Access-Accept and,
   when configured, an Accounting-Response.
   */
  lemma RunReturnsItsVerdict(includeAcct: bool, steps: seq<Step>, final: State)
    requires Exec(Start(includeAcct), steps).pc == Returned(final)
    ensures var m := Exec(Start(includeAcct), steps);
            && m.auth.Some? && (m.auth.value == Reply(ACCESS_ACCEPT) && includeAcct ==> m.acct.Some?)
            && final == Verdict(includeAcct, m.auth.value, if m.acct.Some? then m.acct.value else SendError)
            && (final == Established ==>
                  m.auth == Some(Reply(ACCESS_ACCEPT)) && (includeAcct ==> m.acct == Some(Reply(ACCOUNTING_RESPONSE))))
            && IsTerminal(final) && final != Terminated && (IsFailure(final) <==> final != Established)
    ensures forall f: State ::
              && Count(Exec(Start(includeAcct), steps).log, TerminalEvent(f)) == (if f == final then 1 else 0)
              && Count(Exec(Start(includeAcct), steps).log, RunOutcome(f)) == (if f == final then 1 else 0)
  {
    Reachable(includeAcct, steps);
  }

  /** No terminal event ever says `terminated`: a disconnect reports an outcome, not a terminal event. */
  lemma NeverCountedTerminated(includeAcct: bool, steps: seq<Step>)
    ensures Count(Exec(Start(includeAcct), steps).log, TerminalEvent(Terminated)) == 0
  {
    Reachable(includeAcct, steps);
  }

  /** At any time at most four terminated outcomes have been submitted: one per state write of Run, and one more. */
  lemma DisconnectOutcomesBounded(includeAcct: bool, steps: seq<Step>)
    ensures var m := Exec(Start(includeAcct), steps);
            Count(m.log, DisconnectOutcome) <= m.cuts <= m.runWrites + 1 <= 4
  {
    Reachable(includeAcct, steps);
  }

  /**
   After Run returned, the first disconnect makes the state `terminated` and it stays so: however many
   disconnects follow, one state write, and so one outcome, is all they make.
   */
  lemma {:induction false} TerminatedAbsorbs(m: Machine, final: State, more: seq<Step>)
    requires Inv(m) && m.pc == Returned(final)
    ensures var t := Exec(m, more);
            && t.pc == m.pc
            && t.state == (if DisconnectLock in more then Terminated else m.state)
            && t.cuts == m.cuts + (if m.state != Terminated && DisconnectLock in more then 1 else 0)
            && Count(t.log, DisconnectOutcome) + t.owed
               == Count(m.log, DisconnectOutcome) + m.owed
                  + (if m.state != Terminated && DisconnectLock in more then 1 else 0)
            && Count(t.log, TerminalEvent(final)) == 1
  {
    Continues(m, more);
    AbsorbedWrites(m, final, more);
  }

  lemma {:induction false} AbsorbedWrites(m: Machine, final: State, more: seq<Step>)
    requires Inv(m) && m.pc == Returned(final)
    ensures var t := Exec(m, more);
            && t.pc == m.pc
            && t.state == (if DisconnectLock in more then Terminated else m.state)
            && t.cuts == m.cuts + (if m.state != Terminated && DisconnectLock in more then 1 else 0)
  {
    if more == [] {
    } else {
      var init, s := more[..|more| - 1], more[|more| - 1];
      AbsorbedWrites(m, final, init);
      assert more == init + [s];
      Continues(m, init);
      TerminatedStep(Exec(m, init), s);
    }
  }

  /** An OnDisconnect before Run leaves everything as it was. */
  lemma DisconnectBeforeRun(includeAcct: bool, steps: seq<Step>)
    requires Exec(Start(includeAcct), steps).pc == NotStarted
    ensures var m := Exec(Start(includeAcct), steps); CutNext(m) == m && m.state == Idle && m.log == []
  {
    Reachable(includeAcct, steps);
  }

  // ---- Disconnects and the state writes of Run, by their place in the interleaving ----

  /** The machine before step p. */
  function Before(includeAcct: bool, steps: seq<Step>, p: nat): Machine
    requires p <= |steps|
  {
    Exec(Start(includeAcct), steps[..p])
  }

  /** Step p is the lock section of an OnDisconnect, after Run has begun. */
  predicate LiveLock(includeAcct: bool, steps: seq<Step>, p: nat) {
    p < |steps| && steps[p] == DisconnectLock && Before(includeAcct, steps, p).live
  }

  /** Step q is a state write of Run. */
  predicate RunWrite(includeAcct: bool, steps: seq<Step>, q: nat) {
    q < |steps| && steps[q].RunStep?
    && var m := Before(includeAcct, steps, q); RunNext(m, steps[q].result).runWrites == m.runWrites + 1
  }

  /** Step e is Run's last state write, the one of terminate. */
  predicate EndingWrite(includeAcct: bool, steps: seq<Step>, e: nat) {
    e < |steps| && steps[e].RunStep? && Before(includeAcct, steps, e).pc.Ending?
  }

  /** A disconnect at p that Run did not overwrite. */
  ghost predicate LastWord(includeAcct: bool, steps: seq<Step>, p: nat) {
    LiveLock(includeAcct, steps, p) && forall q :: p < q < |steps| ==> !RunWrite(includeAcct, steps, q)
  }

  /** A disconnect at p with a state write of Run since every earlier one. */
  ghost predicate FirstLock(includeAcct: bool, steps: seq<Step>, p: nat) {
    LiveLock(includeAcct, steps, p)
    && forall o :: 0 <= o < p && LiveLock(includeAcct, steps, o) ==> WrittenBetween(includeAcct, steps, o, p)
  }

  ghost predicate WrittenBetween(includeAcct: bool, steps: seq<Step>, o: nat, p: nat) {
    exists q :: o < q < p && RunWrite(includeAcct, steps, q)
  }

  lemma SamePrefix(includeAcct: bool, steps: seq<Step>, n: nat, p: nat)
    requires p < n <= |steps|
    ensures Before(includeAcct, steps[..n], p) == Before(includeAcct, steps, p)
    ensures LiveLock(includeAcct, steps[..n], p) == LiveLock(includeAcct, steps, p)
    ensures RunWrite(includeAcct, steps[..n], p) == RunWrite(includeAcct, steps, p)
    ensures EndingWrite(includeAcct, steps[..n], p) == EndingWrite(includeAcct, steps, p)
  {
    assert steps[..n][..p] == steps[..p];
  }

  lemma OneStep(includeAcct: bool, steps: seq<Step>, p: nat)
    requires p < |steps|
    ensures Before(includeAcct, steps, p + 1) == Next(Before(includeAcct, steps, p), steps[p])
  {
    assert steps[..p + 1][..p] == steps[..p];
  }

  /** What one step does to `terminated`. */
  lemma TerminatedStep(m: Machine, s: Step)
    requires Inv(m)
    ensures var t, written := Next(m, s), s.RunStep? && Next(m, s).runWrites == m.runWrites + 1;
            t.state == Terminated <==> !written && (m.state == Terminated || (s == DisconnectLock && m.live))
    ensures s.RunStep? ==> Next(m, s) == RunNext(m, s.result)
    ensures Next(m, s).cuts == m.cuts + if s == DisconnectLock && m.live && m.state != Terminated then 1 else 0
  {
  }

  /** The state is `terminated` if and only if some disconnect, live, has had no state write of Run after it. */
  lemma {:induction false} TerminatedExactly(includeAcct: bool, steps: seq<Step>)
    ensures Exec(Start(includeAcct), steps).state == Terminated <==> exists p: nat :: LastWord(includeAcct, steps, p)
  {
    if steps != [] {
      var last := |steps| - 1;
      var init := steps[..last];
      TerminatedExactly(includeAcct, init);
      Reachable(includeAcct, init);
      TerminatedStep(Exec(Start(includeAcct), init), steps[last]);
      forall p | 0 <= p < last
        ensures LastWord(includeAcct, steps, p)
                <==> LastWord(includeAcct, init, p) && !RunWrite(includeAcct, steps, last)
      {
        LastWordStep(includeAcct, steps, p);
      }
      assert LastWord(includeAcct, steps, last) <==> LiveLock(includeAcct, steps, last);
      if exists p: nat :: LastWord(includeAcct, init, p) {
        var p: nat :| LastWord(includeAcct, init, p);
        assert LastWord(includeAcct, steps, p) <==> !RunWrite(includeAcct, steps, last);
      }
    }
  }

  lemma LastWordStep(includeAcct: bool, steps: seq<Step>, p: nat)
    requires p < |steps| - 1
    ensures LastWord(includeAcct, steps, p)
            <==> LastWord(includeAcct, steps[..|steps| - 1], p) && !RunWrite(includeAcct, steps, |steps| - 1)
  {
    var last := |steps| - 1;
    forall q | p <= q < last
      ensures RunWrite(includeAcct, steps[..last], q) == RunWrite(includeAcct, steps, q)
      ensures LiveLock(includeAcct, steps[..last], q) == LiveLock(includeAcct, steps, q)
    {
      SamePrefix(includeAcct, steps, last, q);
    }
  }

  /** Behind the last state write Run stays behind it, with the state it wrote. */
  lemma {:induction false} PastEnding(includeAcct: bool, steps: seq<Step>, e: nat)
    requires EndingWrite(includeAcct, steps, e)
    ensures Final(Exec(Start(includeAcct), steps).pc) == Some(Before(includeAcct, steps, e).pc.final)
  {
    var last := |steps| - 1;
    if e < last {
      SamePrefix(includeAcct, steps, last, e);
      PastEnding(includeAcct, steps[..last], e);
    }
  }

  /** Once Run is past its last state write, that write has its place. */
  lemma {:induction false} EndingHasPlace(includeAcct: bool, steps: seq<Step>) returns (e: nat)
    requires Final(Exec(Start(includeAcct), steps).pc).Some?
    ensures EndingWrite(includeAcct, steps, e)
  {
    var last := |steps| - 1;
    if Final(Exec(Start(includeAcct), steps[..last]).pc).Some? {
      e := EndingHasPlace(includeAcct, steps[..last]);
      SamePrefix(includeAcct, steps, last, e);
    } else {
      e := last;
    }
  }

  /** And no other follows it. */
  lemma EndingIsLastWrite(includeAcct: bool, steps: seq<Step>, e: nat, q: nat)
    requires EndingWrite(includeAcct, steps, e)
    ensures RunWrite(includeAcct, steps, e)
    ensures e < q < |steps| ==> !RunWrite(includeAcct, steps, q)
  {
    if e < q < |steps| {
      SamePrefix(includeAcct, steps, q, e);
      PastEnding(includeAcct, steps[..q], e);
    }
  }

  /**
   When Run has returned, the state is `terminated` if and only if some disconnect took its lock after the
   state write of terminate; every earlier one was overwritten, and otherwise the state is the one returned.
   */
  lemma OverwrittenUnlessLater(includeAcct: bool, steps: seq<Step>, final: State)
    requires Exec(Start(includeAcct), steps).pc == Returned(final)
    ensures var m := Exec(Start(includeAcct), steps);
            && (exists e: nat :: EndingWrite(includeAcct, steps, e))
            && (forall e: nat :: EndingWrite(includeAcct, steps, e) ==>
                  (m.state == Terminated <==> LockedAfter(steps, e)))
            && (m.state != Terminated ==> m.state == final)
  {
    var own := EndingHasPlace(includeAcct, steps);
    Reachable(includeAcct, steps);
    forall e: nat | EndingWrite(includeAcct, steps, e)
      ensures Exec(Start(includeAcct), steps).state == Terminated <==> LockedAfter(steps, e)
    {
      TerminatedAfterEnding(includeAcct, steps, e);
    }
  }

  ghost predicate LockedAfter(steps: seq<Step>, e: nat) {
    exists p: nat :: e < p < |steps| && steps[p] == DisconnectLock
  }

  lemma TerminatedAfterEnding(includeAcct: bool, steps: seq<Step>, e: nat)
    requires EndingWrite(includeAcct, steps, e)
    ensures Exec(Start(includeAcct), steps).state == Terminated <==> LockedAfter(steps, e)
  {
    TerminatedExactly(includeAcct, steps);
    EndingIsLastWrite(includeAcct, steps, e, e);
    if p: nat :| LastWord(includeAcct, steps, p) {
      assert e < p;
    }
    if LockedAfter(steps, e) {
      var p: nat :| e < p < |steps| && steps[p] == DisconnectLock;
      LiveAfter(includeAcct, steps, e, p);
      forall q: nat | p < q < |steps| ensures !RunWrite(includeAcct, steps, q) {
        EndingIsLastWrite(includeAcct, steps, e, q);
      }
      assert LastWord(includeAcct, steps, p);
    }
  }

  lemma {:induction false} LiveAfter(includeAcct: bool, steps: seq<Step>, e: nat, p: nat)
    requires e < p < |steps| && EndingWrite(includeAcct, steps, e)
    ensures Before(includeAcct, steps, p).live
  {
    OneStep(includeAcct, steps, p - 1);
    if p == e + 1 {
      Reachable(includeAcct, steps[..e]);
    } else {
      LiveAfter(includeAcct, steps, e, p - 1);
    }
  }

  // ---- How often a disconnect writes the state ----

  ghost function FirstLocks(includeAcct: bool, steps: seq<Step>): set<nat> {
    set p: nat | p < |steps| && FirstLock(includeAcct, steps, p)
  }

  lemma FirstLockPrefix(includeAcct: bool, steps: seq<Step>, n: nat, p: nat)
    requires p < n <= |steps|
    ensures FirstLock(includeAcct, steps[..n], p) == FirstLock(includeAcct, steps, p)
  {
    forall q | 0 <= q <= p
      ensures RunWrite(includeAcct, steps[..n], q) == RunWrite(includeAcct, steps, q)
      ensures LiveLock(includeAcct, steps[..n], q) == LiveLock(includeAcct, steps, q)
    {
      SamePrefix(includeAcct, steps, n, q);
    }
    forall o | 0 <= o < p
      ensures WrittenBetween(includeAcct, steps[..n], o, p) == WrittenBetween(includeAcct, steps, o, p)
    {
      if WrittenBetween(includeAcct, steps, o, p) {
        var q :| o < q < p && RunWrite(includeAcct, steps, q);
        assert RunWrite(includeAcct, steps[..n], q);
      }
    }
  }

  /** A lock finds the state not `terminated` exactly if Run wrote it since every earlier live lock. */
  lemma FirstLockExactly(includeAcct: bool, steps: seq<Step>, p: nat)
    requires LiveLock(includeAcct, steps, p)
    ensures FirstLock(includeAcct, steps, p) <==> Before(includeAcct, steps, p).state != Terminated
  {
    var init := steps[..p];
    TerminatedExactly(includeAcct, init);
    forall o | 0 <= o < p
      ensures LastWord(includeAcct, init, o)
              <==> LiveLock(includeAcct, steps, o) && !WrittenBetween(includeAcct, steps, o, p)
    {
      forall q | 0 <= q < p
        ensures RunWrite(includeAcct, init, q) == RunWrite(includeAcct, steps, q)
        ensures LiveLock(includeAcct, init, q) == LiveLock(includeAcct, steps, q)
      {
        SamePrefix(includeAcct, steps, p, q);
      }
    }
  }

  lemma CutsGrow(includeAcct: bool, steps: seq<Step>)
    requires steps != []
    ensures var last := |steps| - 1;
            Exec(Start(includeAcct), steps).cuts
            == Exec(Start(includeAcct), steps[..last]).cuts + if FirstLock(includeAcct, steps, last) then 1 else 0
  {
    var last := |steps| - 1;
    Reachable(includeAcct, steps[..last]);
    TerminatedStep(Exec(Start(includeAcct), steps[..last]), steps[last]);
    if LiveLock(includeAcct, steps, last) { FirstLockExactly(includeAcct, steps, last); }
  }

  lemma {:induction false} CutsAreFirstLocks(includeAcct: bool, steps: seq<Step>)
    ensures Exec(Start(includeAcct), steps).cuts == |FirstLocks(includeAcct, steps)|
  {
    if steps == [] {
      assert FirstLocks(includeAcct, steps) == {};
    } else {
      CutsAreFirstLocks(includeAcct, steps[..|steps| - 1]);
      CutsGrow(includeAcct, steps);
      FirstLocksStep(includeAcct, steps);
    }
  }

  /** Disconnects write the state exactly at those locks, and each such write is reported by one outcome. */
  lemma CutsExactly(includeAcct: bool, steps: seq<Step>)
    ensures var m := Exec(Start(includeAcct), steps);
            Count(m.log, DisconnectOutcome) + m.owed == m.cuts == |FirstLocks(includeAcct, steps)|
  {
    Reachable(includeAcct, steps);
    CutsAreFirstLocks(includeAcct, steps);
  }

  lemma FirstLocksStep(includeAcct: bool, steps: seq<Step>)
    requires steps != []
    ensures var last := |steps| - 1;
            |FirstLocks(includeAcct, steps)|
            == |FirstLocks(includeAcct, steps[..last])| + if FirstLock(includeAcct, steps, last) then 1 else 0
  {
    var last := |steps| - 1;
    var init := steps[..last];
    var was, now := FirstLocks(includeAcct, init), FirstLocks(includeAcct, steps);
    forall p: nat ensures p in now <==> p in was || (p == last && FirstLock(includeAcct, steps, last)) {
      if p < last { FirstLockPrefix(includeAcct, steps, last, p); }
    }
    assert last !in was;
    if FirstLock(includeAcct, steps, last) {
      assert now == was + {last};
    } else {
      assert now == was;
    }
  }

  /** The state write of Run at q lies between live locks on both sides. */
  ghost predicate Straddled(includeAcct: bool, steps: seq<Step>, o: nat, q: nat, p: nat) {
    o < q < p && LiveLock(includeAcct, steps, o) && RunWrite(includeAcct, steps, q) && LiveLock(includeAcct, steps, p)
  }

  /**
   A disconnect reports a second outcome (or still owes it) if and only if live disconnects took their
   locks on both sides of a state write of Run.
   */
  lemma SecondOutcomeExactly(includeAcct: bool, steps: seq<Step>)
    ensures var m := Exec(Start(includeAcct), steps);
            Count(m.log, DisconnectOutcome) + m.owed >= 2
            <==> exists o: nat, q: nat, p: nat :: Straddled(includeAcct, steps, o, q, p)
  {
    CutsExactly(includeAcct, steps);
    if |FirstLocks(includeAcct, steps)| >= 2 {
      var o, q, p := StraddledByTwo(includeAcct, steps);
    }
    if exists o: nat, q: nat, p: nat :: Straddled(includeAcct, steps, o, q, p) {
      var o: nat, q: nat, p: nat :| Straddled(includeAcct, steps, o, q, p);
      TwoByStraddled(includeAcct, steps, o, q, p);
    }
  }

  lemma StraddledByTwo(includeAcct: bool, steps: seq<Step>) returns (o: nat, q: nat, p: nat)
    requires |FirstLocks(includeAcct, steps)| >= 2
    ensures Straddled(includeAcct, steps, o, q, p)
  {
    o, p := TwoMembers(FirstLocks(includeAcct, steps));
    assert FirstLock(includeAcct, steps, o) && FirstLock(includeAcct, steps, p);
    assert WrittenBetween(includeAcct, steps, o, p);
    q :| o < q < p && RunWrite(includeAcct, steps, q);
  }

  lemma TwoByStraddled(includeAcct: bool, steps: seq<Step>, o: nat, q: nat, p: nat)
    requires Straddled(includeAcct, steps, o, q, p)
    ensures |FirstLocks(includeAcct, steps)| >= 2
  {
    var a := FirstFrom(includeAcct, steps, 0, o);
    var b := FirstFrom(includeAcct, steps, q + 1, p);
    assert a != b && {a, b} <= FirstLocks(includeAcct, steps);
    SubsetSize({a, b}, FirstLocks(includeAcct, steps));
  }

  lemma SubsetSize(a: set<nat>, b: set<nat>)
    requires a <= b
    ensures |a| <= |b|
  {
    assert b == a + (b - a);
  }

  lemma TwoMembers(s: set<nat>) returns (a: nat, b: nat)
    requires |s| >= 2
    ensures a in s && b in s && a < b
  {
    var x :| x in s;
    assert |s - {x}| >= 1;
    var y :| y in s - {x};
    a, b := if x < y then x else y, if x < y then y else x;
  }

  /** The first live lock from `low` on, up to p; just behind a state write of Run, or at the start, it writes. */
  lemma {:induction false} FirstFrom(includeAcct: bool, steps: seq<Step>, low: nat, p: nat) returns (a: nat)
    requires low <= p && LiveLock(includeAcct, steps, p)
    requires low == 0 || RunWrite(includeAcct, steps, low - 1)
    ensures low <= a <= p && FirstLock(includeAcct, steps, a)
    decreases p
  {
    if o: nat :| low <= o < p && LiveLock(includeAcct, steps, o) {
      a := FirstFrom(includeAcct, steps, low, o);
    } else {
      a := p;
      forall o: nat | o < p && LiveLock(includeAcct, steps, o) ensures WrittenBetween(includeAcct, steps, o, p) {
        assert o < low - 1 < p;
      }
    }
  }

  // ---- Which state a disconnect replaces ----

  /** Until terminate has written, Run has written nothing but the two states of a request under way. */
  lemma {:induction false} NotYetEnded(includeAcct: bool, steps: seq<Step>)
    ensures var m := Exec(Start(includeAcct), steps);
            Final(m.pc).None? ==> m.state in {Idle, AuthSent, AcctSent, Terminated}
  {
    if steps != [] {
      NotYetEnded(includeAcct, steps[..|steps| - 1]);
      Reachable(includeAcct, steps[..|steps| - 1]);
      StillUnderWay(Exec(Start(includeAcct), steps[..|steps| - 1]), steps[|steps| - 1]);
    }
  }

  lemma StillUnderWay(m: Machine, s: Step)
    requires PcOk(m) && (Final(m.pc).None? ==> m.state in {Idle, AuthSent, AcctSent, Terminated})
    ensures Final(Next(m, s).pc).None? ==> Next(m, s).state in {Idle, AuthSent, AcctSent, Terminated}
  {
  }

  /** Step e is the state write of terminate, and it wrote `final`. */
  predicate EndedAs(includeAcct: bool, steps: seq<Step>, e: nat, final: State) {
    EndingWrite(includeAcct, steps, e) && Before(includeAcct, steps, e).pc == Ending(final)
  }

  /** Behind terminate's state write, a state that is not `terminated` is the one it wrote. */
  lemma FoundAfterEnding(includeAcct: bool, steps: seq<Step>, e: nat, p: nat)
    requires e < p <= |steps| && EndingWrite(includeAcct, steps, e) && Before(includeAcct, steps, p).state != Terminated
    ensures EndedAs(includeAcct, steps, e, Before(includeAcct, steps, p).state)
    ensures IsTerminal(Before(includeAcct, steps, p).state)
  {
    assert steps[..p][..e] == steps[..e];
    PastEnding(includeAcct, steps[..p], e);
    Reachable(includeAcct, steps[..p]);
  }

  /**
   A disconnect that writes the state finds an established subscriber if and only if terminate had written
   `established` before; any other it writes over idle, a request under way or a failure.
   */
  lemma CutFindsEstablishedExactly(includeAcct: bool, steps: seq<Step>, p: nat)
    requires FirstLock(includeAcct, steps, p)
    ensures var found := Before(includeAcct, steps, p).state;
            && Before(includeAcct, steps, p + 1).state == Terminated && found != Terminated
            && (found == Established <==> exists e: nat :: e < p && EndedAs(includeAcct, steps, e, Established))
  {
    FirstLockExactly(includeAcct, steps, p);
    OneStep(includeAcct, steps, p);
    if Before(includeAcct, steps, p).state == Established {
      var e := EndingBefore(includeAcct, steps, p);
    }
    forall e: nat | e < p && EndedAs(includeAcct, steps, e, Established)
      ensures Before(includeAcct, steps, p).state == Established
    {
      FoundAfterEnding(includeAcct, steps, e, p);
    }
  }

  lemma EndingBefore(includeAcct: bool, steps: seq<Step>, p: nat) returns (e: nat)
    requires p <= |steps| && Before(includeAcct, steps, p).state == Established
    ensures e < p && EndedAs(includeAcct, steps, e, Established)
  {
    NotYetEnded(includeAcct, steps[..p]);
    e := EndingHasPlace(includeAcct, steps[..p]);
    assert steps[..p][..e] == steps[..e];
    FoundAfterEnding(includeAcct, steps, e, p);
  }

  // ---- Witnesses ----

  /** Where a listed interleaving stands before step k, once Run has begun. */
  predicate Stands(includeAcct: bool, steps: seq<Step>, k: nat, pc: Pc, state: State, owed: nat, cuts: nat) {
    k <= |steps|
    && var m := Before(includeAcct, steps, k);
       m.pc == pc && m.state == state && m.live && m.owed == owed && m.cuts == cuts
  }

  function PcAfter(includeAcct: bool, pc: Pc, state: State, r: SendResult): Pc {
    match pc
    case NotStarted => Begun
    case Begun => Entering(AuthSent)
    case Entering(next) => if state == next then Sending(next) else Announcing(next)
    case Announcing(next) => Sending(next)
    case Sending(phase) =>
      if r.Reply? then Replied(phase, r.code) else Ending(if phase == AuthSent then AuthFailed else AcctFailed)
    case Replied(phase, code) => AfterReply(includeAcct, phase, code)
    case Ending(final) => if state != final then EndingChanged(final) else EndingTerminal(final)
    case EndingChanged(final) => EndingTerminal(final)
    case EndingTerminal(final) => EndingOutcome(final)
    case EndingOutcome(final) => Returned(final)
    case Returned(final) => pc
  }

  function StateAfter(pc: Pc, state: State): State {
    match pc
    case Entering(next) => next
    case Ending(final) => final
    case _ => state
  }

  lemma Begins(includeAcct: bool, steps: seq<Step>)
    requires steps != [] && steps[0].RunStep?
    ensures Stands(includeAcct, steps, 1, Begun, Idle, 0, 0)
  {
    OneStep(includeAcct, steps, 0);
  }

  lemma Runs(includeAcct: bool, steps: seq<Step>, k: nat, pc: Pc, state: State, owed: nat, cuts: nat)
    requires k < |steps| && steps[k].RunStep? && Stands(includeAcct, steps, k, pc, state, owed, cuts)
    ensures var next := PcAfter(includeAcct, pc, state, steps[k].result);
            Stands(includeAcct, steps, k + 1, next, StateAfter(pc, state), owed, cuts)
  {
    OneStep(includeAcct, steps, k);
    Reachable(includeAcct, steps[..k]);
  }

  lemma Disconnects(includeAcct: bool, steps: seq<Step>, k: nat, pc: Pc, state: State, owed: nat, cuts: nat)
    requires k + 1 < |steps| && steps[k] == DisconnectLock && steps[k + 1] == DisconnectEmit && state != Terminated
    requires Stands(includeAcct, steps, k, pc, state, owed, cuts)
    ensures Stands(includeAcct, steps, k + 2, pc, Terminated, owed, cuts + 1)
  {
    OneStep(includeAcct, steps, k);
    OneStep(includeAcct, steps, k + 1);
  }

  lemma OutcomesWhereStands(includeAcct: bool, steps: seq<Step>, pc: Pc, state: State, cuts: nat)
    requires Stands(includeAcct, steps, |steps|, pc, state, 0, cuts)
    ensures var m := Exec(Start(includeAcct), steps);
            m.pc == pc && m.state == state && Count(m.log, DisconnectOutcome) == cuts
  {
    assert steps[..|steps|] == steps;
    Reachable(includeAcct, steps);
  }

  /** One disconnect before Run's first state write and one after: two outcomes for one subscriber. */
  lemma TwoOutcomes(includeAcct: bool)
    ensures var run := RunStep(SendError);
            var steps := [run, DisconnectLock, DisconnectEmit, run, run, DisconnectLock, DisconnectEmit];
            Count(Exec(Start(includeAcct), steps).log, DisconnectOutcome) == 2
  {
    var run := RunStep(SendError);
    var steps := [run, DisconnectLock, DisconnectEmit, run, run, DisconnectLock, DisconnectEmit];
    Begins(includeAcct, steps);
    Disconnects(includeAcct, steps, 1, Begun, Idle, 0, 0);
    Runs(includeAcct, steps, 3, Begun, Terminated, 0, 1);
    Runs(includeAcct, steps, 4, Entering(AuthSent), Terminated, 0, 1);
    Disconnects(includeAcct, steps, 5, Announcing(AuthSent), AuthSent, 0, 1);
    OutcomesWhereStands(includeAcct, steps, Announcing(AuthSent), Terminated, 2);
  }

  lemma Asks(includeAcct: bool, steps: seq<Step>)
    requires |steps| >= 4 && forall j :: 0 <= j < 4 ==> steps[j].RunStep?
    ensures Stands(includeAcct, steps, 4, Sending(AuthSent), AuthSent, 0, 0)
  {
    Begins(includeAcct, steps);
    Runs(includeAcct, steps, 1, Begun, Idle, 0, 0);
    Runs(includeAcct, steps, 2, Entering(AuthSent), Idle, 0, 0);
    Runs(includeAcct, steps, 3, Announcing(AuthSent), AuthSent, 0, 0);
  }

  lemma FailsAuth(includeAcct: bool, steps: seq<Step>, k: nat, cuts: nat)
    requires k + 5 <= |steps| && forall j :: k <= j < k + 5 ==> steps[j] == RunStep(SendError)
    requires Stands(includeAcct, steps, k, Sending(AuthSent), Terminated, 0, cuts)
    ensures Stands(includeAcct, steps, k + 5, Returned(AuthFailed), AuthFailed, 0, cuts)
  {
    Runs(includeAcct, steps, k, Sending(AuthSent), Terminated, 0, cuts);
    Runs(includeAcct, steps, k + 1, Ending(AuthFailed), Terminated, 0, cuts);
    Runs(includeAcct, steps, k + 2, EndingChanged(AuthFailed), AuthFailed, 0, cuts);
    Runs(includeAcct, steps, k + 3, EndingTerminal(AuthFailed), AuthFailed, 0, cuts);
    Runs(includeAcct, steps, k + 4, EndingOutcome(AuthFailed), AuthFailed, 0, cuts);
  }

  /** A disconnect while Run waits for its answer: reported, and then overwritten by a failed authentication. */
  lemma TerminatedLost(includeAcct: bool)
    ensures var run := RunStep(SendError);
            var steps := [run, run, run, run, DisconnectLock, DisconnectEmit, run, run, run, run, run];
            var m := Exec(Start(includeAcct), steps);
            m.pc == Returned(AuthFailed) && m.state == AuthFailed && Count(m.log, DisconnectOutcome) == 1
  {
    var run := RunStep(SendError);
    var steps := [run, run, run, run, DisconnectLock, DisconnectEmit, run, run, run, run, run];
    Asks(includeAcct, steps);
    Disconnects(includeAcct, steps, 4, Sending(AuthSent), AuthSent, 0, 0);
    FailsAuth(includeAcct, steps, 6, 1);
    OutcomesWhereStands(includeAcct, steps, Returned(AuthFailed), AuthFailed, 1);
  }

  /** A reply of Access-Accept to a subscriber that asks no more. */
  lemma Establishes(steps: seq<Step>)
    requires |steps| >= 10 && forall j :: 0 <= j < 10 ==> steps[j] == RunStep(Reply(ACCESS_ACCEPT))
    ensures Stands(false, steps, 10, Returned(Established), Established, 0, 0)
  {
    Asks(false, steps);
    Runs(false, steps, 4, Sending(AuthSent), AuthSent, 0, 0);
    Runs(false, steps, 5, Replied(AuthSent, ACCESS_ACCEPT), AuthSent, 0, 0);
    Closes(steps, 6);
  }

  /** The four sections of terminate. */
  lemma Closes(steps: seq<Step>, k: nat)
    requires k + 4 <= |steps| && forall j :: k <= j < k + 4 ==> steps[j].RunStep?
    requires Stands(false, steps, k, Ending(Established), AuthSent, 0, 0)
    ensures Stands(false, steps, k + 4, Returned(Established), Established, 0, 0)
  {
    Runs(false, steps, k, Ending(Established), AuthSent, 0, 0);
    Runs(false, steps, k + 1, EndingChanged(Established), Established, 0, 0);
    Runs(false, steps, k + 2, EndingTerminal(Established), Established, 0, 0);
    Runs(false, steps, k + 3, EndingOutcome(Established), Established, 0, 0);
  }

  /** A Run that established its subscriber, and a disconnect after it. */
  function EstablishedThenCut(): seq<Step> {
    seq(10, _ => RunStep(Reply(ACCESS_ACCEPT))) + [DisconnectLock, DisconnectEmit]
  }

  lemma CutAfterReturn()
    ensures var m := Exec(Start(false), EstablishedThenCut());
            m.pc == Returned(Established) && m.state == Terminated && Count(m.log, DisconnectOutcome) == 1
  {
    var steps := EstablishedThenCut();
    Establishes(steps);
    Disconnects(false, steps, 10, Returned(Established), Established, 0, 0);
    OutcomesWhereStands(false, steps, Returned(Established), Terminated, 1);
  }

  /** A disconnect before the first request is out makes an idle subscriber terminated. */
  lemma IdleIsTerminated(includeAcct: bool)
    ensures var steps := [RunStep(SendError), DisconnectLock, DisconnectEmit];
            && Before(includeAcct, steps, 1).state == Idle && Before(includeAcct, steps, 1).live
            && Exec(Start(includeAcct), steps).state == Terminated
            && Count(Exec(Start(includeAcct), steps).log, DisconnectOutcome) == 1
  {
    var steps := [RunStep(SendError), DisconnectLock, DisconnectEmit];
    Begins(includeAcct, steps);
    Disconnects(includeAcct, steps, 1, Begun, Idle, 0, 0);
    OutcomesWhereStands(includeAcct, steps, Begun, Terminated, 1);
  }

  // ---- The subscriber itself ----

  class Subscriber {
    const includeAcct: bool
    var state: State
    var live: bool
    var coaCount: nat
    var log: seq<Record>

    /** OnDisconnect calls between their lock section and their records. */
    var owed: nat

    /** The sections executed so far, and the machine they lead to. */
    ghost var trace: seq<Step>
    ghost var m: Machine

    ghost predicate Valid()
      reads this
    {
      && m == Exec(Start(includeAcct), trace)
      && m.state == state && m.live == live && m.coaCount == coaCount && m.log == log
      && m.owed == owed
    }

    constructor (includeAcct: bool)
      ensures Valid() && m == Start(includeAcct) && this.includeAcct == includeAcct
    {
      this.includeAcct := includeAcct;
      state, live, coaCount, log, owed := Idle, false, 0, [], 0;
      trace, m := [], Start(includeAcct);
    }

    /** The history grows by the section just executed. */
    ghost method Record(s: Step)
      requires m == Exec(Start(includeAcct), trace)
      requires Next(m, s).state == state && Next(m, s).live == live
      requires Next(m, s).coaCount == coaCount && Next(m, s).log == log
      requires Next(m, s).owed == owed
      modifies this`trace, this`m
      ensures Valid() && m == Next(old(m), s)
    {
      ExecSnoc(Start(includeAcct), trace, s);
      m := Next(m, s);
      trace := trace + [s];
    }

    /** Counted always, reported once Run has begun; never a transition. */
    method OnCoA()
      requires Valid()
      modifies this
      ensures Valid() && m == CoANext(old(m)) && state == old(state)
    {
      coaCount := coaCount + 1;
      if live {
        log := log + [CoAReceived];
      }
      Record(CoA);
    }

    /** The part of OnDisconnect under the lock. */
    method CutState() returns (wrote: bool)
      requires Valid()
      modifies this
      ensures Valid() && m == CutNext(old(m)) && (wrote <==> old(live) && old(state) != Terminated)
    {
      wrote := live && state != Terminated;
      if wrote {
        state := Terminated;
        owed := owed + 1;
      }
      Record(DisconnectLock);
    }

    /** The rest of an OnDisconnect that wrote the state. */
    method ReportDisconnect()
      requires Valid() && owed > 0
      modifies this
      ensures Valid() && m == EmitNext(old(m)) && state == old(state)
    {
      log := log + [DisconnectReceived];
      log := log + [StateChanged(Terminated)];
      log := log + [DisconnectOutcome];
      owed := owed - 1;
      Record(DisconnectEmit);
    }

    /** One undisturbed call: the state ends up terminated, and an outcome is submitted if it was not before. */
    method OnDisconnect()
      requires Valid()
      modifies this
      ensures Valid() && m == if old(live) && old(state) != Terminated then EmitNext(CutNext(old(m))) else old(m)
    {
      var wrote := CutState();
      if wrote {
        ReportDisconnect();
      }
    }

    /** Whatever the listener does between two sections of Run. */
    method Meanwhile()
      requires Valid()
      modifies this
      ensures Valid() && m.pc == old(m.pc)
    {
      var n: nat := *;
      while n > 0
        invariant Valid() && m.pc == old(m.pc)
      {
        var which: nat := *;
        if which == 0 {
          OnCoA();
        } else if which == 1 {
          var _ := CutState();
        } else {
          if owed > 0 { ReportDisconnect(); }
        }
        n := n - 1;
      }
    }

    /** A section of Run that only submits its record. */
    method Report(record: Record)
      requires Valid() && Reported(m) == Some(record)
      modifies this
      ensures Valid() && m == RunNext(old(m), SendError) && state == old(state)
    {
      RunLogs(m, SendError);
      log := log + [record];
      Record(RunStep(SendError));
    }

    // A section other than a Send ignores the result its RunStep carries.

    /** Sets the state and reports the change, unless the state is already that. */
    method Transition(next: State)
      requires Valid() && m.pc == Entering(next)
      modifies this
      ensures Valid() && m.pc == Sending(next)
    {
      if state == next {
        Record(RunStep(SendError));
        return;
      }
      state := next;
      Record(RunStep(SendError));
      Meanwhile();
      Report(StateChanged(next));
    }

    /** The single exit from Run: the final state, its terminal event, its outcome. */
    method Terminate(final: State) returns (r: State)
      requires Valid() && m.pc == Ending(final)
      modifies this
      ensures Valid() && r == final && m.pc == Returned(final)
    {
      var prev := state;
      state := final;
      Record(RunStep(SendError));
      Meanwhile();
      if prev != final {
        Report(StateChanged(final));
        Meanwhile();
      }
      Report(TerminalEvent(final));
      Meanwhile();
      Report(RunOutcome(final));
      r := final;
    }

    /** One Send, whose result is up to the network, and the report of a reply. */
    method Ask(phase: State) returns (code: Option<nat>)
      requires Valid() && m.pc == Sending(phase)
      modifies this
      ensures Valid()
      ensures m.pc == if code.Some? then AfterReply(includeAcct, phase, code.value)
                      else Ending(if phase == AuthSent then AuthFailed else AcctFailed)
    {
      var r: SendResult := *;
      Record(RunStep(r));
      Reachable(includeAcct, trace);
      if !r.Reply? {
        return None;
      }
      Meanwhile();
      Report(ReplyReceived(phase, r.code));
      Reachable(includeAcct, trace);
      code := Some(r.code);
    }

    /** The whole lifecycle, with the listener running alongside. */
    method Run() returns (final: State)
      requires Valid() && m.pc == NotStarted
      modifies this
      ensures Valid() && m.pc == Returned(final)
      ensures m.auth.Some?
      ensures final == Verdict(includeAcct, m.auth.value, if m.acct.Some? then m.acct.value else SendError)
      ensures Count(log, TerminalEvent(final)) == 1 && Count(log, RunOutcome(final)) == 1
      ensures Count(log, DisconnectOutcome) <= 4
    {
      live := true;
      Record(RunStep(SendError));
      Meanwhile();
      Report(Activated);
      Meanwhile();
      final := Lifecycle();
      RunReturnsItsVerdict(includeAcct, trace, final);
      DisconnectOutcomesBounded(includeAcct, trace);
    }

    method Lifecycle() returns (final: State)
      requires Valid() && m.pc == Entering(AuthSent)
      modifies this
      ensures Valid() && m.pc == Returned(final)
    {
      Transition(AuthSent);
      Meanwhile();
      var auth := Ask(AuthSent);
      Meanwhile();
      if auth == None || auth.value != ACCESS_ACCEPT {
        final := Terminate(AuthFailed);
        return;
      }
      if !includeAcct {
        final := Terminate(Established);
        return;
      }
      Transition(AcctSent);
      Meanwhile();
      var acct := Ask(AcctSent);
      Meanwhile();
      if acct == None || acct.value != ACCOUNTING_RESPONSE {
        final := Terminate(AcctFailed);
        return;
      }
      final := Terminate(Established);
    }
  }
}
