/**
 What one subscriber reports, whatever the interleaving: the records of its Run, of its disconnects and of its CoA
 requests, each in their order (pkg/subscriber/subscriber.go).
 */
module RunLog {
  import opened Wrappers
  import opened Subscriber

  datatype Voice = OfRun | OfDisconnect | OfCoA

  /** Who submits a record; only a disconnect reports a change to terminated. */
  function VoiceOf(r: Record): Voice {
    match r
    case CoAReceived => OfCoA
    case DisconnectReceived => OfDisconnect
    case DisconnectOutcome => OfDisconnect
    case StateChanged(to) => if to == Terminated then OfDisconnect else OfRun
    case _ => OfRun
  }

  /** The records of one voice, in order. */
  function Said(log: seq<Record>, v: Voice): seq<Record> {
    if log == [] then []
    else Said(log[..|log| - 1], v) + if VoiceOf(log[|log| - 1]) == v then [log[|log| - 1]] else []
  }

  lemma SaidSnoc(log: seq<Record>, r: Record, v: Voice)
    ensures Said(log + [r], v) == Said(log, v) + if VoiceOf(r) == v then [r] else []
  {
    assert (log + [r])[..|log|] == log;
  }

  // ---- Run ----

  function ReplyTo(phase: State, r: Option<SendResult>): seq<Record> {
    match r
    case Some(Reply(code)) => [ReplyReceived(phase, code)]
    case _ => []
  }

  /** Up to the answer of the first Send. */
  function AuthPhase(auth: Option<SendResult>): seq<Record> {
    [Activated] + [StateChanged(AuthSent)] + ReplyTo(AuthSent, auth)
  }

  /** The phases, as far as the Send results took them. */
  function Phases(includeAcct: bool, auth: Option<SendResult>, acct: Option<SendResult>): seq<Record> {
    if auth == Some(Reply(2)) && includeAcct
    then AuthPhase(auth) + [StateChanged(AcctSent)] + ReplyTo(AcctSent, acct)
    else AuthPhase(auth)
  }

  /** What Run has said by the time it stands where it does. */
  function SoFar(m: Machine): seq<Record> {
    match m.pc
    case NotStarted => []
    case Begun => []
    case Entering(p) => if p == AuthSent then [Activated] else AuthPhase(m.auth)
    case Announcing(p) => if p == AuthSent then [Activated] else AuthPhase(m.auth)
    case Sending(p) => Entered(p, m.auth)
    case Replied(p, _) => Entered(p, m.auth)
    case Ending(_) => Phases(m.includeAcct, m.auth, m.acct)
    case EndingChanged(_) => Phases(m.includeAcct, m.auth, m.acct)
    case EndingTerminal(f) => Phases(m.includeAcct, m.auth, m.acct) + [StateChanged(f)]
    case EndingOutcome(f) => Phases(m.includeAcct, m.auth, m.acct) + [StateChanged(f)] + [TerminalEvent(f)]
    case Returned(f) =>
      Phases(m.includeAcct, m.auth, m.acct) + [StateChanged(f)] + [TerminalEvent(f)] + [RunOutcome(f)]
  }

  function Entered(p: State, auth: Option<SendResult>): seq<Record> {
    if p == AuthSent then [Activated] + [StateChanged(AuthSent)] else AuthPhase(auth) + [StateChanged(AcctSent)]
  }

  /** A phase is entered, and Run ended, from another state; a disconnect may come between. */
  predicate StateOk(m: Machine) {
    m.state == Terminated ||
    match m.pc
    case NotStarted => m.state == Idle
    case Begun => m.state == Idle
    case Entering(p) => m.state == if p == AuthSent then Idle else AuthSent
    case Announcing(p) => m.state == p
    case Sending(p) => m.state == p
    case Replied(p, _) => m.state == p
    case Ending(_) => m.state == AuthSent || m.state == AcctSent
    case _ => true
  }

  predicate Speaks(m: Machine) {
    StateOk(m) && Said(m.log, OfRun) == SoFar(m)
  }

  lemma StateStep(m: Machine, r: SendResult)
    requires PcOk(m) && StateOk(m)
    ensures StateOk(RunNext(m, r))
  {
  }

  lemma NothingAdded<T>(s: seq<T>)
    ensures s + [] == s
  {
  }

  lemma RunVoice(m: Machine)
    requires PcOk(m) && Reported(m).Some?
    ensures VoiceOf(Reported(m).value) == OfRun
  {
  }

  /** One section says its record, if it has one, and no other. */
  lemma SoFarStep(m: Machine, r: SendResult)
    requires PcOk(m) && StateOk(m)
    ensures SoFar(RunNext(m, r)) == SoFar(m) + if Reported(m).Some? then [Reported(m).value] else []
  {
    NothingAdded(SoFar(m));
  }

  lemma RunSpeaks(m: Machine, r: SendResult)
    requires PcOk(m) && Speaks(m)
    ensures Speaks(RunNext(m, r))
  {
    StateStep(m, r);
    SoFarStep(m, r);
    RunSays(m, r, OfRun);
    NothingAdded(SoFar(m));
  }

  lemma RunSays(m: Machine, r: SendResult, v: Voice)
    requires PcOk(m)
    ensures Said(RunNext(m, r).log, v)
            == Said(m.log, v) + if Reported(m).Some? && v == OfRun then [Reported(m).value] else []
  {
    RunLogs(m, r);
    NothingAdded(Said(m.log, v));
    if Reported(m).Some? {
      SaidSnoc(m.log, Reported(m).value, v);
      RunVoice(m);
    }
  }

  lemma PcHolds(includeAcct: bool, steps: seq<Step>)
    ensures var m := Exec(Start(includeAcct), steps);
            PcOk(m) && (m.live <==> m.pc != NotStarted) && m.includeAcct == includeAcct
  {
    Reachable(includeAcct, steps);
  }

  lemma SaysToo(log: seq<Record>, r: Record, v: Voice)
    ensures VoiceOf(r) == v ==> Said(log + [r], v) == Said(log, v) + [r]
    ensures VoiceOf(r) != v ==> Said(log + [r], v) == Said(log, v)
  {
    SaidSnoc(log, r, v);
    NothingAdded(Said(log, v));
  }

  lemma ThreeAdded<T>(s: seq<T>, a: T, b: T, c: T)
    ensures s + [a] + [b] + [c] == s + [a, b, c]
  {
  }

  lemma SaidThree(log: seq<Record>, one: seq<Record>, two: seq<Record>, three: seq<Record>, v: Voice)
    requires one == log + [DisconnectReceived] && two == one + [StateChanged(Terminated)]
    requires three == two + [DisconnectOutcome]
    ensures Said(three, v) == if v == OfDisconnect then Said(log, v) + Notice() else Said(log, v)
  {
    SaysToo(log, DisconnectReceived, v);
    SaysToo(one, StateChanged(Terminated), v);
    SaysToo(two, DisconnectOutcome, v);
    ThreeAdded(Said(log, v), DisconnectReceived, StateChanged(Terminated), DisconnectOutcome);
  }

  lemma EmitSays(m: Machine, v: Voice)
    ensures Said(EmitNext(m).log, v) == Said(m.log, v) + if m.owed > 0 && v == OfDisconnect then Notice() else []
  {
    var one := m.log + [DisconnectReceived];
    var two := one + [StateChanged(Terminated)];
    SaidThree(m.log, one, two, two + [DisconnectOutcome], v);
    NothingAdded(Said(m.log, v));
  }

  lemma CoASays(m: Machine, v: Voice)
    ensures Said(CoANext(m).log, v) == Said(m.log, v) + if m.live && v == OfCoA then [CoAReceived] else []
  {
    SaidSnoc(m.log, CoAReceived, v);
  }

  /** What the listener does leaves Run's place and records alone. */
  lemma RunUntouched(m: Machine, t: Machine)
    requires Speaks(m) && t.pc == m.pc && t.auth == m.auth && t.acct == m.acct && t.includeAcct == m.includeAcct
    requires t.state == m.state || t.state == Terminated
    requires Said(t.log, OfRun) == Said(m.log, OfRun)
    ensures Speaks(t)
  {
  }

  lemma SpeaksStep(m: Machine, s: Step)
    requires PcOk(m) && Speaks(m)
    ensures Speaks(Next(m, s))
  {
    NothingAdded(Said(m.log, OfRun));
    match s
    case RunStep(r) => RunSpeaks(m, r);
    case CoA => CoASays(m, OfRun); RunUntouched(m, CoANext(m));
    case DisconnectLock => RunUntouched(m, CutNext(m));
    case DisconnectEmit => EmitSays(m, OfRun); RunUntouched(m, EmitNext(m));
  }

  lemma {:induction false} AlwaysSpeaks(includeAcct: bool, steps: seq<Step>)
    ensures Speaks(Exec(Start(includeAcct), steps))
  {
    if steps != [] {
      var init := steps[..|steps| - 1];
      AlwaysSpeaks(includeAcct, init);
      PcHolds(includeAcct, init);
      SpeaksStep(Exec(Start(includeAcct), init), steps[|steps| - 1]);
    }
  }

  /** What Run submits on its way to `final`, its disconnects and CoA requests aside. */
  function Script(includeAcct: bool, auth: SendResult, acct: Option<SendResult>, final: State): seq<Record> {
    [Activated, StateChanged(AuthSent)]
    + (if auth.Reply? then [ReplyReceived(AuthSent, auth.code)] else [])
    + (if auth == Reply(2) && includeAcct then
         [StateChanged(AcctSent)]
         + (match acct case Some(Reply(code)) => [ReplyReceived(AcctSent, code)] case _ => [])
       else [])
    + [StateChanged(final), TerminalEvent(final), RunOutcome(final)]
  }

  lemma ScriptIs(includeAcct: bool, auth: SendResult, acct: Option<SendResult>, final: State)
    ensures Phases(includeAcct, Some(auth), acct) + [StateChanged(final)] + [TerminalEvent(final)] + [RunOutcome(final)]
            == Script(includeAcct, auth, acct, final)
  {
  }

  /** In every interleaving a Run that returned has submitted exactly the records of its script, in order. */
  lemma RunSaysItsScript(includeAcct: bool, steps: seq<Step>, final: State)
    requires Exec(Start(includeAcct), steps).pc == Returned(final)
    ensures var m := Exec(Start(includeAcct), steps);
            m.auth.Some? && Said(m.log, OfRun) == Script(includeAcct, m.auth.value, m.acct, final)
  {
    AlwaysSpeaks(includeAcct, steps);
    PcHolds(includeAcct, steps);
    var m := Exec(Start(includeAcct), steps);
    ScriptIs(includeAcct, m.auth.value, m.acct, final);
  }

  /** The verdict by the reply codes: 2 is Access-Accept, 5 is Accounting-Response. */
  lemma VerdictByCodes(includeAcct: bool, steps: seq<Step>, final: State)
    requires Exec(Start(includeAcct), steps).pc == Returned(final)
    ensures var m := Exec(Start(includeAcct), steps);
            && m.auth.Some? && final in {AuthFailed, AcctFailed, Established}
            && (final == AuthFailed <==> m.auth != Some(Reply(2)))
            && (final == AcctFailed <==> m.auth == Some(Reply(2)) && includeAcct && m.acct != Some(Reply(5)))
            && (m.acct.Some? <==> m.auth == Some(Reply(2)) && includeAcct)
  {
    RunReturnsItsVerdict(includeAcct, steps, final);
    PcHolds(includeAcct, steps);
    AccountedExactly(includeAcct, steps);
  }

  predicate AccountedOk(m: Machine) {
    m.acct.Some? ==> m.auth == Some(Reply(2)) && m.includeAcct
  }

  lemma AccountedStep(m: Machine, s: Step)
    requires PcOk(m) && AccountedOk(m)
    ensures AccountedOk(Next(m, s))
  {
  }

  /** The second Send is made only after an Access-Accept, and only if configured. */
  lemma {:induction false} AccountedExactly(includeAcct: bool, steps: seq<Step>)
    ensures AccountedOk(Exec(Start(includeAcct), steps))
  {
    if steps != [] {
      var init := steps[..|steps| - 1];
      AccountedExactly(includeAcct, init);
      PcHolds(includeAcct, init);
      AccountedStep(Exec(Start(includeAcct), init), steps[|steps| - 1]);
    }
  }

  // ---- Disconnects ----

  function Notice(): seq<Record> {
    [DisconnectReceived, StateChanged(Terminated), DisconnectOutcome]
  }

  function Notices(n: nat): seq<Record> {
    if n == 0 then [] else Notices(n - 1) + Notice()
  }

  predicate DisconnectsOk(m: Machine) {
    m.owed <= m.cuts && Said(m.log, OfDisconnect) == Notices(m.cuts - m.owed)
  }

  /** A disconnect's state write is owed its records until they are submitted. */
  lemma OwedStep(m: Machine, s: Step)
    requires m.owed <= m.cuts
    ensures var t := Next(m, s);
            t.owed <= t.cuts && t.cuts - t.owed == m.cuts - m.owed + if s == DisconnectEmit && m.owed > 0 then 1 else 0
  {
  }

  lemma NoticesStep(m: Machine, s: Step)
    requires PcOk(m)
    ensures Said(Next(m, s).log, OfDisconnect)
            == Said(m.log, OfDisconnect) + if s == DisconnectEmit && m.owed > 0 then Notice() else []
  {
    NothingAdded(Said(m.log, OfDisconnect));
    match s
    case RunStep(r) => RunSays(m, r, OfDisconnect);
    case CoA => CoASays(m, OfDisconnect);
    case DisconnectLock =>
    case DisconnectEmit => EmitSays(m, OfDisconnect);
  }

  lemma DisconnectStep(m: Machine, s: Step, t: Machine)
    requires PcOk(m) && DisconnectsOk(m) && t == Next(m, s)
    ensures DisconnectsOk(t)
  {
    OwedStep(m, s);
    NoticesStep(m, s);
    NothingAdded(Said(m.log, OfDisconnect));
  }

  /** Each state write of a disconnect is reported by the same three records, once its reporter got that far. */
  lemma {:induction false} DisconnectsSay(includeAcct: bool, steps: seq<Step>)
    ensures DisconnectsOk(Exec(Start(includeAcct), steps))
  {
    if steps != [] {
      var init := steps[..|steps| - 1];
      DisconnectsSay(includeAcct, init);
      PcHolds(includeAcct, init);
      DisconnectStep(Exec(Start(includeAcct), init), steps[|steps| - 1], Exec(Start(includeAcct), steps));
    }
  }

  // ---- CoA requests ----

  predicate Begins(steps: seq<Step>) {
    exists i :: 0 <= i < |steps| && steps[i].RunStep?
  }

  /** CoA requests, and those of them that came after Run had begun. */
  function CoAs(steps: seq<Step>, live: bool): nat {
    if steps == [] then 0
    else
      var init := steps[..|steps| - 1];
      CoAs(init, live) + if steps[|steps| - 1] == CoA && (live ==> Begins(init)) then 1 else 0
  }

  lemma BeginsStep(steps: seq<Step>)
    requires steps != []
    ensures Begins(steps) <==> Begins(steps[..|steps| - 1]) || steps[|steps| - 1].RunStep?
  {
    var init := steps[..|steps| - 1];
    assert forall i :: 0 <= i < |init| ==> init[i] == steps[i];
    if Begins(init) {
      var i :| 0 <= i < |init| && init[i].RunStep?;
      assert steps[i].RunStep?;
    }
  }

  lemma LiveStep(m: Machine, s: Step)
    requires m.live <==> m.pc != NotStarted
    ensures Next(m, s).live <==> m.live || s.RunStep?
  {
  }

  lemma {:induction false} LiveOnceBegun(includeAcct: bool, steps: seq<Step>)
    ensures Exec(Start(includeAcct), steps).live <==> Begins(steps)
  {
    if steps != [] {
      var init := steps[..|steps| - 1];
      LiveOnceBegun(includeAcct, init);
      PcHolds(includeAcct, init);
      LiveStep(Exec(Start(includeAcct), init), steps[|steps| - 1]);
      BeginsStep(steps);
    }
  }

  lemma CoAStep(m: Machine, s: Step)
    requires PcOk(m)
    ensures Next(m, s).coaCount == m.coaCount + if s == CoA then 1 else 0
    ensures |Said(Next(m, s).log, OfCoA)| == |Said(m.log, OfCoA)| + if s == CoA && m.live then 1 else 0
  {
    match s
    case RunStep(r) => RunSays(m, r, OfCoA);
    case CoA => CoASays(m, OfCoA);
    case DisconnectLock =>
    case DisconnectEmit => EmitSays(m, OfCoA);
  }

  /** Every CoA request is counted, and reported if Run had begun. */
  lemma {:induction false} CoAsCounted(includeAcct: bool, steps: seq<Step>)
    ensures var m := Exec(Start(includeAcct), steps);
            m.coaCount == CoAs(steps, false) && |Said(m.log, OfCoA)| == CoAs(steps, true)
  {
    if steps != [] {
      var init := steps[..|steps| - 1];
      CoAsCounted(includeAcct, init);
      LiveOnceBegun(includeAcct, init);
      PcHolds(includeAcct, init);
      CoAStep(Exec(Start(includeAcct), init), steps[|steps| - 1]);
    }
  }
}
