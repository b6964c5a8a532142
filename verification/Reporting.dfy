/** From every subscriber's Run to the summary of the whole test: the summary counts what the Runs returned. */
module Reporting {
  import opened Observation
  import opened Aggregate
  import Subscriber

  type State = Subscriber.State

  /** The label a terminal event carries (pkg/subscriber/state.go, pkg/events/outcome.go). */
  function Label(s: State): string {
    match s
    case Idle => "idle"
    case AuthSent => "auth_sent"
    case AuthRetry => "auth_retry"
    case AuthFailed => AUTH_FAILED
    case AcctSent => "acct_sent"
    case AcctRetry => "acct_retry"
    case AcctFailed => ACCT_FAILED
    case Established => ESTABLISHED
    case Terminated => TERMINATED
  }

  /** The states of the terminal events one subscriber submitted, in order. */
  function Submitted(log: seq<Subscriber.Record>): seq<string> {
    if log == [] then []
    else
      var last := log[|log| - 1];
      Submitted(log[..|log| - 1]) + if last.TerminalEvent? then [Label(last.final)] else []
  }

  /** The states of the terminal events of subscriber k in a stream, in order. */
  function Endings(es: seq<Event>, k: nat): seq<string> {
    if es == [] then []
    else
      var last := es[|es| - 1];
      Endings(es[..|es| - 1], k) + if Is(last, Ending, k) then [last.state] else []
  }

  /** The single pass keeps the last of them. */
  lemma {:induction false} FoldKeepsLastEnding(es: seq<Event>, k: nat)
    ensures var t, ends := Fold(es).terminal, Endings(es, k);
            if ends == [] then k !in t else k in t && t[k] == ends[|ends| - 1]
  {
    if es != [] {
      var init, e := es[..|es| - 1], es[|es| - 1];
      FoldKeepsLastEnding(init, k);
      TerminalAfter(Fold(init), e);
    }
  }

  lemma TerminalAfter(a: Agg, e: Event)
    ensures Observed(a, e).terminal == if Is(e, Ending, e.sub) then a.terminal[e.sub := e.state] else a.terminal
  {
  }

  /** A log with no terminal event, or with exactly one. */
  lemma {:induction false} SubmittedOf(log: seq<Subscriber.Record>, final: State, n: nat)
    requires n <= 1
    requires forall f: State :: Subscriber.Count(log, Subscriber.TerminalEvent(f)) == if f == final then n else 0
    ensures Submitted(log) == if n == 0 then [] else [Label(final)]
  {
    assert Subscriber.Count(log, Subscriber.TerminalEvent(final)) == n;
    if log != [] {
      var init, last := log[..|log| - 1], log[|log| - 1];
      if last.TerminalEvent? {
        var own := Subscriber.TerminalEvent(last.final);
        assert Subscriber.Count(log, own) == Subscriber.Count(init, own) + 1;
        assert last.final == final && n == 1;
        SubmittedOf(init, final, 0);
        assert Submitted(log) == Submitted(init) + [Label(final)] == [Label(final)];
      } else {
        SubmittedOf(init, final, n);
        assert Submitted(log) == Submitted(init) + [] == Submitted(init);
      }
    }
  }

  /** One finished Run: its configuration, the sections it was interleaved with, and what it returned. */
  datatype Finished = Finished(includeAcct: bool, steps: seq<Subscriber.Step>, final: State)

  ghost predicate Returns(r: Finished) {
    Subscriber.Exec(Subscriber.Start(r.includeAcct), r.steps).pc == Subscriber.Returned(r.final)
  }

  function LogOf(r: Finished): seq<Subscriber.Record> {
    Subscriber.Exec(Subscriber.Start(r.includeAcct), r.steps).log
  }

  /**
   The stream holds the terminal events of the given Runs, each subscriber's in the order it submitted
   them, anything else in between; nobody else has any.
   */
  ghost predicate Carries(es: seq<Event>, runs: map<nat, Finished>) {
    forall k: nat :: Endings(es, k) == if k in runs then Submitted(LogOf(runs[k])) else []
  }

  function Ended(runs: map<nat, Finished>, s: State): set<nat> {
    set k | k in runs && runs[k].final == s
  }

  lemma RunEndsOnce(r: Finished)
    requires Returns(r)
    ensures Submitted(LogOf(r)) == [Label(r.final)]
  {
    Subscriber.RunReturnsItsVerdict(r.includeAcct, r.steps, r.final);
    SubmittedOf(LogOf(r), r.final, 1);
  }

  /** Each subscriber's terminal state is what its Run returned. */
  ghost predicate Matches(t: map<nat, string>, runs: map<nat, Finished>) {
    forall k: nat :: (k in t <==> k in runs) && (k in runs ==> t[k] == Label(runs[k].final))
  }

  lemma TerminalIsVerdict(es: seq<Event>, runs: map<nat, Finished>)
    requires Carries(es, runs) && forall k :: k in runs ==> Returns(runs[k])
    ensures Matches(Fold(es).terminal, runs)
  {
    var t := Fold(es).terminal;
    forall k: nat ensures (k in t <==> k in runs) && (k in runs ==> t[k] == Label(runs[k].final)) {
      FoldKeepsLastEnding(es, k);
      if k in runs { RunEndsOnce(runs[k]); }
    }
  }

  lemma LabelsDiffer(a: State, b: State)
    requires Label(a) == Label(b)
    ensures a == b
  {
    assert |"idle"| == 4 && |"auth_sent"| == 9 && |"auth_retry"| == 10 && |AUTH_FAILED| == 11;
  }

  lemma HoldersAreEnded(t: map<nat, string>, runs: map<nat, Finished>, s: State)
    requires Matches(t, runs)
    ensures Holders(t, Label(s)) == Ended(runs, s)
  {
    forall k: nat ensures k in Holders(t, Label(s)) <==> k in Ended(runs, s) {
      if k in runs && Label(runs[k].final) == Label(s) { LabelsDiffer(runs[k].final, s); }
    }
  }

  lemma NobodyEndsTerminated(runs: map<nat, Finished>)
    requires forall k :: k in runs ==> Returns(runs[k])
    ensures Ended(runs, Subscriber.Terminated) == {}
  {
    forall k | k in runs ensures runs[k].final != Subscriber.Terminated {
      Subscriber.RunReturnsItsVerdict(runs[k].includeAcct, runs[k].steps, runs[k].final);
    }
  }

  lemma VerdictCounts(t: map<nat, string>, runs: map<nat, Finished>)
    requires Matches(t, runs) && Ended(runs, Subscriber.Terminated) == {}
    ensures |t| == |runs|
    ensures |Holders(t, ESTABLISHED)| == |Ended(runs, Subscriber.Established)|
    ensures |Holders(t, AUTH_FAILED)| == |Ended(runs, Subscriber.AuthFailed)|
    ensures |Holders(t, ACCT_FAILED)| == |Ended(runs, Subscriber.AcctFailed)|
    ensures |Holders(t, TERMINATED)| == 0
  {
    HoldersAreEnded(t, runs, Subscriber.Established);
    HoldersAreEnded(t, runs, Subscriber.AuthFailed);
    HoldersAreEnded(t, runs, Subscriber.AcctFailed);
    HoldersAreEnded(t, runs, Subscriber.Terminated);
    assert t.Keys == runs.Keys;
  }

  /**
   End to end: however the subscribers' Runs are interleaved with CoA and Disconnect requests and with
   each other, and over any number of shards, the summary counts each Run under the state it returned,
   none as terminated, and everyone else it has a row for as still in flight.
   */
  lemma SummaryCountsVerdicts(es: seq<Event>, runs: map<nat, Finished>, n: nat, bucketMs: int)
    requires n > 0 && Carries(es, runs) && forall k :: k in runs ==> Returns(runs[k])
    ensures var s := SummaryOf(Sharded(es, n), bucketMs);
            && s.established == |Ended(runs, Subscriber.Established)|
            && s.authFailed == |Ended(runs, Subscriber.AuthFailed)|
            && s.acctFailed == |Ended(runs, Subscriber.AcctFailed)|
            && s.terminated == 0
            && s.total == |runs| + s.stillInFlight
  {
    SubscribersAddUp(es, n, bucketMs);
    TerminalIsVerdict(es, runs);
    NobodyEndsTerminated(runs);
    VerdictCounts(Fold(es).terminal, runs);
  }

  // ---- Terminated subscribers ----

  ghost function StateOf(r: Finished): State {
    Subscriber.Exec(Subscriber.Start(r.includeAcct), r.steps).state
  }

  /** Those whose state is `terminated` once everything has happened. */
  ghost function LeftTerminated(runs: map<nat, Finished>): set<nat> {
    set k | k in runs && StateOf(runs[k]) == Subscriber.Terminated
  }

  /** A disconnect took its lock after the last state write of the Run. */
  ghost predicate CutAfterEnding(r: Finished) {
    exists e: nat :: Subscriber.EndingWrite(r.includeAcct, r.steps, e) && Subscriber.LockedAfter(r.steps, e)
  }

  ghost function CutLate(runs: map<nat, Finished>): set<nat> {
    set k | k in runs && CutAfterEnding(runs[k])
  }

  lemma LeftTerminatedExactly(r: Finished)
    requires Returns(r)
    ensures StateOf(r) == Subscriber.Terminated <==> CutAfterEnding(r)
    ensures StateOf(r) != Subscriber.Terminated ==> StateOf(r) == r.final
  {
    Subscriber.OverwrittenUnlessLater(r.includeAcct, r.steps, r.final);
  }

  lemma LeftAreCutLate(runs: map<nat, Finished>)
    requires forall k :: k in runs ==> Returns(runs[k])
    ensures LeftTerminated(runs) == CutLate(runs)
  {
    forall k | k in runs ensures StateOf(runs[k]) == Subscriber.Terminated <==> CutAfterEnding(runs[k]) {
      LeftTerminatedExactly(runs[k]);
    }
  }

  lemma NoneCut(runs: map<nat, Finished>)
    ensures |CutLate(runs)| == 0 <==> forall k :: k in runs ==> !CutAfterEnding(runs[k])
  {
    if CutLate(runs) == {} {
      assert forall k :: k in runs && CutAfterEnding(runs[k]) ==> k in CutLate(runs);
    } else {
      var k :| k in CutLate(runs);
    }
  }

  /**
   The summary's terminated count misses every subscriber that a disconnect left terminated, which are those cut
   after the last state write of their Run; so it is right if and only if no disconnect came so late.
   */
  lemma TerminatedCountExactly(es: seq<Event>, runs: map<nat, Finished>, n: nat, bucketMs: int)
    requires n > 0 && Carries(es, runs) && forall k :: k in runs ==> Returns(runs[k])
    ensures var counted := SummaryOf(Sharded(es, n), bucketMs).terminated;
            && |LeftTerminated(runs)| - counted == |CutLate(runs)|
            && (counted == |LeftTerminated(runs)| <==> forall k :: k in runs ==> !CutAfterEnding(runs[k]))
  {
    SummaryCountsVerdicts(es, runs, n, bucketMs);
    LeftAreCutLate(runs);
    NoneCut(runs);
  }

  lemma OneEnding(e: Event, j: nat)
    ensures Endings([e], j) == if Is(e, Ending, j) then [e.state] else []
  {
    assert [e][..0] == [] && Endings([e][..0], j) == [];
  }

  function TerminalOf(k: nat, r: Finished, offsetMs: int): Event {
    Event(k, SubscriberLifecycle, SubscriberTerminal, offsetMs, Label(r.final), 0, 0)
  }

  lemma CarriesOne(k: nat, r: Finished, offsetMs: int)
    requires Returns(r)
    ensures Carries([TerminalOf(k, r, offsetMs)], map[k := r])
  {
    RunEndsOnce(r);
    forall j: nat ensures Endings([TerminalOf(k, r, offsetMs)], j) == if j == k then [Label(r.final)] else [] {
      OneEnding(TerminalOf(k, r, offsetMs), j);
    }
  }

  lemma OneCounted(es: seq<Event>, runs: map<nat, Finished>, k: nat, n: nat, bucketMs: int)
    requires n > 0 && Carries(es, runs) && forall j :: j in runs ==> Returns(runs[j])
    requires runs.Keys == {k} && runs[k].final == Subscriber.Established
    ensures var s := SummaryOf(Sharded(es, n), bucketMs); s.terminated == 0 && s.established == 1
  {
    SummaryCountsVerdicts(es, runs, n, bucketMs);
    OneEstablished(runs, k);
  }

  lemma OneEstablished(runs: map<nat, Finished>, k: nat)
    requires runs.Keys == {k} && runs[k].final == Subscriber.Established
    ensures |Ended(runs, Subscriber.Established)| == 1
  {
    assert Ended(runs, Subscriber.Established) == {k};
  }

  const CUT_AFTER := Finished(false, Subscriber.EstablishedThenCut(), Subscriber.Established)

  /** One subscriber, established and then disconnected: left terminated, and counted as established. */
  lemma DisconnectedCountsAsEstablished(k: nat, offsetMs: int, n: nat, bucketMs: int)
    requires n > 0
    ensures var runs, es := map[k := CUT_AFTER], [TerminalOf(k, CUT_AFTER, offsetMs)];
            var s := SummaryOf(Sharded(es, n), bucketMs);
            && Returns(CUT_AFTER) && Carries(es, runs) && LeftTerminated(runs) == {k}
            && s.terminated == 0 && s.established == 1
  {
    Subscriber.CutAfterReturn();
    CarriesOne(k, CUT_AFTER, offsetMs);
    LeftAlone(k, CUT_AFTER);
    OneCounted([TerminalOf(k, CUT_AFTER, offsetMs)], map[k := CUT_AFTER], k, n, bucketMs);
  }

  lemma LeftAlone(k: nat, r: Finished)
    requires StateOf(r) == Subscriber.Terminated
    ensures LeftTerminated(map[k := r]) == {k}
  {
  }
}
