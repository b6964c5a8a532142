/**
 One Send by itself (pkg/io/sender.go, pkg/io/io.go, pkg/io/socketpool.go): the scan over the sockets, the
 retry loop on the real allocator and matcher, and how long it waits. What other threads do meanwhile is in
 RequestEngine.
 */
module Sender {
  import opened Wrappers
  import opened Bytes
  import opened IdAllocator
  import Matcher
  import Bits

  // ---- Timeouts ----

  datatype Backoff = Constant | Linear | Exponential

  datatype Policy = Policy(initialTimeout: int, maxRetries: int, backoff: Backoff, base: int)

  const DEFAULT_INITIAL_TIMEOUT: int := 5_000_000_000
  const TWO_63: int := 0x8000_0000_0000_0000

  /** Two's-complement int64, as time.Duration arithmetic wraps. */
  function Int64(x: int): (r: int)
    ensures -TWO_63 <= r < TWO_63
    ensures -TWO_63 <= x < TWO_63 ==> r == x
  {
    (x + TWO_63) % (2 * TWO_63) - TWO_63
  }

  /** The timeout of attempt n. */
  function TimeoutFor(p: Policy, n: nat): int {
    if n == 0 then p.initialTimeout
    else
      match p.backoff
      case Linear => Int64(p.base * n)
      case Exponential => Int64(p.base * Int64(Bits.Pow2(n - 1)))
      case Constant => p.base
  }

  /** Engine.Send's default for the initial timeout, and runSend's for all the others. */
  function Initial(p: Policy): int {
    if p.initialTimeout <= 0 then DEFAULT_INITIAL_TIMEOUT else p.initialTimeout
  }

  function Wait(p: Policy, n: nat): int {
    var timeout := TimeoutFor(p.(initialTimeout := Initial(p)), n);
    if timeout <= 0 then Initial(p) else timeout
  }

  /** A positive initial timeout is used, five seconds otherwise, also for every retransmit without a positive one. */
  lemma WaitsByDefault(p: Policy, n: nat)
    ensures Wait(p, 0) == if p.initialTimeout > 0 then p.initialTimeout else 5_000_000_000
    ensures Wait(p, n) > 0
    ensures n > 0 && p.base <= 0 && p.backoff == Constant ==> Wait(p, n) == Wait(p, 0)
  {
  }

  function TotalWait(p: Policy, attempts: nat): int {
    if attempts == 0 then 0 else TotalWait(p, attempts - 1) + Wait(p, attempts - 1)
  }

  function MaxAttempts(p: Policy): nat {
    if p.maxRetries + 1 < 1 then 1 else p.maxRetries + 1
  }

  /** The largest product that the backoff curve forms for `retries` retransmits. */
  function LargestStep(p: Policy, retries: nat): int {
    if retries == 0 then 0
    else
      match p.backoff
      case Linear => p.base * retries
      case Exponential => p.base * Bits.Pow2(retries - 1)
      case Constant => p.base
  }

  lemma StepsGrow(p: Policy, retries: nat)
    requires retries > 0 && p.base > 0
    ensures 0 < LargestStep(p, retries)
    ensures retries > 1 ==> LargestStep(p, retries - 1) <= LargestStep(p, retries)
  {
    match p.backoff
    case Constant =>
    case Linear => assert p.base * retries == p.base * (retries - 1) + p.base;
    case Exponential =>
      if retries > 1 { Doubles(p.base, retries - 1); }
  }

  lemma Doubles(b: int, n: nat)
    requires n > 0
    ensures b * Bits.Pow2(n) == b * Bits.Pow2(n - 1) + b * Bits.Pow2(n - 1)
  {
    assert Bits.Pow2(n) == Bits.Pow2(n - 1) + Bits.Pow2(n - 1);
  }

  /** The sum of the first `retries` backoffs. */
  function Sum(p: Policy, retries: nat): int {
    match p.backoff
    case Constant => retries * p.base
    case Linear => p.base * Triangle(retries)
    case Exponential => p.base * (Bits.Pow2(retries) - 1)
  }

  /** 1 + 2 + ... + n. */
  function Triangle(n: nat): nat {
    n * (n + 1) / 2
  }

  lemma TriangleStep(n: nat)
    requires n > 0
    ensures Triangle(n) == Triangle(n - 1) + n
  {
    assert n * (n + 1) == (n - 1) * n + 2 * n;
  }

  lemma SumStep(p: Policy, retries: nat)
    requires retries > 0
    ensures Sum(p, retries) == Sum(p, retries - 1) + LargestStep(p, retries)
  {
    match p.backoff
    case Constant =>
      assert retries * p.base == (retries - 1) * p.base + p.base;
    case Linear =>
      TriangleStep(retries);
      assert p.base * (Triangle(retries - 1) + retries) == p.base * Triangle(retries - 1) + p.base * retries;
    case Exponential =>
      Doubles(p.base, retries);
      assert p.base * (Bits.Pow2(retries) - 1) == p.base * Bits.Pow2(retries) - p.base;
      assert p.base * (Bits.Pow2(retries - 1) - 1) == p.base * Bits.Pow2(retries - 1) - p.base;
  }

  /** While the product fits, the wait of a retransmit is the product. */
  lemma RetransmitWait(p: Policy, n: nat)
    requires n > 0 && p.base > 0 && LargestStep(p, n) < TWO_63
    ensures Wait(p, n) == LargestStep(p, n)
  {
    StepsGrow(p, n);
    if p.backoff == Exponential {
      FactorBound(p.base, Bits.Pow2(n - 1));
    }
  }

  lemma FactorBound(b: int, x: nat)
    requires b > 0
    ensures x <= b * x
  {
    assert (b - 1) * x >= 0;
  }

  /** Initial timeout plus R*B, B*R(R+1)/2 or B*(2^R - 1), the products permitting. */
  lemma {:induction false} TotalWaitClosedForm(p: Policy, retries: nat)
    requires p.base > 0 && LargestStep(p, retries) < TWO_63
    ensures TotalWait(p, retries + 1)
            == (if p.initialTimeout > 0 then p.initialTimeout else 5_000_000_000) + Sum(p, retries)
  {
    if retries == 0 {
      assert TotalWait(p, 1) == TotalWait(p, 0) + Wait(p, 0);
      assert p.base * 0 == 0;
    } else {
      StepsGrow(p, retries);
      TotalWaitClosedForm(p, retries - 1);
      RetransmitWait(p, retries);
      SumStep(p, retries);
    }
  }

  // ---- The scan over the sockets ----

  function Abs(i: int): nat {
    if i < 0 then -i else i
  }

  predicate IsInt64(i: int) {
    -TWO_63 <= i < TWO_63
  }

  /** The remainder of a quotient truncated towards zero. */
  function Truncated(a: int, n: nat): int
    requires n > 0
  {
    if a >= 0 then a % n else -((-a) % n)
  }

  /** SocketPool.PickAt: the socket at index i, or None where the slice index is out of range. */
  function PickAt(i: int, n: nat): (pick: Option<nat>)
    requires n > 0 && IsInt64(i)
    ensures pick.Some? ==> pick.value < n
  {
    var r := Truncated(if i < 0 then Int64(-i) else i, n);
    if 0 <= r < n then Some(r) else None
  }

  /** The smallest integer has no opposite: there the pick fails, unless 2^63 is a multiple of n. */
  predicate OffTheEnd(i: int, n: nat)
    requires n > 0
  {
    i == -TWO_63 && TWO_63 % n != 0
  }

  lemma PickAtExactly(i: int, n: nat)
    requires n > 0 && IsInt64(i)
    ensures PickAt(i, n) == if OffTheEnd(i, n) then None else Some(Abs(i) % n)
  {
  }

  /** Pick i of a pass lands on socket j. The running index wraps as a 64-bit integer. */
  predicate Lands(start: int, n: nat, i: nat, j: nat)
    requires n > 0
  {
    i < n && PickAt(Int64(start + i), n) == Some(j)
  }

  ghost predicate Met(start: int, n: nat, j: nat)
    requires n > 0
  {
    exists i: nat :: Lands(start, n, i, j)
  }

  ghost predicate Covers(start: int, n: nat)
    requires n > 0
  {
    forall j: nat :: j < n ==> Met(start, n, j)
  }

  lemma ModShift(a: nat, b: nat, n: nat)
    requires n > 0 && b < n
    ensures (a + b) % n == if a % n + b < n then a % n + b else a % n + b - n
  {
    var q, r := a / n, a % n;
    assert a == q * n + r;
    if r + b < n {
      ModUnique(a + b, q, r + b, n);
    } else {
      assert a + b == (q + 1) * n + (r + b - n);
      ModUnique(a + b, q + 1, r + b - n, n);
    }
  }

  lemma ModUnique(x: nat, q: nat, r: nat, n: nat)
    requires n > 0 && r < n && x == q * n + r
    ensures x % n == r
  {
    var d := x / n - q;
    assert d * n == r - x % n by { assert x == (x / n) * n + x % n; }
    MultipleInRange(d, n);
  }

  lemma MultipleInRange(d: int, n: nat)
    requires -(n as int) < d * n < n
    ensures d == 0
  {
  }

  /** The number among low, low + 1, ..., low + n - 1 that leaves remainder j. */
  function Meets(low: nat, n: nat, j: nat): (i: nat)
    requires j < n
    ensures i < n && (low + i) % n == j
  {
    var r := low % n;
    var i := if j >= r then j - r else j + n - r;
    ModShift(low, i, n);
    i
  }

  /** Fewer than n consecutive numbers leave some remainder out. */
  lemma RemainderMissed(low: nat, x: nat, n: nat)
    requires n > 0 && low <= x < low + n - 1
    ensures x % n != (low + n - 1) % n
  {
    var b := low + n - 1 - x;
    ModShift(x, b, n);
  }

  /**
   When a pass of n picks from `start` meets every socket. The running index may not pass zero
   upwards, where PickAt mirrors it, nor wrap; and the two ends, where 2^63 appears as its own
   opposite, are reached safely only if 2^63 is a multiple of n.
   */
  predicate Straight(start: int, n: nat)
    requires n > 0
  {
    var last := start + n - 1;
    if start >= 0 then last < TWO_63 || (last == TWO_63 && TWO_63 % n == 0)
    else last <= 0 && (start > -TWO_63 || TWO_63 % n == 0)
  }

  /** On a straight pass the picks are consecutive numbers modulo n, upwards or downwards. */
  lemma StraightPick(start: int, n: nat, i: nat)
    requires 0 < n < TWO_63 && IsInt64(start) && Straight(start, n) && i < n
    ensures PickAt(Int64(start + i), n) == Some(Abs(start + i) % n)
  {
    PickAtExactly(Int64(start + i), n);
    if start + i == TWO_63 { Int64Wraps(start + i); }
  }

  lemma Int64Wraps(x: int)
    requires TWO_63 <= x < 3 * TWO_63
    ensures Int64(x) == x - 2 * TWO_63
  {
  }

  /** On any other pass the picks that succeed come from fewer than n consecutive numbers. */
  lemma CrookedPick(start: int, n: nat, i: nat) returns (low: nat)
    requires 0 < n < TWO_63 && IsInt64(start) && !Straight(start, n) && i < n
    ensures low == Lowest(start, n)
    ensures var at := Int64(start + i); OffTheEnd(at, n) || low <= Abs(at) < low + n - 1
  {
    low := Lowest(start, n);
    if start + i >= TWO_63 { Int64Wraps(start + i); }
  }

  function Lowest(start: int, n: nat): nat
    requires 0 < n < TWO_63 && IsInt64(start)
  {
    var last := start + n - 1;
    if start >= 0 then
      if last <= TWO_63 || start <= 2 * TWO_63 - last then start else 2 * TWO_63 - last
    else if last <= 0 then -last
    else 0
  }

  /** A pass tries every socket if and only if it is straight. */
  lemma PassCoversExactly(start: int, n: nat)
    requires 0 < n < TWO_63 && IsInt64(start)
    ensures Covers(start, n) <==> Straight(start, n)
  {
    if Straight(start, n) {
      forall j: nat | j < n ensures Met(start, n, j) {
        var i := if start >= 0 then Meets(start, n, j) else n - 1 - Meets(-(start + n - 1), n, j);
        StraightPick(start, n, i);
        assert Lands(start, n, i, j);
      }
    } else {
      var missed := (Lowest(start, n) + n - 1) % n;
      forall i: nat | i < n ensures !Lands(start, n, i, missed) {
        var low := CrookedPick(start, n, i);
        PickAtExactly(Int64(start + i), n);
        if !OffTheEnd(Int64(start + i), n) { RemainderMissed(low, Abs(Int64(start + i)), n); }
      }
      assert !Met(start, n, missed);
    }
  }

  /** The counter behind the start indexes begins at 0: the passes of the first 2^63 - n picks meet every socket. */
  lemma EarlyPassesCover(count: nat, n: nat)
    requires 0 < n < TWO_63 && count + n <= TWO_63
    ensures Int64(count) == count && Covers(Int64(count), n)
  {
    PassCoversExactly(count, n);
  }

  /** The pass that starts at pick 2^63 - 1 does not, with three sockets or more. */
  lemma LatePassMisses(n: nat)
    requires 3 <= n < TWO_63
    ensures !Covers(TWO_63 - 1, n)
  {
    PassCoversExactly(TWO_63 - 1, n);
  }

  /** A pass that meets every socket meets each once, and none of its picks fails. */
  lemma CoversOnce(start: int, n: nat, i: nat, k: nat)
    requires 0 < n < TWO_63 && IsInt64(start) && Covers(start, n) && i < n && k < n
    ensures PickAt(Int64(start + i), n).Some?
    ensures PickAt(Int64(start + i), n) == PickAt(Int64(start + k), n) ==> i == k
  {
    PassCoversExactly(start, n);
    StraightPick(start, n, i);
    StraightPick(start, n, k);
    var x, y := Abs(start + i), Abs(start + k);
    if x < y { ModShift(x, y - x, n); }
    if y < x { ModShift(y, x - y, n); }
  }

  /** The tuples of one pass, in the order in which they are tried; None where the pick fails. */
  function Pass(sockets: seq<string>, dst: string, start: int): (r: seq<Option<Tuple>>)
    ensures |r| == |sockets|
  {
    seq(|sockets|, i requires 0 <= i < |sockets| => TupleAt(sockets, dst, start, i))
  }

  function TupleAt(sockets: seq<string>, dst: string, start: int, i: nat): Option<Tuple>
    requires i < |sockets|
  {
    match PickAt(Int64(start + i), |sockets|)
    case None => None
    case Some(j) => Some(Tuple(sockets[j], dst))
  }

  predicate Full(s: IdState) {
    |s.held| == 256
  }

  predicate AllInt64(starts: seq<int>) {
    forall k :: 0 <= k < |starts| ==> IsInt64(starts[k])
  }

  /** How a pass ends: with an Identifier, with none to be had, or at an index outside the slice. */
  datatype Scan = Took(tuple: Tuple, id: byte) | NoneFree | OutOfRange

  ghost predicate AllFull(model: map<Tuple, IdState>, pass: seq<Option<Tuple>>, n: nat) {
    forall j :: 0 <= j < n && j < |pass| ==> pass[j].Some? && Full(At(model, pass[j].value))
  }

  lemma OneMoreFull(model: map<Tuple, IdState>, pass: seq<Option<Tuple>>, n: nat)
    requires n < |pass| && AllFull(model, pass, n) && pass[n].Some? && Full(At(model, pass[n].value))
    ensures AllFull(model, pass, n + 1)
  {
  }

  /** What a pass that got as far as `tries` found and did. */
  ghost predicate Scanned(
    before: map<Tuple, IdState>, after: map<Tuple, IdState>, pass: seq<Option<Tuple>>, r: Scan, tries: nat)
  {
    && tries <= |pass| && AllFull(before, pass, tries)
    && (r.NoneFree? <==> tries == |pass|)
    && (r.OutOfRange? <==> tries < |pass| && pass[tries].None?)
    && (r.Took? ==> pass[tries] == Some(r.tuple) && Picks(At(before, r.tuple), r.id)
                    && after == before[r.tuple := Take(At(before, r.tuple), r.id)])
    && (!r.Took? ==> after == before)
  }

  /**
   One pass of allocateOnAnyTuple: the first socket in round-robin order with an Identifier to give,
   after `tries` that had none.
   */
  method TryAllSockets(alloc: IDAllocator, sockets: seq<string>, dst: string, start: int)
    returns (r: Scan, tries: nat)
    requires alloc.Valid() && IsInt64(start)
    modifies alloc.Repr
    ensures alloc.Valid() && fresh(alloc.Repr - old(alloc.Repr))
    ensures Scanned(old(alloc.model), alloc.model, Pass(sockets, dst, start), r, tries)
  {
    r, tries := ScanSockets(alloc, sockets, dst, start, Pass(sockets, dst, start));
  }

  method ScanSockets(alloc: IDAllocator, sockets: seq<string>, dst: string, start: int, ghost pass: seq<Option<Tuple>>)
    returns (r: Scan, tries: nat)
    requires alloc.Valid() && |pass| == |sockets|
    requires forall i :: 0 <= i < |sockets| ==> pass[i] == TupleAt(sockets, dst, start, i)
    modifies alloc.Repr
    ensures alloc.Valid() && fresh(alloc.Repr - old(alloc.Repr))
    ensures Scanned(old(alloc.model), alloc.model, pass, r, tries)
  {
    tries := 0;
    ghost var before := alloc.model;
    while tries < |sockets|
      invariant tries <= |sockets|
      invariant alloc.Valid() && fresh(alloc.Repr - old(alloc.Repr)) && alloc.model == before
      invariant AllFull(before, pass, tries)
    {
      var tuple := TupleAt(sockets, dst, start, tries);
      if tuple.None? {
        return OutOfRange, tries;
      }
      var id := alloc.Allocate(tuple.value);
      if id.Some? {
        return Took(tuple.value, id.value), tries;
      }
      OneMoreFull(before, pass, tries);
      tries := tries + 1;
    }
    return NoneFree, tries;
  }

  /**
   The whole of allocateOnAnyTuple: pass after pass, each from a start index of its own, until one ends
   other than empty-handed or the deadline or the context stops it. `starts` are the passes made by then.
   */
  method AllocateOnAnyTuple(alloc: IDAllocator, sockets: seq<string>, dst: string, starts: seq<int>)
    returns (r: Scan, passes: nat, tries: nat)
    requires alloc.Valid() && AllInt64(starts)
    modifies alloc.Repr
    ensures alloc.Valid() && fresh(alloc.Repr - old(alloc.Repr))
    ensures passes <= |starts| && (r.NoneFree? <==> passes == |starts|)
    ensures forall k :: 0 <= k < passes ==> AllFull(old(alloc.model), Pass(sockets, dst, starts[k]), |sockets|)
    ensures if r.NoneFree? then alloc.model == old(alloc.model)
            else Scanned(old(alloc.model), alloc.model, Pass(sockets, dst, starts[passes]), r, tries)
  {
    r, passes, tries := NoneFree, 0, 0;
    ghost var before := alloc.model;
    while passes < |starts|
      invariant passes <= |starts| && r == NoneFree
      invariant alloc.Valid() && fresh(alloc.Repr - old(alloc.Repr)) && alloc.model == before
      invariant forall k :: 0 <= k < passes ==> AllFull(before, Pass(sockets, dst, starts[k]), |sockets|)
    {
      r, tries := TryAllSockets(alloc, sockets, dst, starts[passes]);
      if r != NoneFree {
        return;
      }
      passes := passes + 1;
    }
  }

  ghost predicate SameHeld(a: map<Tuple, IdState>, b: map<Tuple, IdState>) {
    forall t: Tuple :: At(a, t).held == At(b, t).held
  }

  // ---- How a scan ends, as a function of what is held ----

  /** Some socket had an Identifier, none had before the scan was given up, or an index fell outside the slice. */
  datatype ScanEnd = Finds | GivesUp | Overruns

  function EndOf(r: Scan): ScanEnd {
    match r
    case Took(_, _) => Finds
    case NoneFree => GivesUp
    case OutOfRange => Overruns
  }

  /** The pass from its i-th pick on. */
  function PassEnd(model: map<Tuple, IdState>, pass: seq<Option<Tuple>>, i: nat): ScanEnd
    requires i <= |pass|
    decreases |pass| - i
  {
    if i == |pass| then GivesUp
    else if pass[i].None? then Overruns
    else if Full(At(model, pass[i].value)) then PassEnd(model, pass, i + 1)
    else Finds
  }

  /** The scan from its k-th pass on. */
  function ScanEnds(model: map<Tuple, IdState>, sockets: seq<string>, dst: string, starts: seq<int>, k: nat): ScanEnd
    requires k <= |starts| && AllInt64(starts)
    decreases |starts| - k
  {
    if k == |starts| then GivesUp
    else
      match PassEnd(model, Pass(sockets, dst, starts[k]), 0)
      case GivesUp => ScanEnds(model, sockets, dst, starts, k + 1)
      case end => end
  }

  lemma {:induction false} FullUpTo(model: map<Tuple, IdState>, pass: seq<Option<Tuple>>, i: nat, n: nat)
    requires i <= n <= |pass| && AllFull(model, pass, n)
    ensures PassEnd(model, pass, i) == PassEnd(model, pass, n)
    decreases n - i
  {
    if i < n { FullUpTo(model, pass, i + 1, n); }
  }

  lemma PickedIsNotFull(s: IdState, id: byte)
    requires id !in s.held
    ensures !Full(s)
  {
    FullExactly(s.held);
  }

  lemma ScannedEnds(
      before: map<Tuple, IdState>, after: map<Tuple, IdState>, pass: seq<Option<Tuple>>, r: Scan, tries: nat)
    requires Scanned(before, after, pass, r, tries)
    ensures PassEnd(before, pass, 0) == EndOf(r)
  {
    FullUpTo(before, pass, 0, tries);
    if r.Took? { PickedIsNotFull(At(before, r.tuple), r.id); }
  }

  lemma {:induction false} BlockedUpTo(
      model: map<Tuple, IdState>, sockets: seq<string>, dst: string, starts: seq<int>, k: nat, n: nat)
    requires k <= n <= |starts| && AllInt64(starts)
    requires forall i :: 0 <= i < n ==> AllFull(model, Pass(sockets, dst, starts[i]), |sockets|)
    ensures ScanEnds(model, sockets, dst, starts, k) == ScanEnds(model, sockets, dst, starts, n)
    decreases n - k
  {
    if k < n {
      FullUpTo(model, Pass(sockets, dst, starts[k]), 0, |sockets|);
      BlockedUpTo(model, sockets, dst, starts, k + 1, n);
    }
  }

  lemma {:induction false} SameHeldSamePass(
      a: map<Tuple, IdState>, b: map<Tuple, IdState>, pass: seq<Option<Tuple>>, i: nat)
    requires SameHeld(a, b) && i <= |pass|
    ensures PassEnd(a, pass, i) == PassEnd(b, pass, i)
    decreases |pass| - i
  {
    if i < |pass| { SameHeldSamePass(a, b, pass, i + 1); }
  }

  lemma {:induction false} SameHeldSameEnd(
      a: map<Tuple, IdState>, b: map<Tuple, IdState>, sockets: seq<string>, dst: string, starts: seq<int>, k: nat)
    requires SameHeld(a, b) && k <= |starts| && AllInt64(starts)
    ensures ScanEnds(a, sockets, dst, starts, k) == ScanEnds(b, sockets, dst, starts, k)
    decreases |starts| - k
  {
    if k < |starts| {
      SameHeldSamePass(a, b, Pass(sockets, dst, starts[k]), 0);
      SameHeldSameEnd(a, b, sockets, dst, starts, k + 1);
    }
  }

  // ---- The retry loop ----

  /** What happens to one attempt that got an Identifier. */
  datatype Fate = BuildFails | WriteFails | ContextEnds | ReplyArrives(now: int, gcAt: int) | TimerFires

  /**
   What one turn of the loop is given: where its first pass starts and those made after a backoff, whether
   the context or the deadline ends a scan that finds nothing, its authenticator and its fate.
   */
  datatype Turn = Turn(first: int, more: seq<int>, contextEndsScan: bool, auth: Digest, fate: Fate)
  {
    function Starts(): seq<int> {
      [first] + more
    }
  }

  datatype SendOutcome =
    | Replied(retransmitN: nat)
    | FinalTimeout
    | Failed(attempt: nat, fate: Fate)
    | IdentifierExhausted(attempt: nat)
    | ScanCancelled(attempt: nat)
    | Panicked(attempt: nat)

  /** Attempts whose timeout ran out before a Send ended so. */
  function TimedOut(o: SendOutcome, max: nat): nat {
    match o
    case Replied(n) => n
    case FinalTimeout => max
    case _ => o.attempt
  }

  /** Attempts that went on the wire. */
  function OnWireBy(o: SendOutcome, max: nat): nat {
    match o
    case Replied(n) => n + 1
    case FinalTimeout => max
    case Failed(a, fate) => if OnWire(fate) then a + 1 else a
    case _ => o.attempt
  }

  predicate AllTurnsInt64(turns: seq<Turn>) {
    forall i :: 0 <= i < |turns| ==> AllInt64(turns[i].Starts())
  }

  function EndOfTurn(model: map<Tuple, IdState>, sockets: seq<string>, dst: string, turn: Turn): ScanEnd
    requires AllInt64(turn.Starts())
  {
    ScanEnds(model, sockets, dst, turn.Starts(), 0)
  }

  /** What attempt n ends its Send with, if it does. */
  function OutcomeOf(end: ScanEnd, turn: Turn, n: nat): Option<SendOutcome> {
    match end
    case Overruns => Some(Panicked(n))
    case GivesUp => Some(if turn.contextEndsScan then ScanCancelled(n) else IdentifierExhausted(n))
    case Finds =>
      match turn.fate
      case TimerFires => None
      case ReplyArrives(_, _) => Some(Replied(n))
      case fate => Some(Failed(n, fate))
  }

  /** How a Send ends that is at attempt n, with these Identifiers held by others. */
  function Ending(model: map<Tuple, IdState>, sockets: seq<string>, dst: string, turns: seq<Turn>, n: nat): SendOutcome
    requires n <= |turns| && AllTurnsInt64(turns)
    decreases |turns| - n
  {
    if n == |turns| then FinalTimeout
    else
      match OutcomeOf(EndOfTurn(model, sockets, dst, turns[n]), turns[n], n)
      case Some(o) => o
      case None => Ending(model, sockets, dst, turns, n + 1)
  }

  /** Attempt i gets an Identifier and its timer runs out. */
  predicate RunsOut(model: map<Tuple, IdState>, sockets: seq<string>, dst: string, turn: Turn)
    requires AllInt64(turn.Starts())
  {
    EndOfTurn(model, sockets, dst, turn) == Finds && turn.fate == TimerFires
  }

  /** A Send ends at its first attempt that does anything but run out of time, and in a final timeout if none does. */
  lemma {:induction false} EndingIsFirst(
      model: map<Tuple, IdState>, sockets: seq<string>, dst: string, turns: seq<Turn>, n: nat, k: nat)
    requires n <= k <= |turns| && AllTurnsInt64(turns)
    requires forall i :: n <= i < k ==> RunsOut(model, sockets, dst, turns[i])
    requires k < |turns| ==> !RunsOut(model, sockets, dst, turns[k])
    ensures var o := Ending(model, sockets, dst, turns, n);
            && TimedOut(o, |turns|) == k && (o == FinalTimeout <==> k == |turns|)
            && (k < |turns| ==>
                  var end := EndOfTurn(model, sockets, dst, turns[k]);
                  && (o.Replied? <==> end == Finds && turns[k].fate.ReplyArrives?)
                  && (o.Failed? <==> end == Finds && !turns[k].fate.ReplyArrives?)
                  && (o.Failed? ==> o.fate == turns[k].fate)
                  && (o.IdentifierExhausted? <==> end == GivesUp && !turns[k].contextEndsScan)
                  && (o.ScanCancelled? <==> end == GivesUp && turns[k].contextEndsScan)
                  && (o.Panicked? <==> end == Overruns))
    decreases k - n
  {
    if n < k { EndingIsFirst(model, sockets, dst, turns, n + 1, k); }
  }

  function Numbers(n: nat): seq<nat> {
    seq(n, i => i)
  }

  predicate OnWire(f: Fate) {
    f != BuildFails && f != WriteFails
  }

  /** Nothing is pending that was not pending before. */
  ghost predicate NothingLeft(after: map<Matcher.Key, Matcher.Inflight>, before: map<Matcher.Key, Matcher.Inflight>) {
    forall k :: k in after ==> k in before && after[k] == before[k]
  }

  /** The end of an attempt: whatever was done with it, the Identifier goes back. */
  method GiveBack(alloc: IDAllocator, ghost before: map<Tuple, IdState>, tuple: Tuple, id: byte)
    requires alloc.Valid() && id !in At(before, tuple).held
    requires alloc.model == before[tuple := Take(At(before, tuple), id)]
    modifies alloc.Repr
    ensures alloc.Valid() && alloc.Repr == old(alloc.Repr) && SameHeld(alloc.model, before)
  {
    alloc.Release(tuple, id);
    assert At(before, tuple).held + {id} - {id} == At(before, tuple).held;
  }

  /** The request in the reply table: registered, and then claimed by its reply or cancelled. */
  function TablesAfter(t: Matcher.Tables, key: Matcher.Key, auth: Digest, subId: nat, fate: Fate): Matcher.Tables {
    var registered := Matcher.Registered(t, key, auth, subId);
    if fate.ReplyArrives?
    then Matcher.Claimed(registered, key, Matcher.Inflight(t.created, auth, subId), fate.now, fate.gcAt)
    else Matcher.Cancelled(registered, key)
  }

  method TrackRequest(matcher: Matcher.ReplyMatcher, key: Matcher.Key, auth: Digest, subId: nat, fate: Fate)
    modifies matcher
    ensures matcher.Value() == TablesAfter(old(matcher.Value()), key, auth, subId, fate)
    ensures key !in matcher.pending && NothingLeft(matcher.pending, old(matcher.pending))
  {
    var ifl := matcher.Register(key, auth, subId);
    if fate.ReplyArrives? {
      var _ := matcher.Claim(key, ifl, fate.now, fate.gcAt);
    } else {
      matcher.Cancel(key);
    }
  }

  lemma AllocatedEnds(before: map<Tuple, IdState>, after: map<Tuple, IdState>, sockets: seq<string>, dst: string,
                      starts: seq<int>, r: Scan, passes: nat, tries: nat)
    requires AllInt64(starts) && passes <= |starts| && (r.NoneFree? <==> passes == |starts|)
    requires forall k :: 0 <= k < passes ==> AllFull(before, Pass(sockets, dst, starts[k]), |sockets|)
    requires !r.NoneFree? ==> Scanned(before, after, Pass(sockets, dst, starts[passes]), r, tries)
    ensures EndOf(r) == ScanEnds(before, sockets, dst, starts, 0)
  {
    BlockedUpTo(before, sockets, dst, starts, 0, passes);
    if !r.NoneFree? { ScannedEnds(before, after, Pass(sockets, dst, starts[passes]), r, tries); }
  }

  /**
   One turn of the loop: how the scan ended, and the key the request was tracked under if it was built. Its
   Identifier is back, and under that key nothing is pending.
   */
  method Attempt(alloc: IDAllocator, matcher: Matcher.ReplyMatcher, sockets: seq<string>, dst: string, turn: Turn,
                 subId: nat)
    returns (scan: Scan, key: Option<Matcher.Key>)
    requires alloc.Valid() && matcher !in alloc.Repr && AllInt64(turn.Starts())
    modifies alloc.Repr, matcher
    ensures alloc.Valid() && fresh(alloc.Repr - old(alloc.Repr)) && SameHeld(alloc.model, old(alloc.model))
    ensures EndOf(scan) == EndOfTurn(old(alloc.model), sockets, dst, turn)
    ensures key.Some? <==> scan.Took? && turn.fate != BuildFails
    ensures key.Some? ==> key.value == Matcher.Key(scan.tuple.src, scan.id) && key.value !in matcher.pending
    ensures matcher.Value() ==
            if key.Some? then TablesAfter(old(matcher.Value()), key.value, turn.auth, subId, turn.fate)
            else old(matcher.Value())
    ensures NothingLeft(matcher.pending, old(matcher.pending))
  {
    key := None;
    ghost var before := alloc.model;
    var passes, tries;
    scan, passes, tries := AllocateOnAnyTuple(alloc, sockets, dst, turn.Starts());
    AllocatedEnds(before, alloc.model, sockets, dst, turn.Starts(), scan, passes, tries);
    if scan.Took? {
      if turn.fate != BuildFails {
        key := Some(Matcher.Key(scan.tuple.src, scan.id));
        TrackRequest(matcher, key.value, turn.auth, subId, turn.fate);
      }
      GiveBack(alloc, before, scan.tuple, scan.id);
    }
  }

  /** What a Send that ended so has sent, by attempt number, and waited. */
  ghost predicate Accounted(outcome: SendOutcome, sent: seq<nat>, waited: int, p: Policy) {
    sent == Numbers(OnWireBy(outcome, MaxAttempts(p))) && waited == TotalWait(p, TimedOut(outcome, MaxAttempts(p)))
  }

  lemma NextNumber(n: nat)
    ensures Numbers(n) + [n] == Numbers(n + 1)
  {
  }

  /** The body of the loop: whether attempt n went on the wire, and what it ends the Send with, if it does. */
  method RunTurn(alloc: IDAllocator, matcher: Matcher.ReplyMatcher, sockets: seq<string>, dst: string, turn: Turn,
                 subId: nat, n: nat)
    returns (outcome: Option<SendOutcome>, wired: bool)
    requires alloc.Valid() && matcher !in alloc.Repr && AllInt64(turn.Starts())
    modifies alloc.Repr, matcher
    ensures alloc.Valid() && fresh(alloc.Repr - old(alloc.Repr)) && SameHeld(alloc.model, old(alloc.model))
    ensures NothingLeft(matcher.pending, old(matcher.pending))
    ensures outcome == OutcomeOf(EndOfTurn(old(alloc.model), sockets, dst, turn), turn, n)
    ensures wired <==> EndOfTurn(old(alloc.model), sockets, dst, turn) == Finds && OnWire(turn.fate)
  {
    var scan, key := Attempt(alloc, matcher, sockets, dst, turn, subId);
    match scan
    case OutOfRange => return Some(Panicked(n)), false;
    case NoneFree => return Some(if turn.contextEndsScan then ScanCancelled(n) else IdentifierExhausted(n)), false;
    case Took(_, _) =>
    wired := OnWire(turn.fate);
    if turn.fate.ReplyArrives? {
      return Some(Replied(n)), wired;
    }
    if turn.fate != TimerFires {
      return Some(Failed(n, turn.fate)), wired;
    }
    outcome := None;
  }

  /** The next number, for an attempt that ends its Send and for one that does not. */
  lemma NumbersAfter(end: ScanEnd, turn: Turn, n: nat, max: nat)
    ensures var o, sent := OutcomeOf(end, turn, n), Numbers(if end == Finds && OnWire(turn.fate) then n + 1 else n);
            if o.Some? then sent == Numbers(OnWireBy(o.value, max)) && TimedOut(o.value, max) == n
            else sent == Numbers(n + 1)
  {
  }

  /**
   The loop of runSend, with what every turn is given. How it ends follows from what is held and the turns;
   `sent` holds the numbers of the attempts that went on the wire and `waited` the sum of the timeouts that ran
   out. On every path it gives back every Identifier it took and leaves nothing of its own pending.
   */
  method RunSend(alloc: IDAllocator, matcher: Matcher.ReplyMatcher, sockets: seq<string>, dst: string, p: Policy,
                 turns: seq<Turn>, subId: nat)
    returns (outcome: SendOutcome, sent: seq<nat>, waited: int)
    requires alloc.Valid() && matcher !in alloc.Repr && |turns| == MaxAttempts(p) && AllTurnsInt64(turns)
    modifies alloc.Repr, matcher
    ensures alloc.Valid() && SameHeld(alloc.model, old(alloc.model))
    ensures NothingLeft(matcher.pending, old(matcher.pending))
    ensures outcome == Ending(old(alloc.model), sockets, dst, turns, 0) && Accounted(outcome, sent, waited, p)
  {
    sent, waited := [], 0;
    var attempt := 0;
    ghost var before := alloc.model;
    while attempt < MaxAttempts(p)
      invariant 0 <= attempt <= MaxAttempts(p)
      invariant alloc.Valid() && matcher !in alloc.Repr && fresh(alloc.Repr - old(alloc.Repr))
      invariant SameHeld(alloc.model, before) && NothingLeft(matcher.pending, old(matcher.pending))
      invariant Ending(before, sockets, dst, turns, 0) == Ending(before, sockets, dst, turns, attempt)
      invariant waited == TotalWait(p, attempt) && sent == Numbers(attempt)
    {
      var turn := turns[attempt];
      SameHeldSameEnd(alloc.model, before, sockets, dst, turn.Starts(), 0);
      NumbersAfter(EndOfTurn(before, sockets, dst, turn), turn, attempt, MaxAttempts(p));
      NextNumber(attempt);
      var ended, wired := RunTurn(alloc, matcher, sockets, dst, turn, subId, attempt);
      if wired {
        sent := sent + [attempt];
      }
      if ended.Some? {
        outcome := ended.value;
        return;
      }
      waited := waited + Wait(p, attempt);
      attempt := attempt + 1;
    }
    outcome := FinalTimeout;
  }

  /** A Send that ends in a final timeout has made all its attempts and waited the closed form of its curve. */
  lemma FinalTimeoutWaits(sent: seq<nat>, waited: int, p: Policy)
    requires Accounted(FinalTimeout, sent, waited, p)
    requires p.maxRetries >= 0 && p.base > 0 && LargestStep(p, p.maxRetries) < TWO_63
    ensures sent == Numbers(p.maxRetries + 1)
    ensures waited == (if p.initialTimeout > 0 then p.initialTimeout else 5_000_000_000) + Sum(p, p.maxRetries)
  {
    TotalWaitClosedForm(p, p.maxRetries);
  }

  /**
   All of what RunSend returns, from the first attempt that does anything but run out of time: that attempt's number
   is the reply's or the error's, every attempt before it was sent and waited for, and it was itself sent if its
   datagram was built and written.
   */
  lemma SendExplained(model: map<Tuple, IdState>, sockets: seq<string>, dst: string, turns: seq<Turn>, p: Policy,
                      outcome: SendOutcome, sent: seq<nat>, waited: int, k: nat)
    requires k <= |turns| == MaxAttempts(p) && AllTurnsInt64(turns)
    requires outcome == Ending(model, sockets, dst, turns, 0) && Accounted(outcome, sent, waited, p)
    requires forall i :: 0 <= i < k ==> RunsOut(model, sockets, dst, turns[i])
    requires k < |turns| ==> !RunsOut(model, sockets, dst, turns[k])
    ensures |turns| == (if p.maxRetries < 0 then 1 else p.maxRetries + 1) && waited == TotalWait(p, k)
    ensures forall i :: 0 <= i < |sent| ==> sent[i] == i
    ensures k == |turns| ==> outcome == FinalTimeout && |sent| == k
    ensures k < |turns| ==>
              match EndOfTurn(model, sockets, dst, turns[k])
              case Overruns => outcome == Panicked(k) && |sent| == k
              case GivesUp =>
                && outcome == (if turns[k].contextEndsScan then ScanCancelled(k) else IdentifierExhausted(k))
                && |sent| == k
              case Finds =>
                match turns[k].fate
                case ReplyArrives(_, _) => outcome == Replied(k) && |sent| == k + 1
                case ContextEnds => outcome == Failed(k, ContextEnds) && |sent| == k + 1
                case fate => outcome == Failed(k, fate) && |sent| == k
  {
    EndingIsFirst(model, sockets, dst, turns, 0, k);
  }
}
