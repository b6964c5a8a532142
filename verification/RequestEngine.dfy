/**
 The request engine as a protocol: any number of Sends (pkg/io/sender.go) and Delivers
 (pkg/io/matcher.go) interleaved over one allocator and one matcher. A step is one critical section,
 one channel operation or one event from outside; between two steps of a thread, any others may run.
 */
module RequestEngine {
  import opened Wrappers
  import opened Bytes
  import opened Packets
  import opened Matcher
  import IdAllocator
  import Codes

  type Tuple = IdAllocator.Tuple

  /**
   What the protocol needs of the codec: the replies that a datagram decodes to, and whether one
   verifies against a request authenticator. `Radius` below is the engine's own.
   */
  datatype Config = Config(decode: seq<byte> -> Option<PacketValue>, verifies: (Delivery, Digest) -> bool)

  /** An Identifier held on a tuple. */
  datatype Lease = Lease(tuple: Tuple, id: byte)

  function KeyOf(l: Lease): Key {
    Key(l.tuple.src, l.id)
  }

  /** Why an attempt gives its Identifier back. */
  datatype Why =
    | TimedOut
    | ContextDone
    | BuildFailed
    | WriteFailed
    | Answered(token: nat, delivery: Delivery)

  datatype SendResult =
    | Replied(lease: Lease, token: nat, delivery: Delivery, retransmitN: nat)
    | FinalTimeout
    | Exhausted
    | Aborted(why: Why)

  datatype Phase =
    | Scanning
    | Building(lease: Lease)
    | Writing(lease: Lease, token: nat)
    | Waiting(lease: Lease, token: nat)
    | Cancelling(lease: Lease, token: nat, why: Why)
    | Releasing(lease: Lease, why: Why)
    | Returned(result: SendResult)

  /** `sent` lists the attempt numbers that went on the wire, as the request_sent events number them. */
  datatype Send = Send(dst: string, maxAttempts: nat, attempt: nat, sent: seq<nat>, phase: Phase)

  datatype DeliverPhase =
    | Arrived
    | Checking(ifl: Inflight)
    | Claiming(ifl: Inflight)
    | Pushing(ifl: Inflight)
    | Rereading
    | Judging(dup: Option<Completed>)
    | Finished(outcome: Outcome)

  datatype Deliver = Deliver(localAddr: string, delivery: Delivery, phase: DeliverPhase)
  {
    function Key(): Key {
      Matcher.Key(localAddr, delivery.reply.identifier)
    }
  }

  /** Who registered a token, under which key and request authenticator. */
  datatype Ticket = Ticket(owner: nat, key: Key, requestAuth: Digest)

  /**
   `held`, `tables` and `channels` are the shared state. `issued`, `claimedBy` and `pushed` are history: the
   ticket of every registration, the Deliver that claimed it, and all that its channel ever took.
   */
  datatype State = State(
    held: set<Lease>,
    tables: Tables,
    channels: map<nat, seq<Delivery>>,
    sends: map<nat, Send>,
    delivers: map<nat, Deliver>,
    issued: map<nat, Ticket>,
    claimedBy: map<nat, nat>,
    pushed: map<nat, seq<Delivery>>)

  const INITIAL := State({}, Tables(map[], map[], 0), map[], map[], map[], map[], map[], map[])

  datatype SendAction =
    | Start(dst: string, maxRetries: int)
    | Allocate(src: string, id: byte)
    | GiveUpScan(exhausted: bool)
    | FailBuild
    | Register(requestAuth: Digest, subId: nat)
    | Write(ok: bool)
    | Expire
    | CancelContext
    | Receive
    | CancelEntry
    | Release

  datatype DeliverAction =
    | Arrive(localAddr: string, wire: seq<byte>)
    | Lookup
    | Check
    | TryClaim(now: int, gcAt: int)
    | Push
    | Reread
    | Judge

  datatype Step = SendStep(i: nat, a: SendAction) | DeliverStep(d: nat, b: DeliverAction) | CloseAll

  predicate CanSend(s: State, i: nat, a: SendAction) {
    if a.Start? then i !in s.sends
    else
      && i in s.sends
      && var p := s.sends[i].phase;
         match a
         case Start(_, _) => false
         case Allocate(src, id) => p.Scanning? && Lease(IdAllocator.Tuple(src, s.sends[i].dst), id) !in s.held
         case GiveUpScan(_) => p.Scanning?
         case FailBuild => p.Building?
         case Register(_, _) => p.Building?
         case Write(_) => p.Writing?
         case Expire => p.Waiting?
         case CancelContext => p.Waiting?
         case Receive => p.Waiting? && Buffer(s.channels, p.token) != []
         case CancelEntry => p.Cancelling?
         case Release => p.Releasing?
  }

  predicate CanDeliver(c: Config, s: State, d: nat, b: DeliverAction) {
    if b.Arrive? then d !in s.delivers && c.decode(b.wire).Some?
    else
      && d in s.delivers
      && var p := s.delivers[d].phase;
         match b
         case Arrive(_, _) => false
         case Lookup => p.Arrived?
         case Check => p.Checking?
         case TryClaim(_, _) => p.Claiming?
         case Push => p.Pushing?
         case Reread => p.Rereading?
         case Judge => p.Judging?
  }

  predicate CanDo(c: Config, s: State, st: Step) {
    match st
    case SendStep(i, a) => CanSend(s, i, a)
    case DeliverStep(d, b) => CanDeliver(c, s, d, b)
    case CloseAll => true
  }

  function Buffer(m: map<nat, seq<Delivery>>, t: nat): seq<Delivery> {
    if t in m then m[t] else []
  }

  /** Where a Send goes once its Identifier is back. */
  function AfterRelease(x: Send): Send
    requires x.phase.Releasing?
  {
    match x.phase.why
    case TimedOut =>
      if x.attempt + 1 < x.maxAttempts then x.(attempt := x.attempt + 1, phase := Scanning)
      else x.(phase := Returned(FinalTimeout))
    case Answered(token, delivery) => x.(phase := Returned(Replied(x.phase.lease, token, delivery, x.attempt)))
    case _ => x.(phase := Returned(Aborted(x.phase.why)))
  }

  /** The thread itself after its step. */
  function NextSend(s: State, i: nat, a: SendAction): Send
    requires CanSend(s, i, a)
  {
    if a.Start? then
      Send(a.dst, if a.maxRetries + 1 < 1 then 1 else a.maxRetries + 1, 0, [], Scanning)
    else
      var x := s.sends[i];
      var p := x.phase;
      match a
      case Allocate(src, id) => x.(phase := Building(Lease(IdAllocator.Tuple(src, x.dst), id)))
      case GiveUpScan(exhausted) => x.(phase := Returned(if exhausted then Exhausted else Aborted(ContextDone)))
      case FailBuild => x.(phase := Releasing(p.lease, BuildFailed))
      case Register(_, _) => x.(phase := Writing(p.lease, s.tables.created))
      case Write(ok) =>
        if ok then x.(sent := x.sent + [x.attempt], phase := Waiting(p.lease, p.token))
        else x.(phase := Cancelling(p.lease, p.token, WriteFailed))
      case Expire => x.(phase := Cancelling(p.lease, p.token, TimedOut))
      case CancelContext => x.(phase := Cancelling(p.lease, p.token, ContextDone))
      case Receive => x.(phase := Releasing(p.lease, Answered(p.token, Buffer(s.channels, p.token)[0])))
      case CancelEntry => x.(phase := Releasing(p.lease, p.why))
      case Release => AfterRelease(x)
  }

  /** The step of a Send: the thread moves, and four of the actions touch the shared state. */
  function DoSend(s: State, i: nat, a: SendAction): State
    requires CanSend(s, i, a)
  {
    var moved := s.(sends := s.sends[i := NextSend(s, i, a)]);
    if a.Allocate? then moved.(held := s.held + {Lease(IdAllocator.Tuple(a.src, s.sends[i].dst), a.id)})
    else if a.Register? then
      var k, t := KeyOf(s.sends[i].phase.lease), s.tables.created;
      moved.(tables := Registered(s.tables, k, a.requestAuth, a.subId),
             channels := s.channels[t := []],
             issued := s.issued[t := Ticket(i, k, a.requestAuth)],
             pushed := s.pushed[t := []])
    else if a.Receive? then
      var t := s.sends[i].phase.token;
      moved.(channels := s.channels[t := s.channels[t][1..]])
    else if a.CancelEntry? then moved.(tables := Cancelled(s.tables, KeyOf(s.sends[i].phase.lease)))
    else if a.Release? then moved.(held := s.held - {s.sends[i].phase.lease})
    else moved
  }

  function NextDeliver(c: Config, s: State, d: nat, b: DeliverAction): Deliver
    requires CanDeliver(c, s, d, b)
  {
    if b.Arrive? then Deliver(b.localAddr, Delivery(c.decode(b.wire).value, b.wire), Arrived)
    else
      var x := s.delivers[d];
      var k := x.Key();
      match b
      case Lookup =>
        var (ifl, dup) := Found(s.tables, k);
        x.(phase := if ifl.Some? then Checking(ifl.value) else Judging(dup))
      case Check =>
        x.(phase := if c.verifies(x.delivery, x.phase.ifl.requestAuth) then Claiming(x.phase.ifl)
                    else Finished(ValidationFailed))
      case TryClaim(_, _) =>
        x.(phase := if StillPending(s.tables, k, x.phase.ifl) then Pushing(x.phase.ifl) else Rereading)
      case Push => x.(phase := Finished(Delivered))
      case Reread => x.(phase := Judging(if k in s.tables.recentDone then Some(s.tables.recentDone[k]) else None))
      case Judge =>
        x.(phase := Finished(if x.phase.dup.Some? && c.verifies(x.delivery, x.phase.dup.value.requestAuth)
                             then DuplicateReply else UnmatchedReply))
  }

  /** The step of a Deliver: only a claim that succeeds and the channel send touch the shared state. */
  function DoDeliver(c: Config, s: State, d: nat, b: DeliverAction): State
    requires CanDeliver(c, s, d, b)
  {
    var moved := s.(delivers := s.delivers[d := NextDeliver(c, s, d, b)]);
    if b.TryClaim? && StillPending(s.tables, s.delivers[d].Key(), s.delivers[d].phase.ifl) then
      var ifl := s.delivers[d].phase.ifl;
      moved.(tables := Claimed(s.tables, s.delivers[d].Key(), ifl, b.now, b.gcAt),
             claimedBy := s.claimedBy[ifl.token := d])
    else if b.Push? then
      // The channel holds one delivery; a send that finds it full is dropped.
      var t := s.delivers[d].phase.ifl.token;
      var taken := if Buffer(s.channels, t) == [] then [s.delivers[d].delivery] else [];
      moved.(channels := s.channels[t := Buffer(s.channels, t) + taken],
             pushed := s.pushed[t := Buffer(s.pushed, t) + taken])
    else moved
  }

  function Do(c: Config, s: State, st: Step): State
    requires CanDo(c, s, st)
  {
    match st
    case SendStep(i, a) => DoSend(s, i, a)
    case DeliverStep(d, b) => DoDeliver(c, s, d, b)
    case CloseAll => s.(tables := ClosedAll(s.tables))
  }

  // ---- What holds in every reachable state ----

  function LeaseOf(x: Send): Option<Lease> {
    match x.phase
    case Scanning => None
    case Returned(_) => None
    case _ => Some(x.phase.lease)
  }

  function TokenOf(x: Send): Option<nat> {
    match x.phase
    case Writing(_, t) => Some(t)
    case Waiting(_, t) => Some(t)
    case Cancelling(_, t, _) => Some(t)
    case _ => None
  }

  predicate Holds(s: State, i: nat, l: Lease) {
    i in s.sends && LeaseOf(s.sends[i]) == Some(l)
  }

  /** The Identifiers held are exactly those of the live attempts, each held by one of them. */
  ghost predicate LeasesOk(s: State) {
    && (forall i, l :: Holds(s, i, l) ==> l in s.held)
    && (forall i, j, l :: Holds(s, i, l) && Holds(s, j, l) ==> i == j)
    && (forall l :: l in s.held ==> exists i :: Holds(s, i, l))
  }

  lemma LeasesStep(s: State, i: nat, a: SendAction)
    requires LeasesOk(s) && CanSend(s, i, a)
    ensures LeasesOk(DoSend(s, i, a))
  {
    var t := DoSend(s, i, a);
    forall j, l | Holds(t, j, l) && j != i ensures Holds(s, j, l) {
    }
    if a.Release? {
      assert Holds(s, i, s.sends[i].phase.lease);
    }
    forall l | l in t.held ensures exists j :: Holds(t, j, l) {
      if a.Allocate? && l !in s.held {
        assert Holds(t, i, l);
      } else {
        var j :| Holds(s, j, l);
        assert Holds(t, j, l);
      }
    }
    forall l | Holds(t, i, l) ensures if a.Allocate? then l !in s.held else Holds(s, i, l) {
    }
  }

  predicate Carries(s: State, i: nat, t: nat) {
    i in s.sends && TokenOf(s.sends[i]) == Some(t)
  }

  predicate HasEntry(p: DeliverPhase) {
    p.Checking? || p.Claiming? || p.Pushing?
  }

  /** The entry's token was issued for this key and the entry's authenticator. */
  predicate IssuedAs(s: State, ifl: Inflight, k: Key) {
    ifl.token in s.issued && s.issued[ifl.token].key == k && s.issued[ifl.token].requestAuth == ifl.requestAuth
  }

  /** Tokens, pending entries and the threads that hold them agree on what was registered. */
  ghost predicate TicketsOk(s: State) {
    && (forall t: nat :: t in s.issued <==> t < s.tables.created)
    && (forall k :: k in s.tables.pending ==>
          IssuedAs(s, s.tables.pending[k], k) && s.tables.pending[k].token !in s.claimedBy)
    && (forall i, t :: Carries(s, i, t) ==>
          t in s.issued && s.issued[t].owner == i && s.issued[t].key == KeyOf(s.sends[i].phase.lease))
    && (forall d :: d in s.delivers && HasEntry(s.delivers[d].phase) ==>
          IssuedAs(s, s.delivers[d].phase.ifl, s.delivers[d].Key()))
    && (forall t :: t in s.claimedBy ==> t in s.issued)
    && (forall t: nat :: t in s.pushed <==> t in s.issued)
  }

  // What the actions of a Send leave as it was.

  predicate SameRecords(s: State, t: State) {
    t.delivers == s.delivers && t.issued == s.issued && t.claimedBy == s.claimedBy && t.pushed == s.pushed
  }

  lemma OnlyRegisterIssues(s: State, i: nat, a: SendAction)
    requires CanSend(s, i, a) && !a.Register?
    ensures var t := DoSend(s, i, a);
            && SameRecords(s, t) && t.sends == s.sends[i := NextSend(s, i, a)] && t.tables.created == s.tables.created
            && (a.CancelEntry? ==> t.tables.pending == s.tables.pending - {KeyOf(s.sends[i].phase.lease)})
            && (!a.CancelEntry? ==> t.tables.pending == s.tables.pending)
            && t.channels == if !a.Receive? then s.channels
                             else var n := s.sends[i].phase.token; s.channels[n := s.channels[n][1..]]
  {
  }

  /** Outside Register and the three actions that drop it, a Send keeps its token and the lease that goes with it. */
  lemma TokenKept(s: State, i: nat, a: SendAction)
    requires CanSend(s, i, a) && !a.Register?
    ensures var after := NextSend(s, i, a);
            && (TokenOf(after).Some? ==> i in s.sends && TokenOf(s.sends[i]) == TokenOf(after)
                                         && LeaseOf(s.sends[i]) == LeaseOf(after))
            && (i in s.sends && TokenOf(s.sends[i]).Some? && !a.Receive? && !a.CancelEntry? ==> TokenOf(after).Some?)
  {
  }

  lemma TicketsMove(s: State, t: State, i: nat, after: Send)
    requires TicketsOk(s) && SameRecords(s, t) && t.sends == s.sends[i := after]
    requires t.tables.created == s.tables.created
    requires forall k :: k in t.tables.pending ==> k in s.tables.pending && t.tables.pending[k] == s.tables.pending[k]
    requires TokenOf(after).Some? ==>
               i in s.sends && TokenOf(s.sends[i]) == TokenOf(after) && LeaseOf(s.sends[i]) == LeaseOf(after)
    ensures TicketsOk(t)
  {
    forall j, n | Carries(t, j, n)
      ensures n in t.issued && t.issued[n].owner == j && t.issued[n].key == KeyOf(t.sends[j].phase.lease)
    {
      assert Carries(s, j, n);
    }
    forall k | k in t.tables.pending
      ensures IssuedAs(t, t.tables.pending[k], k) && t.tables.pending[k].token !in t.claimedBy
    {
      assert IssuedAs(s, s.tables.pending[k], k);
    }
    forall d | d in t.delivers && HasEntry(t.delivers[d].phase)
      ensures IssuedAs(t, t.delivers[d].phase.ifl, t.delivers[d].Key())
    {
      assert IssuedAs(s, s.delivers[d].phase.ifl, s.delivers[d].Key());
    }
  }

  lemma RegisterEffects(s: State, i: nat, auth: Digest, sub: nat)
    requires CanSend(s, i, Register(auth, sub))
    ensures var t, n, l := DoSend(s, i, Register(auth, sub)), s.tables.created, s.sends[i].phase.lease;
            && t.tables.created == n + 1 && t.tables.pending == s.tables.pending[KeyOf(l) := Inflight(n, auth, sub)]
            && t.sends == s.sends[i := s.sends[i].(phase := Writing(l, n))]
            && t.issued == s.issued[n := Ticket(i, KeyOf(l), auth)]
            && t.pushed == s.pushed[n := []] && t.channels == s.channels[n := []]
            && t.delivers == s.delivers && t.claimedBy == s.claimedBy
  {
  }

  lemma TicketsRegister(s: State, t: State, i: nat, n: nat, l: Lease, entry: Inflight)
    requires TicketsOk(s) && n == s.tables.created && i in s.sends && entry.token == n
    requires t.tables.created == n + 1 && t.tables.pending == s.tables.pending[KeyOf(l) := entry]
    requires t.sends == s.sends[i := s.sends[i].(phase := Writing(l, n))]
    requires t.issued == s.issued[n := Ticket(i, KeyOf(l), entry.requestAuth)] && t.pushed == s.pushed[n := []]
    requires t.delivers == s.delivers && t.claimedBy == s.claimedBy
    ensures TicketsOk(t)
  {
    assert n !in s.issued;
    forall j, m | Carries(t, j, m)
      ensures m in t.issued && t.issued[m].owner == j && t.issued[m].key == KeyOf(t.sends[j].phase.lease)
    {
      if j != i {
        assert Carries(s, j, m);
      }
    }
    forall k | k in t.tables.pending
      ensures IssuedAs(t, t.tables.pending[k], k) && t.tables.pending[k].token !in t.claimedBy
    {
      if k != KeyOf(l) {
        assert IssuedAs(s, s.tables.pending[k], k);
      }
    }
    forall d | d in t.delivers && HasEntry(t.delivers[d].phase)
      ensures IssuedAs(t, t.delivers[d].phase.ifl, t.delivers[d].Key())
    {
      assert IssuedAs(s, s.delivers[d].phase.ifl, s.delivers[d].Key());
    }
  }

  lemma TicketsSendStep(s: State, i: nat, a: SendAction)
    requires TicketsOk(s) && CanSend(s, i, a)
    ensures TicketsOk(DoSend(s, i, a))
  {
    if a.Register? {
      var n := s.tables.created;
      RegisterEffects(s, i, a.requestAuth, a.subId);
      TicketsRegister(s, DoSend(s, i, a), i, n, s.sends[i].phase.lease, Inflight(n, a.requestAuth, a.subId));
    } else {
      OnlyRegisterIssues(s, i, a);
      TokenKept(s, i, a);
      TicketsMove(s, DoSend(s, i, a), i, NextSend(s, i, a));
    }
  }

  /** All that a claim changes, and only when the entry looked up is still the pending one. */
  lemma ClaimEffects(c: Config, s: State, d: nat, b: DeliverAction)
    requires CanDeliver(c, s, d, b) && b.TryClaim?
    ensures var t, k, ifl := DoDeliver(c, s, d, b), s.delivers[d].Key(), s.delivers[d].phase.ifl;
            && t.sends == s.sends && t.issued == s.issued && t.pushed == s.pushed && t.channels == s.channels
            && t.tables.created == s.tables.created
            && if StillPending(s.tables, k, ifl)
               then t.tables.pending == s.tables.pending - {k} && t.claimedBy == s.claimedBy[ifl.token := d]
                    && t.delivers == s.delivers[d := s.delivers[d].(phase := Pushing(ifl))]
               else t.tables.pending == s.tables.pending && t.claimedBy == s.claimedBy
                    && t.delivers == s.delivers[d := s.delivers[d].(phase := Rereading)]
  {
    ClaimedPending(s.tables, s.delivers[d].Key(), s.delivers[d].phase.ifl, b.now, b.gcAt);
  }

  lemma OnlyClaimMatches(c: Config, s: State, d: nat, b: DeliverAction)
    requires CanDeliver(c, s, d, b) && !b.TryClaim?
    ensures var t := DoDeliver(c, s, d, b);
            t.sends == s.sends && t.issued == s.issued && t.tables == s.tables && t.claimedBy == s.claimedBy
  {
  }

  lemma TicketsDeliverStep(c: Config, s: State, d: nat, b: DeliverAction)
    requires TicketsOk(s) && CanDeliver(c, s, d, b)
    ensures TicketsOk(DoDeliver(c, s, d, b))
  {
    if b.TryClaim? {
      ClaimEffects(c, s, d, b);
      ClaimTickets(s, DoDeliver(c, s, d, b), d, s.delivers[d].Key(), s.delivers[d].phase.ifl);
    } else {
      EntryComesFromTable(c, s, d, b);
      MoveKeepsTickets(s, DoDeliver(c, s, d, b), d, NextDeliver(c, s, d, b));
    }
  }

  lemma EntryComesFromTable(c: Config, s: State, d: nat, b: DeliverAction)
    requires TicketsOk(s) && CanDeliver(c, s, d, b) && !b.TryClaim?
    ensures var after := NextDeliver(c, s, d, b);
            HasEntry(after.phase) ==> IssuedAs(s, after.phase.ifl, after.Key())
  {
  }

  lemma MoveKeepsTickets(s: State, t: State, d: nat, after: Deliver)
    requires TicketsOk(s) && t.sends == s.sends && t.issued == s.issued && t.tables == s.tables
    requires t.claimedBy == s.claimedBy && t.delivers == s.delivers[d := after]
    requires t.pushed.Keys == s.pushed.Keys
    requires HasEntry(after.phase) ==> IssuedAs(s, after.phase.ifl, after.Key())
    ensures TicketsOk(t)
  {
    assert forall i, n :: Carries(t, i, n) == Carries(s, i, n);
    assert forall x, k :: IssuedAs(t, x, k) == IssuedAs(s, x, k);
  }

  lemma ClaimTickets(s: State, t: State, d: nat, k: Key, ifl: Inflight)
    requires TicketsOk(s) && d in s.delivers && s.delivers[d].phase == Claiming(ifl) && s.delivers[d].Key() == k
    requires t.sends == s.sends && t.issued == s.issued && t.pushed == s.pushed
    requires t.tables.created == s.tables.created
    requires if StillPending(s.tables, k, ifl)
             then t.tables.pending == s.tables.pending - {k} && t.claimedBy == s.claimedBy[ifl.token := d]
                  && t.delivers == s.delivers[d := s.delivers[d].(phase := Pushing(ifl))]
             else t.tables.pending == s.tables.pending && t.claimedBy == s.claimedBy
                  && t.delivers == s.delivers[d := s.delivers[d].(phase := Rereading)]
    ensures TicketsOk(t)
  {
    assert forall i, n :: Carries(t, i, n) == Carries(s, i, n);
    assert IssuedAs(s, ifl, k);
    forall k' | k' in t.tables.pending
      ensures IssuedAs(t, t.tables.pending[k'], k') && t.tables.pending[k'].token !in t.claimedBy
    {
      assert IssuedAs(s, s.tables.pending[k'], k');
    }
  }

  lemma ClaimedPending(t: Tables, k: Key, ifl: Inflight, now: int, gcAt: int)
    ensures Claimed(t, k, ifl, now, gcAt).pending == t.pending - {k}
    ensures Claimed(t, k, ifl, now, gcAt).created == t.created
  {
  }

  /** What a delivery on a channel is worth: it decodes from the wire, carries the request's Identifier and verifies. */
  predicate Genuine(c: Config, ticket: Ticket, x: Delivery) {
    && c.decode(x.wire) == Some(x.reply)
    && x.reply.identifier == ticket.key.identifier
    && c.verifies(x, ticket.requestAuth)
  }

  /** The channel of token `t` took this one delivery, from the Deliver that claimed the token. */
  predicate Took(c: Config, s: State, t: nat, x: Delivery) {
    && t in s.issued && Buffer(s.pushed, t) == [x] && Genuine(c, s.issued[t], x)
    && t in s.claimedBy && s.claimedBy[t] in s.delivers
    && s.delivers[s.claimedBy[t]].phase == Finished(Delivered)
  }

  ghost predicate DeliversOk(c: Config, s: State) {
    && (forall d :: d in s.delivers ==>
          c.decode(s.delivers[d].delivery.wire) == Some(s.delivers[d].delivery.reply))
    && (forall d :: d in s.delivers && (s.delivers[d].phase.Claiming? || s.delivers[d].phase.Pushing?) ==>
          c.verifies(s.delivers[d].delivery, s.delivers[d].phase.ifl.requestAuth))
    && (forall d :: d in s.delivers && s.delivers[d].phase.Pushing? ==>
          var t := s.delivers[d].phase.ifl.token;
          t in s.claimedBy && s.claimedBy[t] == d && Buffer(s.pushed, t) == [])
    && (forall t :: t in s.claimedBy ==> s.claimedBy[t] in s.delivers)
    && (forall t :: Buffer(s.pushed, t) != [] ==> Took(c, s, t, s.pushed[t][0]))
    && (forall t :: Buffer(s.channels, t) != [] ==> Buffer(s.channels, t) == Buffer(s.pushed, t))
  }

  /** A Send adds nothing to a channel: it opens an empty one, or takes out what is there. */
  lemma BuffersAfterSend(c: Config, s: State, i: nat, a: SendAction, n: nat)
    requires TicketsOk(s) && DeliversOk(c, s) && CanSend(s, i, a)
    ensures var t := DoSend(s, i, a);
            && Buffer(t.pushed, n) == Buffer(s.pushed, n)
            && (Buffer(t.channels, n) == [] || Buffer(t.channels, n) == Buffer(s.channels, n))
            && (n in s.issued ==> n in t.issued && t.issued[n] == s.issued[n])
            && t.delivers == s.delivers && t.claimedBy == s.claimedBy
  {
    if a.Register? {
      RegisterEffects(s, i, a.requestAuth, a.subId);
      assert s.tables.created !in s.issued && s.tables.created !in s.pushed;
    } else {
      OnlyRegisterIssues(s, i, a);
      if a.Receive? {
        assert Took(c, s, s.sends[i].phase.token, s.pushed[s.sends[i].phase.token][0]);
      }
    }
  }

  lemma DeliversSame(c: Config, s: State, t: State)
    requires DeliversOk(c, s) && t.delivers == s.delivers && t.claimedBy == s.claimedBy
    requires forall n :: n in s.issued ==> n in t.issued && t.issued[n] == s.issued[n]
    requires forall n :: Buffer(t.pushed, n) == Buffer(s.pushed, n)
    requires forall n :: Buffer(t.channels, n) == [] || Buffer(t.channels, n) == Buffer(s.channels, n)
    ensures DeliversOk(c, t)
  {
    forall n | Buffer(t.pushed, n) != [] ensures Took(c, t, n, t.pushed[n][0]) {
      assert Took(c, s, n, s.pushed[n][0]);
    }
  }

  lemma DeliversSendStep(c: Config, s: State, i: nat, a: SendAction)
    requires TicketsOk(s) && DeliversOk(c, s) && CanSend(s, i, a)
    ensures DeliversOk(c, DoSend(s, i, a))
  {
    var t := DoSend(s, i, a);
    forall n ensures Buffer(t.pushed, n) == Buffer(s.pushed, n)
                  && (Buffer(t.channels, n) == [] || Buffer(t.channels, n) == Buffer(s.channels, n))
                  && (n in s.issued ==> n in t.issued && t.issued[n] == s.issued[n])
    {
      BuffersAfterSend(c, s, i, a, n);
    }
    BuffersAfterSend(c, s, i, a, 0);
    DeliversSame(c, s, t);
  }

  lemma DeliversDeliverStep(c: Config, s: State, d: nat, b: DeliverAction)
    requires TicketsOk(s) && DeliversOk(c, s) && CanDeliver(c, s, d, b)
    ensures DeliversOk(c, DoDeliver(c, s, d, b))
  {
    if b.Push? {
      DeliversPush(c, s, d);
    } else if b.TryClaim? {
      DeliversClaim(c, s, d, b);
    } else {
      MoveEffects(c, s, d, b);
      DeliversMove(c, s, DoDeliver(c, s, d, b), d, NextDeliver(c, s, d, b));
    }
  }

  lemma MoveEffects(c: Config, s: State, d: nat, b: DeliverAction)
    requires DeliversOk(c, s) && CanDeliver(c, s, d, b) && !b.TryClaim? && !b.Push?
    ensures var t, after := DoDeliver(c, s, d, b), NextDeliver(c, s, d, b);
            && t.pushed == s.pushed && t.channels == s.channels && t.issued == s.issued && t.claimedBy == s.claimedBy
            && t.delivers == s.delivers[d := after]
            && c.decode(after.delivery.wire) == Some(after.delivery.reply) && !after.phase.Pushing?
            && (after.phase.Claiming? ==> c.verifies(after.delivery, after.phase.ifl.requestAuth))
            && (d in s.delivers ==> !s.delivers[d].phase.Finished?)
  {
  }

  lemma DeliversMove(c: Config, s: State, t: State, d: nat, after: Deliver)
    requires DeliversOk(c, s) && t.delivers == s.delivers[d := after]
    requires t.pushed == s.pushed && t.channels == s.channels && t.issued == s.issued && t.claimedBy == s.claimedBy
    requires c.decode(after.delivery.wire) == Some(after.delivery.reply) && !after.phase.Pushing?
    requires after.phase.Claiming? ==> c.verifies(after.delivery, after.phase.ifl.requestAuth)
    requires d in s.delivers ==> !s.delivers[d].phase.Finished?
    ensures DeliversOk(c, t)
  {
    forall n | Buffer(t.pushed, n) != [] ensures Took(c, t, n, t.pushed[n][0]) {
      assert Took(c, s, n, s.pushed[n][0]);
    }
  }

  lemma DeliversClaim(c: Config, s: State, d: nat, b: DeliverAction)
    requires TicketsOk(s) && DeliversOk(c, s) && CanDeliver(c, s, d, b) && b.TryClaim?
    ensures DeliversOk(c, DoDeliver(c, s, d, b))
  {
    var ifl, t := s.delivers[d].phase.ifl, DoDeliver(c, s, d, b);
    ClaimEffects(c, s, d, b);
    if StillPending(s.tables, s.delivers[d].Key(), ifl) {
      assert ifl.token !in s.claimedBy;
      ClaimKeeps(c, s, t, d, ifl, Pushing(ifl), s.claimedBy[ifl.token := d]);
    } else {
      ClaimKeeps(c, s, t, d, ifl, Rereading, s.claimedBy);
    }
  }

  /** A Deliver that is not finished took no part in what a channel took so far. */
  lemma TookKept(c: Config, s: State, t: State, d: nat, after: Deliver, n: nat, x: Delivery)
    requires Took(c, s, n, x) && d in s.delivers && !s.delivers[d].phase.Finished?
    requires t.delivers == s.delivers[d := after] && t.issued == s.issued && Buffer(t.pushed, n) == Buffer(s.pushed, n)
    requires n in t.claimedBy && t.claimedBy[n] == s.claimedBy[n]
    ensures Took(c, t, n, x)
  {
  }

  lemma ClaimKeeps(c: Config, s: State, t: State, d: nat, ifl: Inflight, phase: DeliverPhase, claimedBy: map<nat, nat>)
    requires TicketsOk(s) && DeliversOk(c, s) && d in s.delivers && s.delivers[d].phase == Claiming(ifl)
    requires t.pushed == s.pushed && t.channels == s.channels && t.issued == s.issued
    requires t.delivers == s.delivers[d := s.delivers[d].(phase := phase)] && t.claimedBy == claimedBy
    requires || (phase == Pushing(ifl) && ifl.token !in s.claimedBy && claimedBy == s.claimedBy[ifl.token := d])
             || (phase == Rereading && claimedBy == s.claimedBy)
    ensures DeliversOk(c, t)
  {
    var after := s.delivers[d].(phase := phase);
    forall n | Buffer(t.pushed, n) != [] ensures Took(c, t, n, t.pushed[n][0]) {
      assert Took(c, s, n, s.pushed[n][0]);
      TookKept(c, s, t, d, after, n, s.pushed[n][0]);
    }
    ClaimedOnce(c, s, t, d, ifl, after);
  }

  /** The other part: a Deliver about to send has the claim to itself, and nothing was sent under it. */
  lemma ClaimedOnce(c: Config, s: State, t: State, d: nat, ifl: Inflight, after: Deliver)
    requires DeliversOk(c, s) && d in s.delivers && s.delivers[d].phase == Claiming(ifl)
    requires t.pushed == s.pushed && t.delivers == s.delivers[d := after] && after.delivery == s.delivers[d].delivery
    requires || (after.phase == Pushing(ifl) && ifl.token !in s.claimedBy && t.claimedBy == s.claimedBy[ifl.token := d])
             || (after.phase == Rereading && t.claimedBy == s.claimedBy)
    ensures forall e :: e in t.delivers && (t.delivers[e].phase.Claiming? || t.delivers[e].phase.Pushing?) ==>
              c.verifies(t.delivers[e].delivery, t.delivers[e].phase.ifl.requestAuth)
    ensures forall e :: e in t.delivers && t.delivers[e].phase.Pushing? ==>
              var n := t.delivers[e].phase.ifl.token;
              n in t.claimedBy && t.claimedBy[n] == e && Buffer(t.pushed, n) == []
  {
    if Buffer(s.pushed, ifl.token) != [] {
      assert Took(c, s, ifl.token, s.pushed[ifl.token][0]);
    }
  }

  lemma DeliversPush(c: Config, s: State, d: nat)
    requires TicketsOk(s) && DeliversOk(c, s) && CanDeliver(c, s, d, Push)
    ensures DeliversOk(c, DoDeliver(c, s, d, Push))
  {
    var n, one := s.delivers[d].phase.ifl.token, [s.delivers[d].delivery];
    assert Buffer(s.channels, n) == [] && [] + one == one;
    PushKeeps(c, s, DoDeliver(c, s, d, Push), d, n, one);
  }

  lemma PushKeeps(c: Config, s: State, t: State, d: nat, n: nat, one: seq<Delivery>)
    requires TicketsOk(s) && DeliversOk(c, s) && CanDeliver(c, s, d, Push)
    requires n == s.delivers[d].phase.ifl.token && one == [s.delivers[d].delivery]
    requires t.pushed == s.pushed[n := one] && t.channels == s.channels[n := one]
    requires t.delivers == s.delivers[d := s.delivers[d].(phase := Finished(Delivered))]
    requires t.issued == s.issued && t.claimedBy == s.claimedBy
    ensures DeliversOk(c, t)
  {
    forall m | Buffer(t.pushed, m) != [] ensures Took(c, t, m, t.pushed[m][0]) {
      if m == n {
        TookNow(c, s, t, d, n, one);
      } else {
        assert Took(c, s, m, s.pushed[m][0]);
        TookKept(c, s, t, d, t.delivers[d], m, s.pushed[m][0]);
      }
    }
    OthersPushing(c, s, t, d, n, one);
  }

  lemma TookNow(c: Config, s: State, t: State, d: nat, n: nat, one: seq<Delivery>)
    requires TicketsOk(s) && DeliversOk(c, s) && CanDeliver(c, s, d, Push)
    requires n == s.delivers[d].phase.ifl.token && one == [s.delivers[d].delivery]
    requires t.pushed == s.pushed[n := one] && t.issued == s.issued && t.claimedBy == s.claimedBy
    requires t.delivers == s.delivers[d := s.delivers[d].(phase := Finished(Delivered))]
    ensures Took(c, t, n, one[0])
  {
    assert IssuedAs(s, s.delivers[d].phase.ifl, s.delivers[d].Key());
  }

  lemma OthersPushing(c: Config, s: State, t: State, d: nat, n: nat, one: seq<Delivery>)
    requires DeliversOk(c, s) && CanDeliver(c, s, d, Push) && n == s.delivers[d].phase.ifl.token
    requires t.pushed == s.pushed[n := one] && t.claimedBy == s.claimedBy
    requires t.delivers == s.delivers[d := s.delivers[d].(phase := Finished(Delivered))]
    ensures forall e :: e in t.delivers && t.delivers[e].phase.Pushing? ==>
              var m := t.delivers[e].phase.ifl.token;
              m in t.claimedBy && t.claimedBy[m] == e && Buffer(t.pushed, m) == []
  {
  }

  /** The attempt counter, the transmissions numbered so far, and the limit. */
  predicate CountsOk(x: Send) {
    && 1 <= x.maxAttempts && x.attempt < x.maxAttempts
    && (forall j :: 0 <= j < |x.sent| ==> x.sent[j] == j)
    && x.attempt <= |x.sent| <= x.attempt + 1
    && (match x.phase
        case Scanning => |x.sent| == x.attempt
        case Building(_) => |x.sent| == x.attempt
        case Writing(_, _) => |x.sent| == x.attempt
        case Waiting(_, _) => |x.sent| == x.attempt + 1
        case Cancelling(_, _, why) => !why.Answered? && (why == TimedOut ==> |x.sent| == x.attempt + 1)
        case Releasing(_, why) => why == TimedOut || why.Answered? ==> |x.sent| == x.attempt + 1
        case Returned(FinalTimeout) => |x.sent| == x.maxAttempts
        case Returned(Replied(_, _, _, n)) => n == x.attempt && |x.sent| == n + 1
        case Returned(_) => true)
  }

  lemma CountsStep(s: State, i: nat, a: SendAction)
    requires CanSend(s, i, a) && (!a.Start? ==> CountsOk(s.sends[i]))
    ensures CountsOk(NextSend(s, i, a))
    ensures !a.Start? ==> NextSend(s, i, a).maxAttempts == s.sends[i].maxAttempts
  {
  }

  /** The delivery a Send has read off its channel, if any. */
  function AnswerOf(x: Send): Option<(Lease, nat, Delivery)> {
    match x.phase
    case Releasing(l, Answered(t, delivery)) => Some((l, t, delivery))
    case Returned(Replied(l, t, delivery, _)) => Some((l, t, delivery))
    case _ => None
  }

  lemma TookStaysSend(c: Config, s: State, i: nat, a: SendAction, t: nat, x: Delivery)
    requires TicketsOk(s) && CanSend(s, i, a) && Took(c, s, t, x)
    ensures Took(c, DoSend(s, i, a), t, x) && DoSend(s, i, a).issued[t] == s.issued[t]
  {
  }

  lemma TookStaysDeliver(c: Config, s: State, d: nat, b: DeliverAction, t: nat, x: Delivery)
    requires TicketsOk(s) && DeliversOk(c, s) && CanDeliver(c, s, d, b) && Took(c, s, t, x)
    ensures Took(c, DoDeliver(c, s, d, b), t, x) && DoDeliver(c, s, d, b).issued[t] == s.issued[t]
  {
    if b.TryClaim? && StillPending(s.tables, s.delivers[d].Key(), s.delivers[d].phase.ifl) {
      assert s.delivers[d].phase.ifl.token !in s.claimedBy;
    }
  }

  predicate AnswerOk(c: Config, s: State, i: nat, answer: (Lease, nat, Delivery)) {
    Took(c, s, answer.1, answer.2) && s.issued[answer.1].owner == i && s.issued[answer.1].key == KeyOf(answer.0)
  }

  ghost predicate AnswersOk(c: Config, s: State) {
    forall i :: i in s.sends && AnswerOf(s.sends[i]).Some? ==> AnswerOk(c, s, i, AnswerOf(s.sends[i]).value)
  }

  lemma NoNewAnswer(s: State, i: nat, a: SendAction)
    requires CanSend(s, i, a) && !a.Receive? && !a.Start? && CountsOk(s.sends[i])
    ensures AnswerOf(NextSend(s, i, a)).Some? ==> AnswerOf(NextSend(s, i, a)) == AnswerOf(s.sends[i])
  {
  }

  lemma AnswersSendStep(c: Config, s: State, i: nat, a: SendAction)
    requires TicketsOk(s) && DeliversOk(c, s) && AnswersOk(c, s) && CanSend(s, i, a)
    requires !a.Start? ==> CountsOk(s.sends[i])
    ensures AnswersOk(c, DoSend(s, i, a))
  {
    var t := DoSend(s, i, a);
    if !a.Receive? && !a.Start? {
      NoNewAnswer(s, i, a);
    }
    forall j | j in t.sends && AnswerOf(t.sends[j]).Some? ensures AnswerOk(c, t, j, AnswerOf(t.sends[j]).value) {
      var (l, n, x) := AnswerOf(t.sends[j]).value;
      if j == i && a.Receive? {
        assert Carries(s, i, n);
        assert Took(c, s, n, s.pushed[n][0]);
      } else {
        assert AnswerOk(c, s, j, AnswerOf(s.sends[j]).value);
      }
      TookStaysSend(c, s, i, a, n, x);
    }
  }

  lemma AnswersDeliverStep(c: Config, s: State, d: nat, b: DeliverAction)
    requires TicketsOk(s) && DeliversOk(c, s) && AnswersOk(c, s) && CanDeliver(c, s, d, b)
    ensures AnswersOk(c, DoDeliver(c, s, d, b))
  {
    var t := DoDeliver(c, s, d, b);
    forall j | j in t.sends && AnswerOf(t.sends[j]).Some? ensures AnswerOk(c, t, j, AnswerOf(t.sends[j]).value) {
      var (l, n, x) := AnswerOf(t.sends[j]).value;
      assert AnswerOk(c, s, j, AnswerOf(s.sends[j]).value);
      TookStaysDeliver(c, s, d, b, n, x);
    }
  }

  /** Every pending entry belongs to the attempt that registered it, which is still live. */
  ghost predicate OwnersOk(s: State) {
    forall k :: k in s.tables.pending ==>
      var t := s.tables.pending[k].token;
      t in s.issued && Carries(s, s.issued[t].owner, t)
  }

  /** The thread that dropped its token left no entry for it: none was there, or it was claimed, or is removed. */
  lemma OwnersMove(s: State, t: State, i: nat, after: Send)
    requires TicketsOk(s) && OwnersOk(s) && t.issued == s.issued && t.sends == s.sends[i := after]
    requires forall k :: k in t.tables.pending ==> k in s.tables.pending && t.tables.pending[k] == s.tables.pending[k]
    requires i in s.sends && TokenOf(s.sends[i]).Some? ==>
               TokenOf(after) == TokenOf(s.sends[i]) || TokenOf(s.sends[i]).value in s.claimedBy
               || KeyOf(s.sends[i].phase.lease) !in t.tables.pending
    ensures OwnersOk(t)
  {
    forall k | k in t.tables.pending
      ensures var n := t.tables.pending[k].token;
              n in t.issued && Carries(t, t.issued[n].owner, n)
    {
      var n := s.tables.pending[k].token;
      assert IssuedAs(s, s.tables.pending[k], k) && Carries(s, s.issued[n].owner, n);
    }
  }

  lemma OwnersRegister(s: State, i: nat, auth: Digest, sub: nat)
    requires TicketsOk(s) && OwnersOk(s) && CanSend(s, i, Register(auth, sub))
    ensures OwnersOk(DoSend(s, i, Register(auth, sub)))
  {
    var t := DoSend(s, i, Register(auth, sub));
    forall k | k in t.tables.pending
      ensures var n := t.tables.pending[k].token;
              n in t.issued && Carries(t, t.issued[n].owner, n)
    {
      if k != KeyOf(s.sends[i].phase.lease) {
        var n := s.tables.pending[k].token;
        assert IssuedAs(s, s.tables.pending[k], k) && Carries(s, s.issued[n].owner, n);
      }
    }
  }

  lemma OwnersSendStep(c: Config, s: State, i: nat, a: SendAction)
    requires TicketsOk(s) && DeliversOk(c, s) && OwnersOk(s) && CanSend(s, i, a)
    ensures OwnersOk(DoSend(s, i, a))
  {
    if a.Register? {
      OwnersRegister(s, i, a.requestAuth, a.subId);
    } else {
      OnlyRegisterIssues(s, i, a);
      TokenKept(s, i, a);
      if a.Receive? {
        // What can be received was claimed, so its entry has left the table.
        assert Took(c, s, s.sends[i].phase.token, s.pushed[s.sends[i].phase.token][0]);
      }
      OwnersMove(s, DoSend(s, i, a), i, NextSend(s, i, a));
    }
  }

  lemma OwnersDeliverStep(c: Config, s: State, d: nat, b: DeliverAction)
    requires OwnersOk(s) && CanDeliver(c, s, d, b)
    ensures OwnersOk(DoDeliver(c, s, d, b))
  {
    var t := DoDeliver(c, s, d, b);
    if b.TryClaim? { ClaimEffects(c, s, d, b); } else { OnlyClaimMatches(c, s, d, b); }
    OwnersSame(s, t);
  }

  lemma OwnersSame(s: State, t: State)
    requires OwnersOk(s) && t.sends == s.sends && t.issued == s.issued
    requires forall k :: k in t.tables.pending ==> k in s.tables.pending && t.tables.pending[k] == s.tables.pending[k]
    ensures OwnersOk(t)
  {
    assert forall i, n :: Carries(t, i, n) == Carries(s, i, n);
  }

  ghost predicate AllCountsOk(s: State) {
    forall i :: i in s.sends ==> CountsOk(s.sends[i])
  }

  ghost predicate Inv(c: Config, s: State) {
    && LeasesOk(s) && TicketsOk(s) && DeliversOk(c, s) && AnswersOk(c, s) && OwnersOk(s)
    && Disjoint(s.tables) && AllCountsOk(s)
  }

  lemma CountsSendStep(s: State, i: nat, a: SendAction)
    requires AllCountsOk(s) && CanSend(s, i, a)
    ensures AllCountsOk(DoSend(s, i, a))
  {
    CountsStep(s, i, a);
    assert DoSend(s, i, a).sends == s.sends[i := NextSend(s, i, a)];
  }

  lemma InvSendStep(c: Config, s: State, i: nat, a: SendAction)
    requires Inv(c, s) && CanSend(s, i, a)
    ensures Inv(c, DoSend(s, i, a))
  {
    LeasesStep(s, i, a);
    TicketsSendStep(s, i, a);
    DeliversSendStep(c, s, i, a);
    AnswersSendStep(c, s, i, a);
    OwnersSendStep(c, s, i, a);
    CountsSendStep(s, i, a);
    TablesSendStep(s, i, a);
  }

  /** A step that moves no Send leaves what concerns only them. */
  lemma SendsUntouched(s: State, t: State)
    requires LeasesOk(s) && AllCountsOk(s) && t.sends == s.sends && t.held == s.held
    ensures LeasesOk(t) && AllCountsOk(t)
  {
    assert forall i, l :: Holds(t, i, l) == Holds(s, i, l);
  }

  lemma SendsUntouchedByDeliver(c: Config, s: State, d: nat, b: DeliverAction)
    requires LeasesOk(s) && AllCountsOk(s) && CanDeliver(c, s, d, b)
    ensures LeasesOk(DoDeliver(c, s, d, b)) && AllCountsOk(DoDeliver(c, s, d, b))
  {
    SendsUntouched(s, DoDeliver(c, s, d, b));
  }

  lemma InvDeliverStep(c: Config, s: State, d: nat, b: DeliverAction)
    requires Inv(c, s) && CanDeliver(c, s, d, b)
    ensures Inv(c, DoDeliver(c, s, d, b))
  {
    TicketsDeliverStep(c, s, d, b);
    DeliversDeliverStep(c, s, d, b);
    AnswersDeliverStep(c, s, d, b);
    OwnersDeliverStep(c, s, d, b);
    TablesDeliverStep(c, s, d, b);
    SendsUntouchedByDeliver(c, s, d, b);
  }

  lemma AnswersSame(c: Config, s: State, t: State)
    requires AnswersOk(c, s) && t.sends == s.sends && t.issued == s.issued && t.pushed == s.pushed
    requires t.claimedBy == s.claimedBy && t.delivers == s.delivers
    ensures AnswersOk(c, t)
  {
    assert forall i, x :: AnswerOk(c, t, i, x) == AnswerOk(c, s, i, x);
  }

  lemma TicketsUntabled(s: State, t: State)
    requires TicketsOk(s) && SameRecords(s, t) && t.sends == s.sends
    requires t.tables.created == s.tables.created && t.tables.pending == map[]
    ensures TicketsOk(t)
  {
    assert forall i, n :: Carries(t, i, n) == Carries(s, i, n);
    assert forall x, k :: IssuedAs(t, x, k) == IssuedAs(s, x, k);
  }

  lemma InvCloseStep(c: Config, s: State)
    requires Inv(c, s)
    ensures Inv(c, Do(c, s, CloseAll))
  {
    var t := Do(c, s, CloseAll);
    SendsUntouched(s, t);
    TicketsUntabled(s, t);
    DeliversSame(c, s, t);
    AnswersSame(c, s, t);
    OwnersSame(s, t);
  }

  lemma InvStep(c: Config, s: State, st: Step)
    requires Inv(c, s) && CanDo(c, s, st)
    ensures Inv(c, Do(c, s, st))
  {
    match st
    case SendStep(i, a) => InvSendStep(c, s, i, a);
    case DeliverStep(d, b) => InvDeliverStep(c, s, d, b);
    case CloseAll => InvCloseStep(c, s);
  }

  const NO_ENTRY := Inflight(0, ZERO_AUTH, 0)

  lemma TablesSendStep(s: State, i: nat, a: SendAction)
    requires Disjoint(s.tables) && CanSend(s, i, a)
    ensures Disjoint(DoSend(s, i, a).tables)
  {
    if a.Register? {
      SectionsKeepDisjoint(s.tables, KeyOf(s.sends[i].phase.lease), a.requestAuth, a.subId, NO_ENTRY, 0, 0);
    } else if a.CancelEntry? {
      SectionsKeepDisjoint(s.tables, KeyOf(s.sends[i].phase.lease), ZERO_AUTH, 0, NO_ENTRY, 0, 0);
    }
  }

  lemma TablesDeliverStep(c: Config, s: State, d: nat, b: DeliverAction)
    requires Disjoint(s.tables) && CanDeliver(c, s, d, b)
    ensures Disjoint(DoDeliver(c, s, d, b).tables)
  {
    if b.TryClaim? {
      SectionsKeepDisjoint(s.tables, s.delivers[d].Key(), ZERO_AUTH, 0, s.delivers[d].phase.ifl, b.now, b.gcAt);
    }
  }

  // ---- Runs ----

  /** Step k of the run leads from state k to the next. */
  predicate StepTaken(c: Config, states: seq<State>, steps: seq<Step>, k: nat)
    requires k < |steps| && |states| == |steps| + 1
  {
    CanDo(c, states[k], steps[k]) && states[k + 1] == Do(c, states[k], steps[k])
  }

  ghost predicate Run(c: Config, states: seq<State>, steps: seq<Step>) {
    && |states| == |steps| + 1 && states[0] == INITIAL
    && forall k :: 0 <= k < |steps| ==> StepTaken(c, states, steps, k)
  }

  lemma {:induction false} RunKeepsInv(c: Config, states: seq<State>, steps: seq<Step>, k: nat)
    requires Run(c, states, steps) && k < |states|
    ensures Inv(c, states[k])
  {
    if k > 0 {
      RunKeepsInv(c, states, steps, k - 1);
      assert StepTaken(c, states, steps, k - 1);
      InvStep(c, states[k - 1], steps[k - 1]);
    }
  }

  // ---- What the engine promises, over every run ----

  /**
   No two live attempts ever hold the same Identifier on the same tuple, what the allocator has marked
   is exactly what live attempts hold, and nothing is marked once every Send has returned.
   */
  lemma IdentifiersNeverShared(c: Config, states: seq<State>, steps: seq<Step>, k: nat)
    requires Run(c, states, steps) && k < |states|
    ensures forall i, j, l :: Holds(states[k], i, l) && Holds(states[k], j, l) ==> i == j
    ensures forall l :: l in states[k].held <==> exists i :: Holds(states[k], i, l)
    ensures (forall i :: i in states[k].sends ==> states[k].sends[i].phase.Returned?) ==> states[k].held == {}
  {
    RunKeepsInv(c, states, steps, k);
    var s := states[k];
    if forall i :: i in s.sends ==> s.sends[i].phase.Returned? {
      assert forall i, l :: !Holds(s, i, l);
    }
  }

  /**
   An Identifier is taken only by Allocate, stays with its attempt through every other step, and
   goes back exactly at that attempt's Release; no other Send's lease changes.
   */
  lemma LeaseLifecycle(c: Config, s: State, st: Step)
    requires CanDo(c, s, st)
    ensures var t := Do(c, s, st);
            if st.SendStep? && st.i in s.sends then
              && t.sends.Keys == s.sends.Keys && LeaseStep(s, t, st.i, st.a)
              && (forall i :: i in s.sends && i != st.i ==> t.sends[i] == s.sends[i])
            else
              t.held == s.held && (forall i :: i in s.sends ==> i in t.sends && t.sends[i] == s.sends[i])
  {
    if st.SendStep? {
      if st.i in s.sends { OthersUntouched(s, st.i, st.a); }
      if !st.a.Start? { LeaseChanges(s, st.i, st.a); }
    }
  }

  lemma OthersUntouched(s: State, i: nat, a: SendAction)
    requires CanSend(s, i, a) && i in s.sends
    ensures DoSend(s, i, a).sends.Keys == s.sends.Keys
    ensures forall j :: j in s.sends && j != i ==> DoSend(s, i, a).sends[j] == s.sends[j]
  {
  }

  /** The two ways in which Send `i` changes what is held; any other step keeps both as they are. */
  predicate LeaseStep(s: State, t: State, i: nat, a: SendAction)
    requires i in s.sends && i in t.sends
  {
    var before, after := LeaseOf(s.sends[i]), LeaseOf(t.sends[i]);
    if a.Allocate? then before.None? && after.Some? && after.value !in s.held && t.held == s.held + {after.value}
    else if a.Release? then before.Some? && after.None? && t.held == s.held - {before.value}
    else after == before && t.held == s.held
  }

  lemma LeaseChanges(s: State, i: nat, a: SendAction)
    requires CanSend(s, i, a) && !a.Start?
    ensures LeaseStep(s, DoSend(s, i, a), i, a)
  {
  }

  /**
   Every registered request is answered at most once, and only by a reply that carries its Identifier
   and verifies against its own authenticator, whatever ran between a Deliver's lookup and its claim.
   The channel is never full when the claimant sends on it.
   */
  lemma AtMostOneGenuineReply(c: Config, states: seq<State>, steps: seq<Step>, k: nat)
    requires Run(c, states, steps) && k < |states|
    ensures var s := states[k];
            && (forall t :: Buffer(s.pushed, t) != [] ==>
                  |s.pushed[t]| == 1 && t in s.issued && Genuine(c, s.issued[t], s.pushed[t][0]))
            && (forall d :: d in s.delivers && s.delivers[d].phase.Pushing? ==>
                  Buffer(s.channels, s.delivers[d].phase.ifl.token) == [])
            && (forall d, e | d in s.delivers && e in s.delivers && s.delivers[d].phase.Pushing?
                              && s.delivers[e].phase.Pushing? && d != e ::
                  s.delivers[d].phase.ifl.token != s.delivers[e].phase.ifl.token)
  {
    RunKeepsInv(c, states, steps, k);
    var s := states[k];
    forall t | Buffer(s.pushed, t) != []
      ensures |s.pushed[t]| == 1 && t in s.issued && Genuine(c, s.issued[t], s.pushed[t][0])
    {
      assert Took(c, s, t, s.pushed[t][0]);
    }
  }

  /** The reply a Send returns was registered for by that Send, under the key of that very attempt. */
  lemma ReturnedReplyIsGenuine(c: Config, states: seq<State>, steps: seq<Step>, k: nat, i: nat)
    requires Run(c, states, steps) && k < |states|
    requires i in states[k].sends && states[k].sends[i].phase.Returned? && states[k].sends[i].phase.result.Replied?
    ensures var s, r := states[k], states[k].sends[i].phase.result;
            && r.token in s.issued && s.issued[r.token].owner == i && s.issued[r.token].key == KeyOf(r.lease)
            && Genuine(c, s.issued[r.token], r.delivery) && r.delivery.reply.identifier == r.lease.id
            && Buffer(s.pushed, r.token) == [r.delivery]
  {
    RunKeepsInv(c, states, steps, k);
    assert AnswerOk(c, states[k], i, AnswerOf(states[k].sends[i]).value);
  }

  /**
   A Send transmits at most maxAttempts times, numbered 0, 1, 2, ... in order; it ends in
   FinalTimeout only after exactly that many, and reports as RetransmitN the number of the
   transmission that was answered.
   */
  lemma TransmissionsBounded(c: Config, states: seq<State>, steps: seq<Step>, k: nat, i: nat)
    requires Run(c, states, steps) && k < |states| && i in states[k].sends
    ensures var x := states[k].sends[i];
            && |x.sent| <= x.maxAttempts && (forall j :: 0 <= j < |x.sent| ==> x.sent[j] == j)
            && (x.phase.Returned? && x.phase.result.FinalTimeout? ==> |x.sent| == x.maxAttempts)
            && (x.phase.Returned? && x.phase.result.Replied? ==>
                  x.sent != [] && x.sent[|x.sent| - 1] == x.phase.result.retransmitN)
  {
    RunKeepsInv(c, states, steps, k);
  }

  // ---- Displacement ----

  /** `j` registered the pending entry that a registration of `i` would overwrite. */
  predicate Clashes(s: State, i: nat, j: nat)
    requires i in s.sends && s.sends[i].phase.Building?
  {
    var k := KeyOf(s.sends[i].phase.lease);
    && k in s.tables.pending && Carries(s, j, s.tables.pending[k].token) && j != i
    && KeyOf(s.sends[j].phase.lease) == k
    && s.sends[j].phase.lease.tuple.dst != s.sends[i].phase.lease.tuple.dst
  }

  /** An entry that a registration would overwrite belongs to a live attempt towards another destination. */
  lemma PendingBelongsElsewhere(c: Config, states: seq<State>, steps: seq<Step>, k: nat, i: nat)
    requires Run(c, states, steps) && k < |states|
    requires i in states[k].sends && states[k].sends[i].phase.Building?
    ensures KeyOf(states[k].sends[i].phase.lease) in states[k].tables.pending <==> exists j :: Clashes(states[k], i, j)
  {
    RunKeepsInv(c, states, steps, k);
    var s := states[k];
    var key := KeyOf(s.sends[i].phase.lease);
    if key in s.tables.pending {
      var n := s.tables.pending[key].token;
      var j := s.issued[n].owner;
      assert Carries(s, j, n) && IssuedAs(s, s.tables.pending[key], key);
      if s.sends[j].phase.lease == s.sends[i].phase.lease {
        assert Holds(s, i, s.sends[i].phase.lease) && Holds(s, j, s.sends[i].phase.lease);
      }
      assert Clashes(s, i, j);
    }
  }

  /** All Sends from a local address go to one destination. */
  ghost predicate OneDestination(s: State) {
    forall i, j, l, m :: Holds(s, i, l) && Holds(s, j, m) && l.tuple.src == m.tuple.src ==> l.tuple.dst == m.tuple.dst
  }

  /** Then Register never displaces a live request. */
  lemma RegisterDisplacesNobody(c: Config, states: seq<State>, steps: seq<Step>, k: nat, i: nat)
    requires Run(c, states, steps) && k < |states| && OneDestination(states[k])
    requires i in states[k].sends && states[k].sends[i].phase.Building?
    ensures KeyOf(states[k].sends[i].phase.lease) !in states[k].tables.pending
  {
    PendingBelongsElsewhere(c, states, steps, k, i);
    var s := states[k];
    forall j ensures !Clashes(s, i, j) {
      if Clashes(s, i, j) {
        assert Holds(s, i, s.sends[i].phase.lease) && Holds(s, j, s.sends[j].phase.lease);
      }
    }
  }

  /** And Cancel removes its own attempt's entry or nothing, even when a reply was claimed meanwhile. */
  lemma CancelRemovesOnlyItsOwn(c: Config, states: seq<State>, steps: seq<Step>, k: nat, i: nat)
    requires Run(c, states, steps) && k < |states| && OneDestination(states[k])
    requires i in states[k].sends && states[k].sends[i].phase.Cancelling?
    ensures var s := states[k];
            var key := KeyOf(s.sends[i].phase.lease);
            key in s.tables.pending ==> s.tables.pending[key].token == s.sends[i].phase.token
  {
    RunKeepsInv(c, states, steps, k);
    var s := states[k];
    var key := KeyOf(s.sends[i].phase.lease);
    if key in s.tables.pending {
      var n := s.tables.pending[key].token;
      var j := s.issued[n].owner;
      assert Carries(s, j, n) && IssuedAs(s, s.tables.pending[key], key);
      assert Holds(s, i, s.sends[i].phase.lease) && Holds(s, j, s.sends[j].phase.lease);
    }
  }

  /** A request under this lease's key can be answered: its entry is in the table, or was claimed for it. */
  predicate Awaited(s: State, lease: Lease, t: nat) {
    || t in s.claimedBy
    || (KeyOf(lease) in s.tables.pending && s.tables.pending[KeyOf(lease)].token == t)
  }

  /** Every request still waiting can be answered. */
  ghost predicate Reachable(s: State) {
    forall i, t :: Carries(s, i, t) && !s.sends[i].phase.Cancelling? ==> Awaited(s, s.sends[i].phase.lease, t)
  }

  /** Two holders of Identifiers under one key hold the same one, so they are one Send. */
  lemma SameKeySameSend(s: State, i: nat, j: nat)
    requires LeasesOk(s) && OneDestination(s) && i in s.sends && j in s.sends
    requires LeaseOf(s.sends[i]).Some? && LeaseOf(s.sends[j]).Some?
    requires KeyOf(LeaseOf(s.sends[i]).value) == KeyOf(LeaseOf(s.sends[j]).value)
    ensures i == j
  {
    var l, m := LeaseOf(s.sends[i]).value, LeaseOf(s.sends[j]).value;
    assert Holds(s, i, l) && Holds(s, j, m);
    assert l == m;
  }

  lemma AwaitedAfterSend(s: State, i: nat, a: SendAction, lease: Lease, t: nat)
    requires CanSend(s, i, a) && Awaited(s, lease, t)
    requires a.Register? || a.CancelEntry? ==> KeyOf(lease) != KeyOf(s.sends[i].phase.lease)
    ensures Awaited(DoSend(s, i, a), lease, t)
  {
  }

  lemma ReachableSendStep(c: Config, s: State, i: nat, a: SendAction)
    requires LeasesOk(s) && OneDestination(s) && Reachable(s) && CanSend(s, i, a)
    ensures Reachable(DoSend(s, i, a))
  {
    var t := DoSend(s, i, a);
    if !a.Register? {
      TokenKept(s, i, a);
    }
    forall j, n | Carries(t, j, n) && !t.sends[j].phase.Cancelling?
      ensures Awaited(t, t.sends[j].phase.lease, n)
    {
      if j != i || !a.Register? {
        assert Carries(s, j, n) && t.sends[j].phase.lease == s.sends[j].phase.lease;
        if j != i && (a.Register? || a.CancelEntry?)
           && KeyOf(s.sends[j].phase.lease) == KeyOf(s.sends[i].phase.lease) {
          SameKeySameSend(s, i, j);
        }
        AwaitedAfterSend(s, i, a, s.sends[j].phase.lease, n);
      }
    }
  }

  lemma AwaitedAfterDeliver(c: Config, s: State, d: nat, b: DeliverAction, lease: Lease, n: nat)
    requires CanDeliver(c, s, d, b) && Awaited(s, lease, n)
    ensures Awaited(DoDeliver(c, s, d, b), lease, n)
  {
    if b.TryClaim? { ClaimEffects(c, s, d, b); } else { OnlyClaimMatches(c, s, d, b); }
  }

  lemma ReachableDeliverStep(c: Config, s: State, d: nat, b: DeliverAction)
    requires Reachable(s) && CanDeliver(c, s, d, b)
    ensures Reachable(DoDeliver(c, s, d, b))
  {
    var t := DoDeliver(c, s, d, b);
    forall i, n | Carries(t, i, n) && !t.sends[i].phase.Cancelling? ensures Awaited(t, t.sends[i].phase.lease, n) {
      assert t.sends == s.sends && Carries(s, i, n);
      AwaitedAfterDeliver(c, s, d, b, s.sends[i].phase.lease, n);
    }
  }

  /** With one destination per local address, no waiting request is ever lost before CloseAll. */
  lemma {:induction false} WaitingRequestsStayReachable(c: Config, states: seq<State>, steps: seq<Step>, k: nat)
    requires Run(c, states, steps) && k < |states|
    requires forall m :: 0 <= m < k ==> OneDestination(states[m]) && !steps[m].CloseAll?
    ensures Reachable(states[k])
  {
    if k > 0 {
      WaitingRequestsStayReachable(c, states, steps, k - 1);
      RunKeepsInv(c, states, steps, k - 1);
      assert StepTaken(c, states, steps, k - 1);
      match steps[k - 1]
      case SendStep(i, a) => ReachableSendStep(c, states[k - 1], i, a);
      case DeliverStep(d, b) => ReachableDeliverStep(c, states[k - 1], d, b);
    }
  }

  // ---- How a Deliver ends ----

  /** Steps a Deliver has left at most. */
  function Remaining(p: DeliverPhase): nat {
    match p
    case Arrived => 5
    case Checking(_) => 4
    case Claiming(_) => 3
    case Pushing(_) => 1
    case Rereading => 2
    case Judging(_) => 1
    case Finished(_) => 0
  }

  /**
   A Deliver always has a step to take until it is finished, each takes it nearer the end, and once
   finished it stays with the one outcome it has.
   */
  lemma DeliverEndsOnce(c: Config, s: State, st: Step, d: nat)
    requires d in s.delivers
    ensures !s.delivers[d].phase.Finished? <==> exists b :: CanDeliver(c, s, d, b)
    ensures CanDo(c, s, st) ==>
              && d in Do(c, s, st).delivers
              && (if st.DeliverStep? && st.d == d
                  then Remaining(Do(c, s, st).delivers[d].phase) < Remaining(s.delivers[d].phase)
                       && Do(c, s, st).delivers[d].delivery == s.delivers[d].delivery
                  else Do(c, s, st).delivers[d] == s.delivers[d])
  {
    if !s.delivers[d].phase.Finished? {
      assert CanDeliver(c, s, d, NextAction(s.delivers[d].phase));
    }
    if CanDo(c, s, st) && st.DeliverStep? && st.d == d {
      DeliverAdvances(c, s, d, st.b);
    }
  }

  function NextAction(p: DeliverPhase): DeliverAction {
    match p
    case Arrived => Lookup
    case Checking(_) => Check
    case Claiming(_) => TryClaim(0, 0)
    case Pushing(_) => Push
    case Rereading => Reread
    case _ => Judge
  }

  lemma DeliverAdvances(c: Config, s: State, d: nat, b: DeliverAction)
    requires d in s.delivers && CanDeliver(c, s, d, b)
    ensures Remaining(NextDeliver(c, s, d, b).phase) < Remaining(s.delivers[d].phase)
    ensures NextDeliver(c, s, d, b).delivery == s.delivers[d].delivery
  {
  }

  /** The key was answered, and what verified then is on record. */
  predicate AnsweredWith(s: State, k: Key, done: Completed) {
    k in s.tables.recentDone && s.tables.recentDone[k] == done
  }

  lemma SendKeepsAnswered(s: State, i: nat, a: SendAction, k: Key, done: Completed)
    requires CanSend(s, i, a) && AnsweredWith(s, k, done)
    ensures AnsweredWith(DoSend(s, i, a), k, done) || (a.Register? && KeyOf(s.sends[i].phase.lease) == k)
  {
  }

  lemma DeliverKeepsAnswered(c: Config, s: State, d: nat, b: DeliverAction, k: Key, done: Completed)
    requires Disjoint(s.tables) && CanDeliver(c, s, d, b) && AnsweredWith(s, k, done)
    ensures AnsweredWith(DoDeliver(c, s, d, b), k, done)
         || (b.TryClaim? && |s.tables.recentDone| + 1 >= GC_THRESHOLD && Stale(done, b.gcAt))
  {
    if b.TryClaim? {
      if StillPending(s.tables, s.delivers[d].Key(), s.delivers[d].phase.ifl) {
        ClaimKeepsAnswered(s.tables, s.delivers[d].Key(), s.delivers[d].phase.ifl, b.now, b.gcAt, k);
      }
    } else {
      OnlyClaimMatches(c, s, d, b);
    }
  }

  lemma ClaimKeepsAnswered(t: Tables, claimed: Key, ifl: Inflight, now: int, gcAt: int, k: Key)
    requires Disjoint(t) && StillPending(t, claimed, ifl) && k in t.recentDone
    ensures var after := Claimed(t, claimed, ifl, now, gcAt).recentDone;
            (k in after && after[k] == t.recentDone[k])
            || (|t.recentDone| + 1 >= GC_THRESHOLD && Stale(t.recentDone[k], gcAt))
  {
    assert claimed != k;
  }

  // ---- The engine's own codec ----

  /** Receiver.dispatch hands only responses that decode to Deliver; the matcher verifies with MD5. */
  function Radius(crypto: Crypto, secret: seq<byte>): Config {
    Config(
      wire =>
        match DecodeBytes(wire, secret)
        case Err(_) => None
        case Ok(p) => if Codes.IsResponse(p.code) then Some(p) else None,
      (x: Delivery, requestAuth: Digest) => Verifies(crypto, secret, x, requestAuth))
  }

  /**
   With that codec, the reply of a successful Send decodes from its datagram, has the attempt's
   Identifier, and its Response Authenticator is right for the authenticator that attempt sent.
   */
  lemma RepliesAreAuthentic(crypto: Crypto, secret: seq<byte>, states: seq<State>, steps: seq<Step>, k: nat, i: nat)
    requires Run(Radius(crypto, secret), states, steps) && k < |states|
    requires i in states[k].sends && states[k].sends[i].phase.Returned? && states[k].sends[i].phase.result.Replied?
    ensures var r := states[k].sends[i].phase.result;
            && DecodeBytes(r.delivery.wire, secret) == Ok(r.delivery.reply)
            && r.delivery.reply.identifier == r.lease.id && r.token in states[k].issued
            && Sliceable(r.delivery.wire)
            && ResponseAuthValid(
                 crypto, r.delivery.reply, states[k].issued[r.token].requestAuth, r.delivery.wire, secret)
  {
    ReturnedReplyIsGenuine(Radius(crypto, secret), states, steps, k, i);
  }

  /** Deliver never slices past the end: what it is handed was accepted by Decode. */
  lemma DeliveriesAreSliceable(crypto: Crypto, secret: seq<byte>, states: seq<State>, steps: seq<Step>, k: nat, d: nat)
    requires Run(Radius(crypto, secret), states, steps) && k < |states| && d in states[k].delivers
    ensures Sliceable(states[k].delivers[d].delivery.wire)
  {
    RunKeepsInv(Radius(crypto, secret), states, steps, k);
    WireOfDecode(states[k].delivers[d].delivery.wire, secret);
  }
}
