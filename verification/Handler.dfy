/**
 The CoA and Disconnect listener (pkg/server/handler.go): every datagram is answered or dropped, once.
 The two request kinds are handled alike; `Kind` carries what differs.
 */
module Handler {
  import opened Wrappers
  import opened Bytes
  import opened Attributes
  import opened Codes
  import opened Packets
  import opened Constructors
  import Vendor

  const UNSUPPORTED_ATTRIBUTE := 401
  const SESSION_CONTEXT_NOT_FOUND := 503

  datatype Kind = CoA | Disconnect

  function KindOf(code: byte): Option<Kind> {
    if code == COA_REQUEST then Some(CoA) else if code == DISCONNECT_REQUEST then Some(Disconnect) else None
  }

  function AckCode(k: Kind): byte { if k == CoA then COA_ACK else DISCONNECT_ACK }
  function NakCode(k: Kind): byte { if k == CoA then COA_NAK else DISCONNECT_NAK }

  /** What a datagram deserves. */
  datatype Verdict =
    | Drop(why: Record)
    | Nak(kind: Kind, request: PacketValue, cause: Cause)
    | Ack(kind: Kind, request: PacketValue, target: nat)

  type Cause = c: nat | c < 0x1_0000_0000

  /** Events submitted to the collector. */
  datatype Record =
    | Failure
    | DroppedRequest(kind: Kind, identifier: byte)
    | ReceivedRequest(kind: Kind, identifier: byte)
    | Acked(kind: Kind, identifier: byte, target: nat)
    | Naked(kind: Kind, identifier: byte, cause: nat)

  /** Some Vendor-Specific attribute of the list is malformed. */
  ghost predicate BadVSA(list: seq<Attribute>) {
    exists i :: 0 <= i < |list| && list[i].typ == VENDOR_SPECIFIC && Vendor.ParseVSAs(list[i].value).None?
  }

  ghost function JudgeRequest(lookup: seq<Attribute> -> Option<nat>, kind: Kind, p: PacketValue): Verdict {
    if BadVSA(p.attributes) then Nak(kind, p, UNSUPPORTED_ATTRIBUTE)
    else
      match lookup(p.attributes)
      case None => Nak(kind, p, SESSION_CONTEXT_NOT_FOUND)
      case Some(target) => Ack(kind, p, target)
  }

  /**
   Unreadable, foreign and unauthenticated datagrams are dropped; a malformed Vendor-Specific attribute
   is refused before the subscriber is looked up (section 3.5 of RFC 5176).
   */
  ghost function Judge(c: Crypto, secret: seq<byte>, lookup: seq<Attribute> -> Option<nat>, wire: seq<byte>): Verdict {
    match DecodeBytes(wire, secret)
    case Err(_) => Drop(Failure)
    case Ok(p) =>
      if KindOf(p.code).None? then Drop(Failure)
      else if !MessageAuthValid(c, p.attributes, wire, secret)
      then Drop(DroppedRequest(KindOf(p.code).value, p.identifier))
      else JudgeRequest(lookup, KindOf(p.code).value, p)
  }

  /**
   A reply fits a verdict: it is the datagram for the matching ACK or NAK code, the request's Identifier and
   Authenticator and the Error-Cause (none on an ACK), decodes as such, and its Message-Authenticator validates.
   */
  ghost predicate Fitting(c: Crypto, secret: seq<byte>, v: Verdict, reply: seq<byte>) {
    && !v.Drop? && DecodeBytes(reply, secret).Ok?
    && IsReply(c, secret, reply, if v.Ack? then AckCode(v.kind) else NakCode(v.kind), v.request.identifier,
               v.request.authenticator, if v.Ack? then None else Some(v.cause))
    && var d := DecodeBytes(reply, secret).value;
       && d.code == (if v.Ack? then AckCode(v.kind) else NakCode(v.kind))
       && d.identifier == v.request.identifier
       && Get(d.attributes, ERROR_CAUSE) == (if v.Ack? then None else Some(ErrorCause(v.cause)))
       && MessageAuthValid(c, d.attributes, reply, secret)
  }

  /** The events of one datagram: an authenticated request is reported before it is answered. */
  function Reported(v: Verdict, wrote: bool): seq<Record> {
    match v
    case Drop(why) => [why]
    case Nak(kind, request, cause) =>
      [ReceivedRequest(kind, request.identifier), if wrote then Naked(kind, request.identifier, cause) else Failure]
    case Ack(kind, request, target) =>
      [ReceivedRequest(kind, request.identifier), if wrote then Acked(kind, request.identifier, target) else Failure]
  }

  /** A callback started on its own goroutine. */
  datatype Callback = Callback(kind: Kind, target: nat, request: PacketValue)

  function CalledBack(v: Verdict, wrote: bool): seq<Callback> {
    if wrote && v.Ack? then [Callback(v.kind, v.target, v.request)] else []
  }

  /** All that can be seen of a listener from outside, beside what it received. */
  datatype Seen = Seen(
    acked: nat, naked: nat, dropped: nat, log: seq<Record>, sent: seq<seq<byte>>, callbacks: seq<Callback>)

  const NOTHING_SEEN := Seen(0, 0, 0, [], [], [])

  /** A request answered, or dropped because the reply could not be written. */
  function Responded(s: Seen, v: Verdict, wrote: bool, reply: seq<byte>): Seen
    requires !v.Drop?
  {
    if !wrote then s.(log := s.log + [Failure], dropped := s.dropped + 1)
    else
      match v
      case Nak(kind, request, cause) =>
        s.(sent := s.sent + [reply], log := s.log + [Naked(kind, request.identifier, cause)], naked := s.naked + 1)
      case Ack(kind, request, target) =>
        s.(sent := s.sent + [reply], log := s.log + [Acked(kind, request.identifier, target)], acked := s.acked + 1,
           callbacks := s.callbacks + [Callback(kind, target, request)])
  }

  /** One datagram handled; `reply` is what was written, if anything was. */
  function After(s: Seen, v: Verdict, wrote: bool, reply: seq<byte>): Seen {
    match v
    case Drop(why) => s.(log := s.log + [why], dropped := s.dropped + 1)
    case _ => Responded(s.(log := s.log + [ReceivedRequest(v.kind, v.request.identifier)]), v, wrote, reply)
  }

  /** One datagram handled: its bytes, whether a reply got on the wire, and that reply. */
  datatype Job = Job(wire: seq<byte>, wrote: bool, reply: seq<byte>)

  /** What judges a datagram. */
  datatype Server = Server(crypto: Crypto, secret: seq<byte>, lookup: seq<Attribute> -> Option<nat>) {
    ghost function Judged(j: Job): Verdict {
      Judge(crypto, secret, lookup, j.wire)
    }

    /** A reply gets on the wire only where the verdict calls for one, and then a fitting one. */
    ghost predicate Allowed(j: Job) {
      j.wire != [] && (j.wrote ==> Fitting(crypto, secret, Judged(j), j.reply))
    }

    ghost predicate AllAllowed(jobs: seq<Job>) {
      forall i :: 0 <= i < |jobs| ==> Allowed(jobs[i])
    }

    /** The datagrams handled one after another. */
    ghost function InTurn(s: Seen, jobs: seq<Job>): Seen {
      if jobs == [] then s
      else
        var last := jobs[|jobs| - 1];
        After(InTurn(s, jobs[..|jobs| - 1]), Judged(last), last.wrote, last.reply)
    }

    // The events, replies and callbacks of a list of datagrams.

    ghost function Records(jobs: seq<Job>): seq<Record> {
      if jobs == [] then []
      else
        var last := jobs[|jobs| - 1];
        Records(jobs[..|jobs| - 1]) + Reported(Judged(last), last.wrote)
    }

    ghost function Callbacks(jobs: seq<Job>): seq<Callback> {
      if jobs == [] then []
      else
        var last := jobs[|jobs| - 1];
        Callbacks(jobs[..|jobs| - 1]) + CalledBack(Judged(last), last.wrote)
    }

    /** How many were answered by an ACK. */
    ghost function Acks(jobs: seq<Job>): nat {
      if jobs == [] then 0
      else
        var last := jobs[|jobs| - 1];
        Acks(jobs[..|jobs| - 1]) + if last.wrote && Judged(last).Ack? then 1 else 0
    }
  }

  ghost function Replies(jobs: seq<Job>): seq<seq<byte>> {
    if jobs == [] then []
    else
      var last := jobs[|jobs| - 1];
      Replies(jobs[..|jobs| - 1]) + if last.wrote then [last.reply] else []
  }

  ghost function Wires(jobs: seq<Job>): seq<seq<byte>> {
    if jobs == [] then [] else Wires(jobs[..|jobs| - 1]) + [jobs[|jobs| - 1].wire]
  }

  // What one datagram adds.

  lemma AfterLogs(s: Seen, v: Verdict, wrote: bool, reply: seq<byte>)
    ensures After(s, v, wrote, reply).log == s.log + Reported(v, wrote)
  {
  }

  lemma AfterCalls(s: Seen, v: Verdict, wrote: bool, reply: seq<byte>)
    ensures var t := After(s, v, wrote, reply);
            t.callbacks == s.callbacks + CalledBack(v, wrote) && |t.callbacks| - t.acked == |s.callbacks| - s.acked
  {
  }

  lemma AfterSends(s: Seen, v: Verdict, wrote: bool, reply: seq<byte>)
    requires v.Drop? ==> !wrote
    ensures var t := After(s, v, wrote, reply);
            && t.sent == s.sent + (if wrote then [reply] else [])
            && |t.sent| - t.acked - t.naked == |s.sent| - s.acked - s.naked
  {
  }

  lemma AfterCounts(s: Seen, v: Verdict, wrote: bool, reply: seq<byte>)
    requires v.Drop? ==> !wrote
    ensures var t := After(s, v, wrote, reply);
            && t.acked == s.acked + (if wrote && v.Ack? then 1 else 0)
            && t.naked == s.naked + (if wrote && !v.Ack? then 1 else 0)
            && t.dropped == s.dropped + (if wrote then 0 else 1)
  {
  }

  lemma AllowedLast(x: Server, jobs: seq<Job>)
    requires x.AllAllowed(jobs) && jobs != []
    ensures x.AllAllowed(jobs[..|jobs| - 1]) && x.Allowed(jobs[|jobs| - 1])
    ensures x.Judged(jobs[|jobs| - 1]).Drop? ==> !jobs[|jobs| - 1].wrote
  {
    var init, last := jobs[..|jobs| - 1], jobs[|jobs| - 1];
    assert x.Allowed(last);
    forall i | 0 <= i < |init| ensures x.Allowed(init[i]) {
      assert init[i] == jobs[i];
    }
  }

  lemma {:induction false} InTurnLog(x: Server, jobs: seq<Job>)
    ensures x.InTurn(NOTHING_SEEN, jobs).log == x.Records(jobs)
  {
    if jobs != [] {
      var init, last := jobs[..|jobs| - 1], jobs[|jobs| - 1];
      InTurnLog(x, init);
      AfterLogs(x.InTurn(NOTHING_SEEN, init), x.Judged(last), last.wrote, last.reply);
    }
  }

  lemma {:induction false} InTurnCalls(x: Server, jobs: seq<Job>)
    ensures var t := x.InTurn(NOTHING_SEEN, jobs); t.callbacks == x.Callbacks(jobs) && |t.callbacks| == t.acked
  {
    if jobs != [] {
      var init, last := jobs[..|jobs| - 1], jobs[|jobs| - 1];
      InTurnCalls(x, init);
      AfterCalls(x.InTurn(NOTHING_SEEN, init), x.Judged(last), last.wrote, last.reply);
    }
  }

  lemma {:induction false} InTurnSent(x: Server, jobs: seq<Job>)
    requires x.AllAllowed(jobs)
    ensures var t := x.InTurn(NOTHING_SEEN, jobs); t.sent == Replies(jobs) && |t.sent| == t.acked + t.naked
  {
    if jobs != [] {
      var init, last := jobs[..|jobs| - 1], jobs[|jobs| - 1];
      AllowedLast(x, jobs);
      InTurnSent(x, init);
      AfterSends(x.InTurn(NOTHING_SEEN, init), x.Judged(last), last.wrote, last.reply);
    }
  }

  lemma {:induction false} InTurnTally(x: Server, jobs: seq<Job>)
    requires x.AllAllowed(jobs)
    ensures var t := x.InTurn(NOTHING_SEEN, jobs);
            && t.acked == x.Acks(jobs)
            && |jobs| == t.acked + t.naked + t.dropped
  {
    if jobs != [] {
      var init, last := jobs[..|jobs| - 1], jobs[|jobs| - 1];
      AllowedLast(x, jobs);
      InTurnTally(x, init);
      AfterCounts(x.InTurn(NOTHING_SEEN, init), x.Judged(last), last.wrote, last.reply);
    }
  }

  /**
   What is seen of a listener that handled some datagrams: the events, callbacks and fitting replies
   their verdicts call for, in order, and every datagram in one counter.
   */
  lemma InTurnAdds(x: Server, jobs: seq<Job>)
    requires x.AllAllowed(jobs)
    ensures var t := x.InTurn(NOTHING_SEEN, jobs);
            && t.log == x.Records(jobs) && t.callbacks == x.Callbacks(jobs) && t.sent == Replies(jobs)
            && t.acked == x.Acks(jobs)
            && |jobs| == t.acked + t.naked + t.dropped
            && |t.sent| == t.acked + t.naked && |t.callbacks| == t.acked
  {
    InTurnLog(x, jobs);
    InTurnCalls(x, jobs);
    InTurnSent(x, jobs);
    InTurnTally(x, jobs);
  }

  class Listener {
    const crypto: Crypto
    const secret: seq<byte>
    const lookup: seq<Attribute> -> Option<nat>

    var received: nat
    var acked: nat
    var naked: nat
    var dropped: nat
    var log: seq<Record>
    var sent: seq<seq<byte>>
    var callbacks: seq<Callback>

    /** The datagrams handled so far. */
    ghost var jobs: seq<Job>

    ghost function Value(): Seen
      reads this
    {
      Seen(acked, naked, dropped, log, sent, callbacks)
    }

    ghost function Self(): Server {
      Server(crypto, secret, lookup)
    }

    /** Everything seen is what the datagrams received so far call for. */
    ghost predicate Valid()
      reads this
    {
      secret != [] && received == |jobs| && Self().AllAllowed(jobs) && Value() == Self().InTurn(NOTHING_SEEN, jobs)
    }

    constructor (crypto: Crypto, secret: seq<byte>, lookup: seq<Attribute> -> Option<nat>)
      requires secret != []
      ensures Valid() && jobs == [] && Value() == NOTHING_SEEN
      ensures this.crypto == crypto && this.secret == secret && this.lookup == lookup
    {
      this.crypto, this.secret, this.lookup := crypto, secret, lookup;
      received, acked, naked, dropped := 0, 0, 0, 0;
      log, sent, callbacks := [], [], [];
      jobs := [];
    }

    /** Decodes every Vendor-Specific attribute, stopping at the first malformed one. */
    method HasBadVSA(list: seq<Attribute>) returns (bad: bool)
      ensures bad <==> BadVSA(list)
    {
      for i := 0 to |list|
        invariant forall j :: 0 <= j < i && list[j].typ == VENDOR_SPECIFIC ==> Vendor.ParseVSAs(list[j].value).Some?
      {
        if list[i].typ == VENDOR_SPECIFIC {
          var vsas := Vendor.DecodeVSAs(list[i].value);
          if vsas.None? {
            return true;
          }
        }
      }
      return false;
    }

    /** Builds and encodes the reply to a request; neither can fail. */
    method BuildReply(req: Packet, kind: Kind, cause: Option<Cause>) returns (encoded: seq<byte>)
      requires secret != []
      ensures DecodeBytes(encoded, secret).Ok?
      ensures var d := DecodeBytes(encoded, secret).value;
              && d.code == (if cause.None? then AckCode(kind) else NakCode(kind))
              && d.identifier == req.identifier
              && Get(d.attributes, ERROR_CAUSE) == (if cause.None? then None else Some(ErrorCause(cause.value)))
              && MessageAuthValid(crypto, d.attributes, encoded, secret)
      ensures IsReply(crypto, secret, encoded, if cause.None? then AckCode(kind) else NakCode(kind), req.identifier,
                      req.authenticator, cause)
    {
      var code := if cause.None? then AckCode(kind) else NakCode(kind);
      var built: Option<Packet>;
      if cause.None? {
        built := NewDynAuthAck(code, req, secret, []);
      } else {
        built := NewDynAuthNak(code, req, secret, cause.value, []);
      }
      var reply := built.value;
      ghost var list := if cause.Some? then [ErrorCause(cause.value)] else [];
      assert reply.Value() == DynAuthReply(code, req.identifier, req.authenticator, secret, list);
      DynAuthReplyOnWire(crypto, code, req.identifier, req.authenticator, secret, cause);
      ReplyOctets(crypto, code, req.identifier, req.authenticator, secret, cause);
      var e := reply.Encode(crypto, None);
      encoded := e.value;
    }

    /** Sends the reply and counts it, or counts the request as dropped when the write fails. */
    method Respond(req: Packet, kind: Kind, cause: Option<Cause>, target: nat, ghost v: Verdict)
      returns (wrote: bool, reply: seq<byte>)
      requires secret != []
      requires v == if cause.None? then Ack(kind, req.Value(), target) else Nak(kind, req.Value(), cause.value)
      modifies this`acked, this`naked, this`dropped, this`log, this`sent, this`callbacks
      ensures Value() == Responded(old(Value()), v, wrote, reply)
      ensures Fitting(crypto, secret, v, reply)
    {
      reply := BuildReply(req, kind, cause);
      wrote := *;
      if !wrote {
        log := log + [Failure];
        dropped := dropped + 1;
        return;
      }
      sent := sent + [reply];
      if cause.Some? {
        log := log + [Naked(kind, req.identifier, cause.value)];
        naked := naked + 1;
      } else {
        log := log + [Acked(kind, req.identifier, target)];
        acked := acked + 1;
        callbacks := callbacks + [Callback(kind, target, req.Value())];
      }
    }

    /** An authentic request: reported, then refused or acknowledged. */
    method Answer(pkt: Packet, kind: Kind, ghost v: Verdict) returns (wrote: bool, reply: seq<byte>)
      requires secret != [] && v == JudgeRequest(lookup, kind, pkt.Value())
      modifies this`acked, this`naked, this`dropped, this`log, this`sent, this`callbacks
      ensures Value() == After(old(Value()), v, wrote, reply)
      ensures Fitting(crypto, secret, v, reply)
    {
      var bad := HasBadVSA(pkt.attributes.items);
      log := log + [ReceivedRequest(kind, pkt.identifier)];
      if bad {
        wrote, reply := Respond(pkt, kind, Some(UNSUPPORTED_ATTRIBUTE), 0, v);
        return;
      }
      var target := lookup(pkt.attributes.items);
      if target.None? {
        wrote, reply := Respond(pkt, kind, Some(SESSION_CONTEXT_NOT_FOUND), 0, v);
        return;
      }
      wrote, reply := Respond(pkt, kind, None, target.value, v);
    }

    method Discard(why: Record)
      modifies this`log, this`dropped
      ensures Value() == After(old(Value()), Drop(why), false, [])
    {
      log := log + [why];
      dropped := dropped + 1;
    }

    /** The verdict on one datagram, carried out; nothing is written for one that is dropped. */
    method HandlePacket(wire: seq<byte>) returns (wrote: bool, reply: seq<byte>)
      requires secret != []
      modifies this`acked, this`naked, this`dropped, this`log, this`sent, this`callbacks
      ensures Value() == After(old(Value()), Judge(crypto, secret, lookup, wire), wrote, reply)
      ensures wrote ==> Fitting(crypto, secret, Judge(crypto, secret, lookup, wire), reply)
    {
      ghost var v := Judge(crypto, secret, lookup, wire);
      wrote, reply := false, [];
      var decoded := Decode(wire, secret);
      if decoded.Err? {
        Discard(Failure);
        return;
      }
      var pkt := decoded.value;
      var kind := KindOf(pkt.code);
      if kind.None? {
        Discard(Failure);
        return;
      }
      var authentic := pkt.ValidateMessageAuthenticator(crypto, wire, secret);
      if !authentic {
        Discard(DroppedRequest(kind.value, pkt.identifier));
        return;
      }
      wrote, reply := Answer(pkt, kind.value, v);
    }

    /** One datagram counted and handled. */
    method ReadOne(wire: seq<byte>)
      requires Valid() && wire != []
      modifies this
      ensures Valid() && |jobs| == |old(jobs)| + 1 && jobs[..|old(jobs)|] == old(jobs) && jobs[|old(jobs)|].wire == wire
    {
      received := received + 1;
      var wrote, reply := HandlePacket(wire);
      var job := Job(wire, wrote, reply);
      assert (jobs + [job])[..|jobs|] == jobs;
      jobs := jobs + [job];
    }

    /** A reader at work: every non-empty datagram is counted and handled, in the order of arrival. */
    method ReadLoop(datagrams: seq<seq<byte>>)
      requires Valid()
      modifies this
      ensures Valid() && Wires(jobs) == Wires(old(jobs)) + NonEmpty(datagrams)
    {
      for i := 0 to |datagrams|
        invariant Valid() && Wires(jobs) == Wires(old(jobs)) + NonEmpty(datagrams[..i])
      {
        assert datagrams[..i + 1][..i] == datagrams[..i];
        if datagrams[i] != [] {
          ReadOne(datagrams[i]);
        }
      }
      assert datagrams[..|datagrams|] == datagrams;
    }
  }

  function NonEmpty(datagrams: seq<seq<byte>>): seq<seq<byte>> {
    if datagrams == [] then []
    else NonEmpty(datagrams[..|datagrams| - 1])
         + if datagrams[|datagrams| - 1] == [] then [] else [datagrams[|datagrams| - 1]]
  }

  /**
   A CoA or Disconnect request that a client encodes under the listener's secret, with a
   Message-Authenticator, is never dropped: it is judged under its own kind and Identifier, refused with
   401 exactly if one of its Vendor-Specific attributes is malformed, and otherwise decided by the lookup.
   */
  lemma EncodedRequestIsAnswered(
      c: Crypto, p: PacketValue, random: Option<Digest>, lookup: seq<Attribute> -> Option<nat>)
    requires KindOf(p.code).Some? && HasMessageAuth(p.attributes) && Encoding(c, p, random).result.Ok?
    ensures var v := Judge(c, p.secret, lookup, Encoding(c, p, random).result.value);
            && !v.Drop? && v.kind == KindOf(p.code).value && v.request.identifier == p.identifier
            && |v.request.attributes| == |p.attributes|
            && (v.Nak? && v.cause == UNSUPPORTED_ATTRIBUTE) == BadVSA(p.attributes)
            && v.Ack? == (!BadVSA(p.attributes) && lookup(v.request.attributes).Some?)
  {
    EncodeDecodeRoundTrip(c, p, random);
    EncodedMessageAuthValidates(c, p, random);
    SameVSAs(p.attributes, Encoding(c, p, random).after.attributes);
  }

  lemma SameVSAs(a: seq<Attribute>, b: seq<Attribute>)
    requires |a| == |b| && HasMessageAuth(a)
    requires forall i :: 0 <= i < |a| ==> b[i] == a[i] || Some(i) == FirstIndex(a, MESSAGE_AUTHENTICATOR)
    requires b[FirstIndex(a, MESSAGE_AUTHENTICATOR).value].typ == MESSAGE_AUTHENTICATOR
    ensures BadVSA(a) == BadVSA(b)
  {
    var at := FirstIndex(a, MESSAGE_AUTHENTICATOR).value;
    assert forall i :: 0 <= i < |a| && i != at ==> a[i] == b[i];
  }

  /** A Vendor-Specific attribute built by EncodeVSA is never the cause of a refusal. */
  lemma EncodedVSAIsAccepted(list: seq<Attribute>, vendorId: nat, vendorType: byte, value: seq<byte>)
    requires vendorId < 0x1_0000_0000 && |value| <= Vendor.MAX_VSA_VALUE
    ensures BadVSA(list + [Attribute(VENDOR_SPECIFIC, PutU32(vendorId) + Tlv(Attribute(vendorType, value)))])
            <==> BadVSA(list)
  {
    var a := Attribute(VENDOR_SPECIFIC, PutU32(vendorId) + Tlv(Attribute(vendorType, value)));
    Vendor.VSARoundTrip(vendorId, vendorType, value);
    var longer := list + [a];
    assert longer[|list|] == a;
    if BadVSA(list) {
      var i :| 0 <= i < |list| && list[i].typ == VENDOR_SPECIFIC && Vendor.ParseVSAs(list[i].value).None?;
      assert longer[i] == list[i];
    }
  }
}
