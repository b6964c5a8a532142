/**
 What the listener answers, read off the datagrams (sections 2.3, 3.1 and 3.5 of RFC 5176): who is dropped, refused
 or acknowledged, and the exact octets of every reply.
 */
module Answers {
  import opened Wrappers
  import opened Bytes
  import opened Attributes
  import opened Packets
  import opened Constructors
  import opened Handler
  import Readers
  import Vendor

  /** A Vendor-Specific attribute (26) that does not parse. */
  ghost predicate Malformed(list: seq<Attribute>) {
    exists i :: 0 <= i < |list| && list[i].typ == 26 && Vendor.ParseVSAs(list[i].value).None?
  }

  /** A CoA-Request (43) or Disconnect-Request (40) that authenticates itself. */
  predicate Heard(c: Crypto, secret: seq<byte>, wire: seq<byte>) {
    && DecodeBytes(wire, secret).Ok? && wire[0] in {40, 43}
    && MessageAuthValid(c, DecodeBytes(wire, secret).value.attributes, wire, secret)
  }

  /**
   Dropped unless it is an authentic CoA- or Disconnect-Request; then refused with 401 for a malformed
   Vendor-Specific attribute, else with 503 if the lookup finds nobody, else acknowledged for whom it finds.
   */
  lemma VerdictExactly(c: Crypto, secret: seq<byte>, lookup: seq<Attribute> -> Option<nat>, wire: seq<byte>)
    ensures var v := Judge(c, secret, lookup, wire);
            && (v.Drop? <==> !Heard(c, secret, wire))
            && (v.Drop? ==>
                  v.why == if DecodeBytes(wire, secret).Err? || wire[0] !in {40, 43} then Failure
                           else DroppedRequest(if wire[0] == 43 then CoA else Disconnect, wire[1]))
            && (!v.Drop? ==>
                  && DecodeBytes(wire, secret) == Ok(v.request)
                  && (v.kind == CoA <==> wire[0] == 43) && (v.kind == Disconnect <==> wire[0] == 40)
                  && (v.Nak? && v.cause == 401 <==> Malformed(v.request.attributes))
                  && (v.Nak? && v.cause == 503 <==>
                        !Malformed(v.request.attributes) && lookup(v.request.attributes) == None)
                  && (v.Ack? <==> !Malformed(v.request.attributes) && lookup(v.request.attributes).Some?)
                  && (v.Ack? ==> lookup(v.request.attributes) == Some(v.target)))
  {
    assert forall list :: Malformed(list) <==> BadVSA(list);
  }

  /** The code of the reply to a request: ACK or NAK of its own kind. */
  function ReplyCode(request: byte, ack: bool): byte {
    if request == 43 then if ack then 44 else 45 else if ack then 41 else 42
  }

  /** The reply on the wire, from the request on the wire. */
  ghost predicate Answers(x: Server, wire: seq<byte>, reply: seq<byte>) {
    && Heard(x.crypto, x.secret, wire)
    && var list := DecodeBytes(wire, x.secret).value.attributes;
       var cause := if Malformed(list) then Some(401) else if x.lookup(list) == None then Some(503) else None;
       IsReply(x.crypto, x.secret, reply, ReplyCode(wire[0], cause.None?), wire[1], wire[4..20], cause)
  }

  lemma FittingAnswers(x: Server, wire: seq<byte>, reply: seq<byte>)
    requires Fitting(x.crypto, x.secret, Judge(x.crypto, x.secret, x.lookup, wire), reply)
    ensures Answers(x, wire, reply)
  {
    VerdictExactly(x.crypto, x.secret, x.lookup, wire);
  }

  /** Every datagram written is the one answer to the datagram it was written for. */
  lemma OnlyAnswers(x: Server, j: Job)
    requires x.Allowed(j) && j.wrote
    ensures Answers(x, j.wire, j.reply)
  {
    FittingAnswers(x, j.wire, j.reply);
  }

  lemma CauseOctets()
    ensures ErrorCause(401) == Attribute(101, [0, 0, 1, 145]) && ErrorCause(503) == Attribute(101, [0, 0, 1, 247])
  {
  }

  /** How a reply is decoded: code, Identifier, and the Error-Cause of a NAK. */
  lemma AnswerDecodes(x: Server, wire: seq<byte>, reply: seq<byte>)
    requires Fitting(x.crypto, x.secret, Judge(x.crypto, x.secret, x.lookup, wire), reply)
    ensures DecodeBytes(wire, x.secret).Ok? && DecodeBytes(reply, x.secret).Ok?
    ensures var p, d := DecodeBytes(wire, x.secret).value, DecodeBytes(reply, x.secret).value;
            var v := Judge(x.crypto, x.secret, x.lookup, wire);
            && p.code in {40, 43} && d.identifier == p.identifier
            && (p.code == 43 ==> d.code == if v.Ack? then 44 else 45)
            && (p.code == 40 ==> d.code == if v.Ack? then 41 else 42)
            && Get(d.attributes, 101)
               == if v.Ack? then None
                  else if Malformed(p.attributes) then Some(Attribute(101, [0, 0, 1, 145]))
                  else Some(Attribute(101, [0, 0, 1, 247]))
  {
    VerdictExactly(x.crypto, x.secret, x.lookup, wire);
    CauseOctets();
  }

  lemma {:induction false} InReplies(jobs: seq<Job>, r: seq<byte>)
    ensures r in Replies(jobs) <==> exists i :: 0 <= i < |jobs| && jobs[i].wrote && jobs[i].reply == r
  {
    if jobs != [] {
      var init, last := jobs[..|jobs| - 1], jobs[|jobs| - 1];
      InReplies(init, r);
      assert forall i :: 0 <= i < |init| ==> init[i] == jobs[i];
      assert last == jobs[|jobs| - 1];
      if exists i :: 0 <= i < |init| && init[i].wrote && init[i].reply == r {
        var i :| 0 <= i < |init| && init[i].wrote && init[i].reply == r;
        assert jobs[i].wrote && jobs[i].reply == r;
      }
    }
  }

  /** Everything a listener sent is the answer to a datagram it received. */
  ghost predicate SentAreAnswers(x: Server, sent: seq<seq<byte>>, jobs: seq<Job>) {
    forall r :: r in sent ==> exists i :: 0 <= i < |jobs| && jobs[i].reply == r && Answers(x, jobs[i].wire, r)
  }

  lemma RepliesAreAnswers(x: Server, jobs: seq<Job>)
    requires x.AllAllowed(jobs)
    ensures SentAreAnswers(x, Replies(jobs), jobs)
  {
    forall r | r in Replies(jobs)
      ensures exists i :: 0 <= i < |jobs| && jobs[i].reply == r && Answers(x, jobs[i].wire, r)
    {
      InReplies(jobs, r);
      var i :| 0 <= i < |jobs| && jobs[i].wrote && jobs[i].reply == r;
      assert x.Allowed(jobs[i]);
      OnlyAnswers(x, jobs[i]);
    }
  }

  lemma SentInTurn(x: Server, jobs: seq<Job>)
    requires x.AllAllowed(jobs)
    ensures SentAreAnswers(x, x.InTurn(NOTHING_SEEN, jobs).sent, jobs)
  {
    InTurnAdds(x, jobs);
    RepliesAreAnswers(x, jobs);
  }

  /** The same of any number of readers, once none has a datagram in hand. */
  lemma SentTogether(x: Server, readers: nat, states: seq<Readers.State>, steps: seq<Readers.Step>, k: nat)
    requires Readers.Run(x, readers, states, steps) && k < |states| && Readers.Quiet(states[k])
    ensures SentAreAnswers(x, Readers.SeenOf(states[k]).sent, states[k].jobs)
  {
    var sent, jobs := Readers.SeenOf(states[k]).sent, states[k].jobs;
    Readers.ReadersTogether(x, readers, states, steps, k);
    RepliesAreAnswers(x, jobs);
    forall r | r in sent ensures r in Replies(jobs) { assert r in multiset(sent); }
  }

  /** Nothing is written for a datagram of another code, or that does not authenticate itself. */
  lemma OthersUnanswered(x: Server, j: Job)
    requires x.Allowed(j) && !Heard(x.crypto, x.secret, j.wire)
    ensures !j.wrote
  {
    VerdictExactly(x.crypto, x.secret, x.lookup, j.wire);
  }
}
