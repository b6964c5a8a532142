/** The outstanding-request table (pkg/io/matcher.go). Each critical section is one function here. */
module Matcher {
  import opened Wrappers
  import opened Bytes
  import opened Packets

  /** Local address and Identifier; the destination is not part of it. */
  datatype Key = Key(localAddr: string, identifier: byte)

  /** One registered request; `token` stands for the identity of the inflight object. */
  datatype Inflight = Inflight(token: nat, requestAuth: Digest, subId: nat)

  datatype Completed = Completed(requestAuth: Digest, subId: nat, completedAt: int)

  datatype Delivery = Delivery(reply: PacketValue, wire: seq<byte>)

  /** `created` counts the inflight objects made so far. */
  datatype Tables = Tables(pending: map<Key, Inflight>, recentDone: map<Key, Completed>, created: nat)

  const GC_THRESHOLD: nat := 1024
  const COMPLETED_TTL_MS: int := 30_000

  function Registered(t: Tables, k: Key, requestAuth: Digest, subId: nat): Tables {
    Tables(t.pending[k := Inflight(t.created, requestAuth, subId)], t.recentDone - {k}, t.created + 1)
  }

  function Cancelled(t: Tables, k: Key): Tables {
    t.(pending := t.pending - {k})
  }

  /** The inflight entry for the key and, only when there is none, what was recently done. */
  function Found(t: Tables, k: Key): (Option<Inflight>, Option<Completed>) {
    if k in t.pending then (Some(t.pending[k]), None)
    else (None, if k in t.recentDone then Some(t.recentDone[k]) else None)
  }

  predicate StillPending(t: Tables, k: Key, ifl: Inflight) {
    k in t.pending && t.pending[k].token == ifl.token
  }

  predicate Stale(c: Completed, gcAt: int) {
    c.completedAt < gcAt - COMPLETED_TTL_MS
  }

  function Collected(recentDone: map<Key, Completed>, gcAt: int): map<Key, Completed> {
    if |recentDone| < GC_THRESHOLD then recentDone
    else map k | k in recentDone && !Stale(recentDone[k], gcAt) :: recentDone[k]
  }

  /** The claim of a pending entry: out of `pending`, into `recentDone`, then a sweep. */
  function Claimed(t: Tables, k: Key, ifl: Inflight, now: int, gcAt: int): Tables {
    t.(pending := t.pending - {k},
       recentDone := Collected(t.recentDone[k := Completed(ifl.requestAuth, ifl.subId, now)], gcAt))
  }

  function ClosedAll(t: Tables): Tables {
    t.(pending := map[], recentDone := map[])
  }

  /** Whether a decoded reply verifies against a request's authenticator. */
  predicate Verifies(crypto: Crypto, secret: seq<byte>, d: Delivery, requestAuth: Digest) {
    Sliceable(d.wire) && ResponseAuthValid(crypto, d.reply, requestAuth, d.wire, secret)
  }

  predicate Disjoint(t: Tables) {
    t.pending.Keys !! t.recentDone.Keys
  }

  /** No section puts a key into both tables. */
  lemma SectionsKeepDisjoint(t: Tables, k: Key, auth: Digest, subId: nat, ifl: Inflight, now: int, gcAt: int)
    requires Disjoint(t)
    ensures Disjoint(Registered(t, k, auth, subId)) && Disjoint(Cancelled(t, k)) && Disjoint(ClosedAll(t))
    ensures Disjoint(Claimed(t, k, ifl, now, gcAt))
  {
    assert Collected(t.recentDone[k := Completed(ifl.requestAuth, ifl.subId, now)], gcAt).Keys
        <= t.recentDone.Keys + {k};
  }

  datatype Outcome = Delivered | ValidationFailed | DuplicateReply | UnmatchedReply

  class ReplyMatcher {
    var pending: map<Key, Inflight>
    var recentDone: map<Key, Completed>
    var created: nat

    function Value(): Tables
      reads this
    {
      Tables(pending, recentDone, created)
    }

    constructor ()
      ensures Value() == Tables(map[], map[], 0)
    {
      pending, recentDone, created := map[], map[], 0;
    }

    method Register(k: Key, requestAuth: Digest, subId: nat) returns (ifl: Inflight)
      modifies this
      ensures Value() == Registered(old(Value()), k, requestAuth, subId)
      ensures ifl == Inflight(old(created), requestAuth, subId)
    {
      ifl := Inflight(created, requestAuth, subId);
      created := created + 1;
      pending := pending[k := ifl];
      recentDone := recentDone - {k};
    }

    method Cancel(k: Key)
      modifies this
      ensures Value() == Cancelled(old(Value()), k)
    {
      if k in pending {
        pending := pending - {k};
      }
    }

    /** Sweeps stale entries once the table has reached the threshold. */
    method GcLocked(gcAt: int)
      modifies this`recentDone
      ensures recentDone == Collected(old(recentDone), gcAt)
    {
      if |recentDone| < GC_THRESHOLD {
        return;
      }
      var todo := recentDone.Keys;
      while todo != {}
        invariant todo <= old(recentDone).Keys
        invariant recentDone == map k | k in old(recentDone) && (k in todo || !Stale(old(recentDone)[k], gcAt))
                                   :: old(recentDone)[k]
        decreases todo
      {
        var k :| k in todo;
        todo := todo - {k};
        if Stale(recentDone[k], gcAt) {
          recentDone := recentDone - {k};
        }
      }
    }

    /** The second critical section of Deliver. */
    method Claim(k: Key, ifl: Inflight, now: int, gcAt: int) returns (claimed: bool)
      modifies this
      ensures claimed <==> StillPending(old(Value()), k, ifl)
      ensures Value() == if claimed then Claimed(old(Value()), k, ifl, now, gcAt) else old(Value())
    {
      claimed := k in pending && pending[k].token == ifl.token;
      if claimed {
        pending := pending - {k};
        recentDone := recentDone[k := Completed(ifl.requestAuth, ifl.subId, now)];
        GcLocked(gcAt);
      }
    }

    /** Deliver with nothing running between its critical sections. */
    method Deliver(k: Key, d: Delivery, crypto: Crypto, secret: seq<byte>, now: int, gcAt: int)
      returns (outcome: Outcome)
      requires k.identifier == d.reply.identifier && Sliceable(d.wire)
      modifies this
      ensures outcome == Delivered <==>
              k in old(pending) && Verifies(crypto, secret, d, old(pending)[k].requestAuth)
      ensures outcome == ValidationFailed <==>
              k in old(pending) && !Verifies(crypto, secret, d, old(pending)[k].requestAuth)
      ensures outcome == DuplicateReply <==>
              k !in old(pending) && k in old(recentDone) && Verifies(crypto, secret, d, old(recentDone)[k].requestAuth)
      ensures Value() == if outcome == Delivered then Claimed(old(Value()), k, old(pending)[k], now, gcAt)
                         else old(Value())
    {
      if k in pending {
        var ifl := pending[k];
        if !Verifies(crypto, secret, d, ifl.requestAuth) {
          return ValidationFailed;
        }
        var claimed := Claim(k, ifl, now, gcAt);
        return Delivered;
      }
      if k in recentDone && Verifies(crypto, secret, d, recentDone[k].requestAuth) {
        return DuplicateReply;
      }
      return UnmatchedReply;
    }

    method CloseAll()
      modifies this
      ensures Value() == ClosedAll(old(Value()))
    {
      pending, recentDone := map[], map[];
    }
  }
}
