/** Listener and pool together: a request sent for a subscriber is acknowledged for that subscriber. */
module Dispatch {
  import opened Wrappers
  import opened Bytes
  import opened Attributes
  import opened Packets
  import opened Handler
  import Pool

  /** The three indexes of a pool, and the pool's lookup by them, as the listener is given it. */
  datatype Indexes = Indexes(bySession: Pool.Index, byUser: Pool.Index, byIp: Pool.Index) {
    function Directory(): seq<Attribute> -> Option<nat> {
      list => Pool.IndexedLookup(bySession, byUser, byIp, list)
    }

    ghost predicate Of(all: seq<Pool.Identity>) {
      && Pool.Indexes(bySession, all, Pool.Session)
      && Pool.Indexes(byUser, all, Pool.Username)
      && Pool.Indexes(byIp, all, Pool.FramedIp)
    }
  }

  lemma OtherTypeKept(a: seq<Attribute>, b: seq<Attribute>, at: nat, typ: byte)
    requires |a| == |b| && at < |a| && a[at].typ != typ && b[at].typ != typ
    requires forall i :: 0 <= i < |a| && i != at ==> a[i] == b[i]
    ensures Get(a, typ) == Get(b, typ)
  {
    match FirstIndex(a, typ)
    case Some(i) => FirstIndexIs(b, typ, i);
    case None =>
      match FirstIndex(b, typ)
      case Some(j) => FirstIndexIs(a, typ, j);
      case None =>
  }

  lemma SameTarget(a: seq<Attribute>, b: seq<Attribute>, at: nat, x: Indexes)
    requires |a| == |b| && at < |a| && a[at].typ == b[at].typ == MESSAGE_AUTHENTICATOR
    requires forall i :: 0 <= i < |a| && i != at ==> a[i] == b[i]
    ensures x.Directory()(a) == x.Directory()(b)
  {
    OtherTypeKept(a, b, at, ACCT_SESSION_ID);
    OtherTypeKept(a, b, at, USER_NAME);
    OtherTypeKept(a, b, at, FRAMED_IP_ADDRESS);
  }

  /** Filling in the Message-Authenticator does not change whom a request names. */
  lemma EncodeKeepsTarget(c: Crypto, p: PacketValue, random: Option<Digest>, x: Indexes)
    requires HasMessageAuth(p.attributes) && Encoding(c, p, random).result.Ok?
    ensures x.Directory()(Encoding(c, p, random).after.attributes) == x.Directory()(p.attributes)
  {
    var after := Encoding(c, p, random).after.attributes;
    var at := FirstIndex(p.attributes, MESSAGE_AUTHENTICATOR).value;
    EncodeDecodeRoundTrip(c, p, random);
    EncodedAttributes(c, p, random);
    SameTarget(p.attributes, after, at, x);
  }

  /** A well-formed request is answered as `found` says: acknowledged for that subscriber, or refused with 503. */
  predicate AnsweredFor(v: Verdict, kind: Kind, found: Option<nat>) {
    match found
    case Some(i) => v.Ack? && v.target == i && v.kind == kind
    case None => v.Nak? && v.cause == SESSION_CONTEXT_NOT_FOUND && v.kind == kind
  }

  /** A CoA or Disconnect request with well-formed vendor attributes, ready to be encoded. */
  ghost predicate Request(c: Crypto, p: PacketValue, random: Option<Digest>) {
    KindOf(p.code).Some? && HasMessageAuth(p.attributes) && !BadVSA(p.attributes) && Encoding(c, p, random).result.Ok?
  }

  ghost function JudgeEncoded(c: Crypto, p: PacketValue, random: Option<Digest>, x: Indexes): Verdict
    requires Request(c, p, random)
  {
    Judge(c, p.secret, x.Directory(), Encoding(c, p, random).result.value)
  }

  lemma AnsweredByIndexes(c: Crypto, p: PacketValue, random: Option<Digest>, x: Indexes)
    requires Request(c, p, random)
    ensures AnsweredFor(JudgeEncoded(c, p, random, x), KindOf(p.code).value, x.Directory()(p.attributes))
  {
    EncodedRequestIsAnswered(c, p, random, x.Directory());
    EncodeDecodeRoundTrip(c, p, random);
    EncodeKeepsTarget(c, p, random, x);
  }

  /**
   When no two subscribers share a key, an encoded request is acknowledged for the subscriber that a scan
   of the whole pool finds for its attributes, or refused with 503 when the scan finds none.
   */
  lemma RequestReachesItsTarget(c: Crypto, p: PacketValue, random: Option<Digest>, x: Indexes, all: seq<Pool.Identity>)
    requires Request(c, p, random) && x.Of(all) && Pool.AllDistinct(all)
    ensures AnsweredFor(JudgeEncoded(c, p, random, x), KindOf(p.code).value, Pool.LinearLookup(all, p.attributes))
  {
    AnsweredByIndexes(c, p, random, x);
    Pool.LookupIsLinear(x.bySession, x.byUser, x.byIp, all, p.attributes);
  }

  /** The first attribute of the type has this value. */
  predicate Names(list: seq<Attribute>, typ: byte, value: seq<byte>) {
    Get(list, typ) == Some(Attribute(typ, value))
  }

  /** By its code, 43 for CoA and 40 for Disconnect. */
  function KindByCode(code: byte): Kind {
    if code == 43 then CoA else Disconnect
  }

  lemma AnsweredByKind(c: Crypto, p: PacketValue, random: Option<Digest>, x: Indexes)
    requires Request(c, p, random)
    ensures p.code in {40, 43}
    ensures AnsweredFor(JudgeEncoded(c, p, random, x), KindByCode(p.code), x.Directory()(p.attributes))
  {
    AnsweredByIndexes(c, p, random, x);
  }

  /**
   Naming subscriber i by session id reaches subscriber i, whatever else the request says and whatever
   the other two indexes hold.
   */
  lemma SessionIdReachesSubscriber(
      c: Crypto, p: PacketValue, random: Option<Digest>, x: Indexes, creds: seq<seq<byte>>, n: nat, i: nat)
    requires creds != [] && i < n <= 0x1_0000_0000
    requires Pool.Indexes(x.bySession, Pool.Identities(creds, n), Pool.Session)
    requires Request(c, p, random) && Names(p.attributes, 44, Pool.SessionId(i))
    ensures AnsweredFor(JudgeEncoded(c, p, random, x), KindByCode(p.code), Some(i))
  {
    var all, k := Pool.Identities(creds, n), Pool.SessionId(i);
    Pool.SessionsDistinct(creds, n);
    Pool.KeysById(creds, i);
    IndexFindsOwner(x.bySession, all, Pool.Session, i);
    AnsweredByKind(c, p, random, x);
  }

  /** The request names nobody of these by session id. */
  predicate NoSession(list: seq<Attribute>, all: seq<Pool.Identity>) {
    forall j :: 0 <= j < |all| ==> all[j].session == [] || !Names(list, 44, all[j].session)
  }

  predicate NoUserName(list: seq<Attribute>, all: seq<Pool.Identity>) {
    forall j :: 0 <= j < |all| ==> all[j].username == [] || !Names(list, 1, all[j].username)
  }

  lemma NotFound(m: Pool.Index, all: seq<Pool.Identity>, f: Pool.Field, k: seq<byte>)
    requires Pool.Indexes(m, all, f) && forall j :: 0 <= j < |all| ==> Pool.Key(all[j], f) != k
    ensures k !in m
  {
    assert k in m ==> Pool.LastWith(all, f, k, m[k]);
  }

  lemma FoundLast(m: Pool.Index, all: seq<Pool.Identity>, f: Pool.Field, i: nat)
    requires Pool.Indexes(m, all, f) && i < |all|
    requires forall j :: i < j < |all| ==> Pool.Key(all[j], f) != Pool.Key(all[i], f)
    ensures Pool.At(m, Pool.Key(all[i], f)) == Some(i)
  {
    var k := Pool.Key(all[i], f);
    assert k in m && Pool.LastWith(all, f, k, m[k]);
  }

  lemma ReadAs(list: seq<Attribute>, typ: byte)
    ensures GetString(list, typ) == [] || Names(list, typ, GetString(list, typ))
    ensures forall value :: Names(list, typ, value) ==> GetString(list, typ) == value
  {
  }

  lemma SkipsSession(x: Indexes, all: seq<Pool.Identity>, list: seq<Attribute>, session: seq<byte>)
    requires x.Of(all) && NoSession(list, all) && (session == [] || Names(list, 44, session))
    ensures session == [] || session !in x.bySession
  {
    if session != [] { NotFound(x.bySession, all, Pool.Session, session); }
  }

  lemma SkipsUserName(x: Indexes, all: seq<Pool.Identity>, list: seq<Attribute>, user: seq<byte>)
    requires x.Of(all) && NoUserName(list, all) && (user == [] || Names(list, 1, user))
    ensures user == [] || user !in x.byUser
  {
    if user != [] { NotFound(x.byUser, all, Pool.Username, user); }
  }

  lemma ByUserName(x: Indexes, all: seq<Pool.Identity>, list: seq<Attribute>, user: seq<byte>)
    requires x.Of(all) && NoSession(list, all) && Names(list, 1, user) && user != [] && user in x.byUser
    ensures x.Directory()(list) == Pool.At(x.byUser, user)
  {
    ReadAs(list, 44);
    SkipsSession(x, all, list, GetString(list, 44));
    ReadAs(list, 1);
  }

  /** Without a session id in use, a user name reaches the last subscriber that has it. */
  lemma UserNameReachesSubscriber(
      c: Crypto, p: PacketValue, random: Option<Digest>, x: Indexes, all: seq<Pool.Identity>, i: nat)
    requires x.Of(all) && i < |all| && all[i].username != []
    requires forall j :: i < j < |all| ==> all[j].username != all[i].username
    requires Request(c, p, random) && NoSession(p.attributes, all) && Names(p.attributes, 1, all[i].username)
    ensures AnsweredFor(JudgeEncoded(c, p, random, x), KindByCode(p.code), Some(i))
  {
    FoundLast(x.byUser, all, Pool.Username, i);
    ByUserName(x, all, p.attributes, all[i].username);
    AnsweredByKind(c, p, random, x);
  }

  /** The address of subscriber i: 10, then its three low octets. */
  function Host(i: nat): seq<byte> {
    [10, (i / 0x1_0000 % 0x100) as byte, (i / 0x100 % 0x100) as byte, (i % 0x100) as byte]
  }

  lemma LookupByAddress(x: Indexes, all: seq<Pool.Identity>, list: seq<Attribute>)
    requires x.Of(all) && NoSession(list, all) && NoUserName(list, all)
    ensures x.Directory()(list)
            == var ip := GetIPv4(list, 8);
               if ip.Some? && |ip.value| == 4 then Pool.At(x.byIp, Pool.Dotted(ip.value)) else None
  {
    ReadAs(list, 44);
    SkipsSession(x, all, list, GetString(list, 44));
    ReadAs(list, 1);
    SkipsUserName(x, all, list, GetString(list, 1));
  }

  lemma AddressRead(list: seq<Attribute>)
    ensures forall value :: Names(list, 8, value) ==> GetIPv4(list, 8) == if |value| == 4 then Some(value) else None
    ensures GetIPv4(list, 8).Some? ==> Names(list, 8, GetIPv4(list, 8).value) && |GetIPv4(list, 8).value| == 4
  {
  }

  lemma AddressKey(creds: seq<seq<byte>>, n: nat, j: nat)
    requires creds != [] && j < n <= 0x1_0000_0000
    ensures Pool.Key(Pool.Identities(creds, n)[j], Pool.FramedIp) == Pool.Dotted(Host(j))
  {
    Pool.KeysById(creds, j);
    Pool.AddressOctets(j);
  }

  lemma HostRepeats(i: nat, j: nat)
    requires i < j < 0x1_0000_0000 && Host(i) == Host(j)
    ensures j >= i + 0x100_0000
  {
    Pool.AddressOctets(i);
    Pool.AddressOctets(j);
    Pool.AddressRepeats(i, j);
  }

  /**
   Without a session id or user name in use, an address reaches its subscriber; above 2^24 subscribers, the last of
   those that share it.
   */
  lemma AddressReachesSubscriber(
      c: Crypto, p: PacketValue, random: Option<Digest>, x: Indexes, creds: seq<seq<byte>>, n: nat, i: nat)
    requires creds != [] && i < n <= 0x1_0000_0000 && n <= i + 0x100_0000 && x.Of(Pool.Identities(creds, n))
    requires NoSession(p.attributes, Pool.Identities(creds, n)) && NoUserName(p.attributes, Pool.Identities(creds, n))
    requires Request(c, p, random) && Names(p.attributes, 8, Host(i))
    ensures AnsweredFor(JudgeEncoded(c, p, random, x), KindByCode(p.code), Some(i))
  {
    var all := Pool.Identities(creds, n);
    AddressKey(creds, n, i);
    forall j | i < j < n ensures Pool.Key(all[j], Pool.FramedIp) != Pool.Key(all[i], Pool.FramedIp) {
      AddressKey(creds, n, j);
      if Pool.Dotted(Host(j)) == Pool.Dotted(Host(i)) {
        Pool.DottedInjective(Host(j), Host(i));
        HostRepeats(i, j);
      }
    }
    FoundLast(x.byIp, all, Pool.FramedIp, i);
    AddressRead(p.attributes);
    LookupByAddress(x, all, p.attributes);
    AnsweredByKind(c, p, random, x);
  }

  /** Anything else where the address should be, a value of another length say, reaches nobody. */
  lemma OtherAddressReachesNobody(
      c: Crypto, p: PacketValue, random: Option<Digest>, x: Indexes, creds: seq<seq<byte>>, n: nat)
    requires creds != [] && n <= 0x1_0000_0000 && x.Of(Pool.Identities(creds, n))
    requires NoSession(p.attributes, Pool.Identities(creds, n)) && NoUserName(p.attributes, Pool.Identities(creds, n))
    requires Request(c, p, random) && forall i :: 0 <= i < n ==> !Names(p.attributes, 8, Host(i))
    ensures AnsweredFor(JudgeEncoded(c, p, random, x), KindByCode(p.code), None)
  {
    var all, list := Pool.Identities(creds, n), p.attributes;
    LookupByAddress(x, all, list);
    AnsweredByKind(c, p, random, x);
    AddressRead(list);
    if GetIPv4(list, 8).Some? { NoSuchHost(x, creds, n, GetIPv4(list, 8).value); }
  }

  lemma NoSuchHost(x: Indexes, creds: seq<seq<byte>>, n: nat, value: seq<byte>)
    requires creds != [] && n <= 0x1_0000_0000 && x.Of(Pool.Identities(creds, n))
    requires |value| == 4 && forall i :: 0 <= i < n ==> Host(i) != value
    ensures Pool.Dotted(value) !in x.byIp
  {
    var all := Pool.Identities(creds, n);
    forall j | 0 <= j < n ensures Pool.Key(all[j], Pool.FramedIp) != Pool.Dotted(value) {
      AddressKey(creds, n, j);
      if Pool.Dotted(Host(j)) == Pool.Dotted(value) { Pool.DottedInjective(Host(j), value); }
    }
    NotFound(x.byIp, all, Pool.FramedIp, Pool.Dotted(value));
  }

  lemma IndexFindsOwner(m: Pool.Index, all: seq<Pool.Identity>, f: Pool.Field, i: nat)
    requires Pool.Indexes(m, all, f) && Pool.Distinct(all, f) && i < |all|
    ensures Pool.At(m, Pool.Key(all[i], f)) == Some(i)
  {
    var k := Pool.Key(all[i], f);
    assert k in m && Pool.LastWith(all, f, k, m[k]);
  }

  /** A request by a user name that two subscribers share is acknowledged for one no earlier than the later of them. */
  lemma SharedUserNameReachesTheLast(
      c: Crypto, p: PacketValue, random: Option<Digest>, x: Indexes, all: seq<Pool.Identity>, i: nat, j: nat)
    requires x.Of(all) && i < j < |all| && all[i].username == all[j].username
    requires Request(c, p, random) && NoSession(p.attributes, all)
    requires Names(p.attributes, 1, all[i].username) && all[i].username != []
    ensures var v := JudgeEncoded(c, p, random, x); v.Ack? && v.target >= j
  {
    AnsweredByIndexes(c, p, random, x);
    Pool.SharedKeyGoesToTheLast(x.byUser, all, Pool.Username, i, j);
    ByUserName(x, all, p.attributes, all[i].username);
  }
}
