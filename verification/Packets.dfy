/** Packet encoding, decoding and validation (pkg/radius/packet.go, section 3 of RFC 2865). */
module Packets {
  import opened Wrappers
  import opened Bytes
  import opened Attributes
  import opened Codes
  import opened Auth
  import Bits

  const MIN_PACKET_LENGTH: nat := 20
  const MAX_PACKET_LENGTH: nat := 4096
  const MESSAGE_AUTHENTICATOR_LENGTH: nat := 16
  const ZERO_AUTH: Digest := Zeros(16)

  /** What a Packet holds. */
  datatype PacketValue = PacketValue(
    code: byte,
    identifier: byte,
    authenticator: Digest,
    attributes: seq<Attribute>,
    requestAuthenticator: Digest,
    secret: seq<byte>)

  datatype EncodeError =
    | SecretRequired
    | AttributeTooLong(index: nat)
    | PacketTooLong(length: nat)
    | NoRandomness
    | UnknownCode
    | InvalidMessageAuthLength

  datatype DecodeError = TooShort | TooLong | LengthMismatch | TruncatedAttribute

  // ---- Wire form ----

  /** Length of the attribute section, from the value lengths alone. */
  function SectionLength(list: seq<Attribute>): nat {
    if list == [] then 0 else 2 + |list[0].value| + SectionLength(list[1..])
  }

  lemma {:induction false} SectionLengthIs(list: seq<Attribute>)
    requires Fits(list)
    ensures |AttrBytes(list)| == SectionLength(list)
  {
    if list != [] { SectionLengthIs(list[1..]); }
  }

  lemma {:induction false} SectionLengthAppend(list: seq<Attribute>, a: Attribute)
    ensures SectionLength(list + [a]) == SectionLength(list) + 2 + |a.value|
  {
    if list != [] {
      assert (list + [a])[1..] == list[1..] + [a];
      SectionLengthAppend(list[1..], a);
    } else {
      assert list + [a] == [a] && [a][1..] == [];
    }
  }

  predicate Sendable(list: seq<Attribute>) {
    Fits(list) && MIN_PACKET_LENGTH + |AttrBytes(list)| <= MAX_PACKET_LENGTH
  }

  function Header(code: byte, identifier: byte, length: nat, authenticator: Digest): (h: seq<byte>)
    requires length < 0x1_0000
    ensures |h| == MIN_PACKET_LENGTH
  {
    [code, identifier] + PutU16(length) + authenticator
  }

  /** The datagram for a packet as it stands: header, then attributes. */
  function Wire(p: PacketValue): (w: seq<byte>)
    requires Sendable(p.attributes)
    ensures |w| == MIN_PACKET_LENGTH + |AttrBytes(p.attributes)|
  {
    var body := AttrBytes(p.attributes);
    Header(p.code, p.identifier, MIN_PACKET_LENGTH + |body|, p.authenticator) + body
  }

  function Declared(wire: seq<byte>): nat
    requires |wire| >= 4
  {
    GetU16(wire[2..4])
  }

  /** Structural decoding; the datagram may carry bytes past the declared length. */
  function DecodeBytes(data: seq<byte>, secret: seq<byte>): Result<PacketValue, DecodeError> {
    if |data| < MIN_PACKET_LENGTH then Err(TooShort)
    else if |data| > MAX_PACKET_LENGTH then Err(TooLong)
    else if Declared(data) < MIN_PACKET_LENGTH || Declared(data) > |data| then Err(LengthMismatch)
    else
      match ParseTlvs(data[MIN_PACKET_LENGTH..Declared(data)])
      case None => Err(TruncatedAttribute)
      case Some(list) => Ok(PacketValue(data[0], data[1], data[4..20], list, ZERO_AUTH, secret))
  }

  lemma WireFields(p: PacketValue)
    requires Sendable(p.attributes)
    ensures var w := Wire(p);
            && Declared(w) == |w| && w[0] == p.code && w[1] == p.identifier
            && w[4..20] == p.authenticator && w[20..] == AttrBytes(p.attributes)
  {
    var w := Wire(p);
    assert w[2..4] == PutU16(|w|);
  }

  /** Decoding a packet's wire form gives back the packet. */
  lemma DecodeOfWire(p: PacketValue, secret: seq<byte>)
    requires Sendable(p.attributes)
    ensures DecodeBytes(Wire(p), secret) ==
            Ok(p.(requestAuthenticator := ZERO_AUTH, secret := secret))
  {
    var w := Wire(p);
    WireFields(p);
    ParseOfBytes(p.attributes);
    assert w[20..Declared(w)] == AttrBytes(p.attributes);
  }

  lemma HeaderOf(data: seq<byte>)
    requires |data| >= MIN_PACKET_LENGTH
    ensures Header(data[0], data[1], Declared(data), data[4..20]) == data[..20]
  {
    var n := Declared(data);
    assert n / 256 == data[2] as nat && n % 256 == data[3] as nat;
    assert PutU16(n) == data[2..4];
    assert data[..20] == [data[0], data[1]] + data[2..4] + data[4..20];
  }

  /**
   Decoding loses nothing: an accepted datagram is the wire form of the packet returned, followed
   by the bytes past its declared length.
   */
  lemma WireOfDecode(data: seq<byte>, secret: seq<byte>)
    requires DecodeBytes(data, secret).Ok?
    ensures var p := DecodeBytes(data, secret).value;
            && MIN_PACKET_LENGTH <= Declared(data) <= |data|
            && Sendable(p.attributes)
            && data == Wire(p) + data[Declared(data)..]
  {
    var p, n := DecodeBytes(data, secret).value, Declared(data);
    BytesOfParse(data[20..n]);
    HeaderOf(data);
    assert Wire(p) == data[..20] + data[20..n];
  }

  predicate IsWireOf(data: seq<byte>, p: PacketValue, extra: seq<byte>) {
    Sendable(p.attributes) && data == Wire(p) + extra
  }

  /** A packet's wire form with bytes behind it is read as that packet. */
  lemma DecodeOfPadded(data: seq<byte>, p: PacketValue, extra: seq<byte>, secret: seq<byte>)
    requires IsWireOf(data, p, extra) && |data| <= MAX_PACKET_LENGTH
    ensures DecodeBytes(data, secret) == Ok(p.(requestAuthenticator := ZERO_AUTH, secret := secret))
  {
    var w := Wire(p);
    WireFields(p);
    assert data[2..4] == w[2..4] && data[4..20] == w[4..20] && data[20..|w|] == w[20..];
    ParseOfBytes(p.attributes);
  }

  /**
   A datagram is accepted exactly when it is some packet's wire form plus trailing bytes, and
   then it is read as that packet.
   */
  lemma DecodeExact(data: seq<byte>, secret: seq<byte>)
    ensures DecodeBytes(data, secret).Ok? <==>
            |data| <= MAX_PACKET_LENGTH && exists p, extra :: IsWireOf(data, p, extra)
    ensures |data| <= MAX_PACKET_LENGTH ==> forall p, extra :: IsWireOf(data, p, extra) ==>
              DecodeBytes(data, secret) == Ok(p.(requestAuthenticator := ZERO_AUTH, secret := secret))
  {
    if DecodeBytes(data, secret).Ok? {
      WireOfDecode(data, secret);
      assert IsWireOf(data, DecodeBytes(data, secret).value, data[Declared(data)..]);
    }
    forall p, extra | |data| <= MAX_PACKET_LENGTH && IsWireOf(data, p, extra)
      ensures DecodeBytes(data, secret) == Ok(p.(requestAuthenticator := ZERO_AUTH, secret := secret))
    {
      DecodeOfPadded(data, p, extra, secret);
    }
  }

  // ---- Message-Authenticator placement ----

  function Splice(wire: seq<byte>, offset: nat, value: seq<byte>): (r: seq<byte>)
    requires offset + |value| <= |wire|
    ensures |r| == |wire|
  {
    wire[..offset] + value + wire[offset + |value|..]
  }

  /** Byte offset of the first Message-Authenticator value, counted from `base`. */
  function MessageAuthOffset(list: seq<Attribute>, base: nat): Option<nat> {
    match FirstIndex(list, MESSAGE_AUTHENTICATOR)
    case None => None
    case Some(i) => Some(base + SectionLength(list[..i]) + 2)
  }

  /** The list with the value of its first Message-Authenticator replaced. */
  function WithMessageAuth(list: seq<Attribute>, value: seq<byte>): (r: seq<Attribute>)
    ensures |r| == |list|
  {
    match FirstIndex(list, MESSAGE_AUTHENTICATOR)
    case None => list
    case Some(i) => list[i := Attribute(MESSAGE_AUTHENTICATOR, value)]
  }

  /** Where one attribute stands in its section. */
  lemma SectionSplit(pre: seq<Attribute>, a: Attribute, suf: seq<Attribute>)
    requires Fits(pre) && Fits(suf) && |a.value| <= MAX_VALUE_LENGTH
    ensures Fits(pre + [a] + suf)
    ensures AttrBytes(pre + [a] + suf) == (AttrBytes(pre) + Tlv(a)[..2]) + a.value + AttrBytes(suf)
    ensures |AttrBytes(pre) + Tlv(a)[..2]| == SectionLength(pre) + 2
  {
    SectionLengthIs(pre);
    AttrBytesAppend(pre, a);
    AttrBytesConcat(pre + [a], suf);
    assert Tlv(a) == Tlv(a)[..2] + a.value;
  }

  lemma SpliceMiddle(front: seq<byte>, mid: seq<byte>, back: seq<byte>, value: seq<byte>)
    requires |mid| == |value|
    ensures (front + mid + back)[|front|..|front| + |value|] == mid
    ensures Splice(front + mid + back, |front|, value) == front + value + back
  {
  }

  /** Overwriting any attribute's value bytes in the section is the section of the updated list. */
  lemma SpliceSection(list: seq<Attribute>, i: nat, value: seq<byte>)
    requires Fits(list) && i < |list| && |value| == |list[i].value|
    ensures var off := SectionLength(list[..i]) + 2;
            var body := AttrBytes(list);
            var updated := list[i := Attribute(list[i].typ, value)];
            && off + |value| <= |body|
            && body[off..off + |value|] == list[i].value
            && Fits(updated)
            && Splice(body, off, value) == AttrBytes(updated)
  {
    var a := Attribute(list[i].typ, value);
    var pre, suf := list[..i], list[i + 1..];
    assert list == pre + [list[i]] + suf && list[i := a] == pre + [a] + suf;
    SectionSplit(pre, list[i], suf);
    SectionSplit(pre, a, suf);
    assert Tlv(a)[..2] == Tlv(list[i])[..2];
    SpliceMiddle(AttrBytes(pre) + Tlv(a)[..2], list[i].value, AttrBytes(suf), value);
  }

  lemma SpliceBehindHeader(header: seq<byte>, body: seq<byte>, extra: seq<byte>, off: nat, value: seq<byte>)
    requires off + |value| <= |body|
    ensures Splice(header + body + extra, |header| + off, value) == header + Splice(body, off, value) + extra
  {
    assert (header + body + extra)[..|header| + off] == header + body[..off];
    assert (header + body + extra)[|header| + off + |value|..] == body[off + |value|..] + extra;
  }

  lemma SliceBehindHeader(header: seq<byte>, body: seq<byte>, off: nat, n: nat)
    requires off + n <= |body|
    ensures (header + body)[|header| + off..|header| + off + n] == body[off..off + n]
  {
  }

  /** Lists of one length on the wire share the header. */
  lemma WireParts(p: PacketValue, list: seq<Attribute>)
    requires Sendable(p.attributes) && Sendable(list) && |AttrBytes(list)| == |AttrBytes(p.attributes)|
    ensures Wire(p.(attributes := list)) == Wire(p)[..20] + AttrBytes(list)
  {
  }

  /**
   The computed offset addresses exactly the first Message-Authenticator value in the wire bytes:
   those bytes are that value, and writing 16 others there is the wire form of the packet with the
   value replaced. Trailing bytes are left alone.
   */
  lemma OffsetAddressesMessageAuth(p: PacketValue, extra: seq<byte>, value: seq<byte>)
    requires Sendable(p.attributes) && FirstIndex(p.attributes, MESSAGE_AUTHENTICATOR).Some?
    requires |p.attributes[FirstIndex(p.attributes, MESSAGE_AUTHENTICATOR).value].value| == |value|
    ensures var off := MessageAuthOffset(p.attributes, MIN_PACKET_LENGTH).value;
            var updated := p.(attributes := WithMessageAuth(p.attributes, value));
            && off + |value| <= |Wire(p)|
            && Wire(p)[off..off + |value|] == Get(p.attributes, MESSAGE_AUTHENTICATOR).value.value
            && Sendable(updated.attributes)
            && Splice(Wire(p) + extra, off, value) == Wire(updated) + extra
  {
    var i := FirstIndex(p.attributes, MESSAGE_AUTHENTICATOR).value;
    var header, body := Wire(p)[..20], AttrBytes(p.attributes);
    var off := SectionLength(p.attributes[..i]) + 2;
    var updated := WithMessageAuth(p.attributes, value);
    SpliceSection(p.attributes, i, value);
    WireParts(p, p.attributes);
    WireParts(p, updated);
    SpliceBehindHeader(header, body, extra, off, value);
    SliceBehindHeader(header, body, off, |value|);
  }

  // ---- Encoding ----

  datatype Encoded = Encoded(result: Result<seq<byte>, EncodeError>, after: PacketValue)

  predicate HasMessageAuth(list: seq<Attribute>) {
    FirstIndex(list, MESSAGE_AUTHENTICATOR).Some?
  }

  /** The authenticator the packet leaves with; it covers the attributes as the caller left them. */
  function Stamp(c: Crypto, p: PacketValue, random: Option<Digest>): Result<Digest, EncodeError>
    requires Sendable(p.attributes)
  {
    var body := AttrBytes(p.attributes);
    var length := MIN_PACKET_LENGTH + |body|;
    if p.code == ACCESS_REQUEST then
      if p.authenticator != ZERO_AUTH then Ok(p.authenticator)
      else if random.Some? then Ok(random.value) else Err(NoRandomness)
    else if IsComputedRequest(p.code) then
      Ok(PacketDigest(c, p.code, p.identifier, length, ZERO_AUTH, body, p.secret))
    else if IsResponse(p.code) then
      Ok(PacketDigest(c, p.code, p.identifier, length, p.requestAuthenticator, body, p.secret))
    else Err(UnknownCode)
  }

  /** The MAC of a packet: HMAC over its wire form with the Message-Authenticator value zeroed. */
  function Mac(c: Crypto, p: PacketValue): Digest
    requires Sendable(WithMessageAuth(p.attributes, ZERO_AUTH))
  {
    c.hmac(Wire(p.(attributes := WithMessageAuth(p.attributes, ZERO_AUTH))), p.secret)
  }

  lemma WithMessageAuthSendable(list: seq<Attribute>, value: seq<byte>)
    requires Sendable(list) && HasMessageAuth(list)
    requires |Get(list, MESSAGE_AUTHENTICATOR).value.value| == |value|
    ensures Sendable(WithMessageAuth(list, value))
  {
    SpliceSection(list, FirstIndex(list, MESSAGE_AUTHENTICATOR).value, value);
  }

  /** First index of a value that does not fit. */
  function FirstTooLong(list: seq<Attribute>): (i: nat)
    requires !Fits(list)
    ensures i < |list| && |list[i].value| > MAX_VALUE_LENGTH && Fits(list[..i])
  {
    if |list[0].value| > MAX_VALUE_LENGTH then 0 else 1 + FirstTooLong(list[1..])
  }

  /** Encoding once the authenticator is stamped. */
  function Finished(c: Crypto, q: PacketValue): (e: Encoded)
    requires Sendable(q.attributes)
    ensures e.result.Ok? ==> Sendable(e.after.attributes) && e.result.value == Wire(e.after)
  {
    if !HasMessageAuth(q.attributes) then Encoded(Ok(Wire(q)), q)
    else if |GetString(q.attributes, MESSAGE_AUTHENTICATOR)| != MESSAGE_AUTHENTICATOR_LENGTH then
      Encoded(Err(InvalidMessageAuthLength), q)
    else
      WithMessageAuthSendable(q.attributes, ZERO_AUTH);
      var mac := Mac(c, q);
      WithMessageAuthSendable(q.attributes, mac);
      var done := q.(attributes := WithMessageAuth(q.attributes, mac));
      Encoded(Ok(Wire(done)), done)
  }

  /** The outcome of `Encode`, and the packet it leaves behind whether or not it succeeds. */
  function Encoding(c: Crypto, p: PacketValue, random: Option<Digest>): (e: Encoded)
    ensures e.result.Ok? ==> Sendable(e.after.attributes) && e.result.value == Wire(e.after)
  {
    if p.secret == [] && p.code != ACCESS_REQUEST then Encoded(Err(SecretRequired), p)
    else if !Fits(p.attributes) then Encoded(Err(AttributeTooLong(FirstTooLong(p.attributes))), p)
    else if !Sendable(p.attributes) then
      Encoded(Err(PacketTooLong(MIN_PACKET_LENGTH + |AttrBytes(p.attributes)|)), p)
    else
      match Stamp(c, p, random)
      case Err(e) => Encoded(Err(e), p)
      case Ok(auth) =>
        Finished(c, p.(authenticator := auth))
  }

  predicate Encodable(p: PacketValue, random: Option<Digest>) {
    && (p.code == ACCESS_REQUEST || (p.secret != [] && (IsComputedRequest(p.code) || IsResponse(p.code))))
    && Sendable(p.attributes)
    && (p.code == ACCESS_REQUEST && p.authenticator == ZERO_AUTH ==> random.Some?)
    && (HasMessageAuth(p.attributes) ==>
          |GetString(p.attributes, MESSAGE_AUTHENTICATOR)| == MESSAGE_AUTHENTICATOR_LENGTH)
  }

  /** Exactly which packets are accepted, whatever MD5 and HMAC are. */
  lemma EncodeSucceedsExactly(c: Crypto, p: PacketValue, random: Option<Digest>)
    ensures Encoding(c, p, random).result.Ok? <==> Encodable(p, random)
  {
  }

  /**
   For every packet Encode accepts: the datagram is the wire form of the packet it leaves, and
   Decode gives back its code, identifier, stamped authenticator and attribute list. Encode changes
   nothing but the authenticator and the value of the first Message-Authenticator.
   */
  lemma EncodeDecodeRoundTrip(c: Crypto, p: PacketValue, random: Option<Digest>)
    requires Encoding(c, p, random).result.Ok?
    ensures var e := Encoding(c, p, random);
            && Sendable(e.after.attributes) && e.result.value == Wire(e.after)
            && DecodeBytes(e.result.value, p.secret) == Ok(e.after.(requestAuthenticator := ZERO_AUTH))
            && e.after.code == p.code && e.after.identifier == p.identifier && e.after.secret == p.secret
            && e.after.requestAuthenticator == p.requestAuthenticator
            && |e.after.attributes| == |p.attributes|
            && forall i :: 0 <= i < |p.attributes| ==>
                 e.after.attributes[i] == p.attributes[i]
                 || Some(i) == FirstIndex(p.attributes, MESSAGE_AUTHENTICATOR)
  {
    var e := Encoding(c, p, random);
    DecodeOfWire(e.after, p.secret);
  }

  // ---- Validation ----

  /** The packet side of ValidateMessageAuthenticator, over the wire bytes received. */
  predicate MessageAuthValid(c: Crypto, list: seq<Attribute>, wire: seq<byte>, secret: seq<byte>) {
    HasMessageAuth(list)
    && |GetString(list, MESSAGE_AUTHENTICATOR)| == MESSAGE_AUTHENTICATOR_LENGTH
    && var off := MessageAuthOffset(list, MIN_PACKET_LENGTH).value;
       off + MESSAGE_AUTHENTICATOR_LENGTH <= |wire|
       && GetString(list, MESSAGE_AUTHENTICATOR) == c.hmac(Splice(wire, off, ZERO_AUTH), secret)
  }

  /** A declared length the validator can slice by; every datagram Decode accepted has one. */
  predicate Sliceable(wire: seq<byte>) {
    |wire| >= MIN_PACKET_LENGTH ==> MIN_PACKET_LENGTH <= Declared(wire) <= |wire|
  }

  predicate ResponseAuthValid(c: Crypto, p: PacketValue, requestAuth: Digest, wire: seq<byte>, secret: seq<byte>)
    requires Sliceable(wire)
  {
    && IsResponse(p.code) && |wire| >= MIN_PACKET_LENGTH
    && p.authenticator == PacketDigest(c, p.code, p.identifier, Declared(wire), requestAuth,
                                       wire[MIN_PACKET_LENGTH..Declared(wire)], secret)
  }

  lemma {:induction false} FirstIndexKept(list: seq<Attribute>, value: seq<byte>)
    requires HasMessageAuth(list)
    ensures FirstIndex(WithMessageAuth(list, value), MESSAGE_AUTHENTICATOR) == FirstIndex(list, MESSAGE_AUTHENTICATOR)
    ensures MessageAuthOffset(WithMessageAuth(list, value), MIN_PACKET_LENGTH)
            == MessageAuthOffset(list, MIN_PACKET_LENGTH)
    ensures GetString(WithMessageAuth(list, value), MESSAGE_AUTHENTICATOR) == value
    ensures forall v :: WithMessageAuth(WithMessageAuth(list, value), v) == WithMessageAuth(list, v)
  {
    var i := FirstIndex(list, MESSAGE_AUTHENTICATOR).value;
    FirstIndexIs(WithMessageAuth(list, value), MESSAGE_AUTHENTICATOR, i);
    assert WithMessageAuth(list, value)[..i] == list[..i];
  }

  /**
   What a true answer means for a datagram that Decode accepted: the value carried is the HMAC of
   the whole datagram, trailing bytes included, with that value zeroed.
   */
  lemma MessageAuthMeaning(c: Crypto, data: seq<byte>, secret: seq<byte>)
    requires DecodeBytes(data, secret).Ok?
    ensures var p := DecodeBytes(data, secret).value;
            MessageAuthValid(c, p.attributes, data, secret) <==>
            && HasMessageAuth(p.attributes)
            && |GetString(p.attributes, MESSAGE_AUTHENTICATOR)| == MESSAGE_AUTHENTICATOR_LENGTH
            && var zeroed := p.(attributes := WithMessageAuth(p.attributes, ZERO_AUTH));
               Sendable(zeroed.attributes)
               && GetString(p.attributes, MESSAGE_AUTHENTICATOR)
                  == c.hmac(Wire(zeroed) + data[Declared(data)..], secret)
  {
    var p := DecodeBytes(data, secret).value;
    WireOfDecode(data, secret);
    if HasMessageAuth(p.attributes) && |GetString(p.attributes, MESSAGE_AUTHENTICATOR)| == 16 {
      OffsetAddressesMessageAuth(p, data[Declared(data)..], ZERO_AUTH);
    }
  }

  predicate HasPlaceholder(list: seq<Attribute>) {
    HasMessageAuth(list) && |GetString(list, MESSAGE_AUTHENTICATOR)| == MESSAGE_AUTHENTICATOR_LENGTH
  }

  /** Filling in the MAC makes the packet's own wire form pass the check. */
  lemma FilledMacValidates(c: Crypto, q: PacketValue)
    requires Sendable(q.attributes) && HasPlaceholder(q.attributes)
    ensures Sendable(WithMessageAuth(q.attributes, ZERO_AUTH))
    ensures var done := q.(attributes := WithMessageAuth(q.attributes, Mac(c, q)));
            Sendable(done.attributes) && MessageAuthValid(c, done.attributes, Wire(done), q.secret)
  {
    WithMessageAuthSendable(q.attributes, ZERO_AUTH);
    var mac := Mac(c, q);
    WithMessageAuthSendable(q.attributes, mac);
    var done := q.(attributes := WithMessageAuth(q.attributes, mac));
    FirstIndexKept(q.attributes, mac);
    var updated := done.(attributes := WithMessageAuth(done.attributes, ZERO_AUTH));
    OffsetAddressesMessageAuth(done, [], ZERO_AUTH);
    assert Wire(done) + [] == Wire(done) && Wire(updated) + [] == Wire(updated);
    assert done.(attributes := WithMessageAuth(done.attributes, ZERO_AUTH))
        == q.(attributes := WithMessageAuth(q.attributes, ZERO_AUTH));
  }

  /** After a successful Encode, the receiver's Message-Authenticator check passes. */
  lemma EncodedMessageAuthValidates(c: Crypto, p: PacketValue, random: Option<Digest>)
    requires Encoding(c, p, random).result.Ok? && HasMessageAuth(p.attributes)
    ensures var wire := Encoding(c, p, random).result.value;
            && DecodeBytes(wire, p.secret).Ok?
            && MessageAuthValid(c, DecodeBytes(wire, p.secret).value.attributes, wire, p.secret)
  {
    var e := Encoding(c, p, random);
    DecodeOfWire(e.after, p.secret);
    FilledMacValidates(c, p.(authenticator := e.after.authenticator));
  }

  // ---- The Response Authenticator of an encoded reply ----

  /** The attributes an encoded packet leaves with: only the first MAC value can be new. */
  lemma EncodedAttributes(c: Crypto, p: PacketValue, random: Option<Digest>)
    requires Encoding(c, p, random).result.Ok?
    ensures var after := Encoding(c, p, random).after.attributes;
            && |AttrBytes(after)| == |AttrBytes(p.attributes)|
            && (!HasMessageAuth(p.attributes) ==> after == p.attributes)
            && (HasMessageAuth(p.attributes) ==>
                  && HasPlaceholder(p.attributes) && HasPlaceholder(after)
                  && after == WithMessageAuth(p.attributes, GetString(after, MESSAGE_AUTHENTICATOR)))
  {
    if HasMessageAuth(p.attributes) {
      var q := p.(authenticator := Encoding(c, p, random).after.authenticator);
      WithMessageAuthSendable(p.attributes, ZERO_AUTH);
      var mac := Mac(c, q);
      FirstIndexKept(p.attributes, mac);
      SpliceSection(p.attributes, FirstIndex(p.attributes, MESSAGE_AUTHENTICATOR).value, mac);
    }
  }

  /** What the client does with the datagram: decode it and check it against its request. */
  predicate ReplyValidates(c: Crypto, p: PacketValue, random: Option<Digest>) {
    && Encoding(c, p, random).result.Ok?
    && var wire := Encoding(c, p, random).result.value;
       && Sliceable(wire)
       && DecodeBytes(wire, p.secret).Ok?
       && ResponseAuthValid(c, DecodeBytes(wire, p.secret).value, p.requestAuthenticator, wire, p.secret)
  }

  /** The reply's authenticator was computed over `body`, with the fields as sent. */
  lemma ReplyDigest(c: Crypto, p: PacketValue, random: Option<Digest>)
    requires IsResponse(p.code) && Encoding(c, p, random).result.Ok?
    ensures var after := Encoding(c, p, random).after;
            var n := MIN_PACKET_LENGTH + |AttrBytes(p.attributes)|;
            && |Wire(after)| == n
            && after.authenticator == PacketDigest(c, p.code, p.identifier, n, p.requestAuthenticator,
                                                   AttrBytes(p.attributes), p.secret)
            && (ReplyValidates(c, p, random) <==>
                after.authenticator == PacketDigest(c, p.code, p.identifier, n, p.requestAuthenticator,
                                                    AttrBytes(after.attributes), p.secret))
  {
    var e := Encoding(c, p, random);
    EncodedAttributes(c, p, random);
    DecodeOfWire(e.after, p.secret);
    WireFields(e.after);
    var w := Wire(e.after);
    assert w[MIN_PACKET_LENGTH..Declared(w)] == AttrBytes(e.after.attributes);
  }

  /** A reply without a Message-Authenticator passes the client's Response Authenticator check. */
  lemma PlainReplyValidates(c: Crypto, p: PacketValue, random: Option<Digest>)
    requires IsResponse(p.code) && Encoding(c, p, random).result.Ok? && !HasMessageAuth(p.attributes)
    ensures ReplyValidates(c, p, random)
  {
    ReplyDigest(c, p, random);
    EncodedAttributes(c, p, random);
  }

  /** One with a Message-Authenticator does so once its 16 bytes are put back as the caller had them. */
  lemma RestoredReplyValidates(c: Crypto, p: PacketValue, random: Option<Digest>)
    requires IsResponse(p.code) && Encoding(c, p, random).result.Ok? && HasMessageAuth(p.attributes)
    ensures var e := Encoding(c, p, random);
            var off := MessageAuthOffset(p.attributes, MIN_PACKET_LENGTH).value;
            && off + MESSAGE_AUTHENTICATOR_LENGTH <= |e.result.value|
            && HasPlaceholder(p.attributes)
            && var restored := Splice(e.result.value, off, GetString(p.attributes, MESSAGE_AUTHENTICATOR));
               Sliceable(restored) && ResponseAuthValid(c, e.after, p.requestAuthenticator, restored, p.secret)
  {
    var e := Encoding(c, p, random);
    var original := GetString(p.attributes, MESSAGE_AUTHENTICATOR);
    var mac := GetString(e.after.attributes, MESSAGE_AUTHENTICATOR);
    EncodedAttributes(c, p, random);
    ReplyDigest(c, p, random);
    FirstIndexKept(p.attributes, mac);
    OffsetAddressesMessageAuth(e.after, [], original);
    var stamped := p.(authenticator := e.after.authenticator);
    assert WithMessageAuth(p.attributes, original) == p.attributes;
    assert e.after.(attributes := WithMessageAuth(e.after.attributes, original)) == stamped;
    assert Wire(e.after) + [] == Wire(e.after) && Wire(stamped) + [] == Wire(stamped);
    WireFields(stamped);
    var w := Wire(stamped);
    assert w[MIN_PACKET_LENGTH..Declared(w)] == AttrBytes(p.attributes);
  }

  lemma BodyDeterminesDigestInput(p: PacketValue, n: nat, a: seq<byte>, b: seq<byte>)
    requires n < 0x1_0000 && |a| == |b| && a != b
    ensures [p.code, p.identifier] + PutU16(n) + p.requestAuthenticator + a + p.secret
         != [p.code, p.identifier] + PutU16(n) + p.requestAuthenticator + b + p.secret
  {
    var pre := [p.code, p.identifier] + PutU16(n) + p.requestAuthenticator;
    assert (pre + a + p.secret)[|pre|..|pre| + |a|] == a;
    assert (pre + b + p.secret)[|pre|..|pre| + |b|] == b;
  }

  /** The value `Encode` puts into the first Message-Authenticator is an HMAC. */
  lemma FilledValue(c: Crypto, p: PacketValue, random: Option<Digest>)
    requires Encoding(c, p, random).result.Ok? && HasMessageAuth(p.attributes)
    ensures var after := Encoding(c, p, random).after;
            exists m :: GetString(after.attributes, MESSAGE_AUTHENTICATOR) == c.hmac(m, p.secret)
  {
    var q := p.(authenticator := Encoding(c, p, random).after.authenticator);
    WithMessageAuthSendable(p.attributes, ZERO_AUTH);
    FirstIndexKept(p.attributes, Mac(c, q));
  }

  /** MD5 and HMAC under which a reply that carries a Message-Authenticator fails the check. */
  function Adversary(p: PacketValue): Crypto
    requires Sendable(p.attributes)
  {
    var ones: Digest := seq(16, _ => 1);
    var mac := if GetString(p.attributes, MESSAGE_AUTHENTICATOR) == ZERO_AUTH then ones else ZERO_AUTH;
    var body := AttrBytes(p.attributes);
    var input := [p.code, p.identifier] + PutU16(MIN_PACKET_LENGTH + |body|) + p.requestAuthenticator + body + p.secret;
    Crypto(x => if x == input then ZERO_AUTH else ones, (m, k) => mac)
  }

  lemma MessageAuthReplyCanFail(p: PacketValue, random: Option<Digest>)
    requires IsResponse(p.code) && Encodable(p, random) && HasMessageAuth(p.attributes)
    ensures !ReplyValidates(Adversary(p), p, random)
  {
    var c := Adversary(p);
    EncodeSucceedsExactly(c, p, random);
    var after := Encoding(c, p, random).after;
    var body, filled := AttrBytes(p.attributes), AttrBytes(after.attributes);
    EncodedAttributes(c, p, random);
    FilledValue(c, p, random);
    var ones: Digest := seq(16, _ => 1);
    assert ones[0] != ZERO_AUTH[0];
    assert GetString(after.attributes, MESSAGE_AUTHENTICATOR) != GetString(p.attributes, MESSAGE_AUTHENTICATOR);
    ParseOfBytes(p.attributes);
    ParseOfBytes(after.attributes);
    assert body != filled;
    BodyDeterminesDigestInput(p, MIN_PACKET_LENGTH + |body|, body, filled);
    ReplyDigest(c, p, random);
  }

  /**
   The authenticator is computed before the Message-Authenticator is filled in, so whether it is
   right in the end depends on the MD5 and HMAC at hand. It is right whatever they are exactly for
   the replies that carry no Message-Authenticator.
   */
  lemma ReplyValidatesExactly(p: PacketValue, random: Option<Digest>)
    requires IsResponse(p.code) && Encodable(p, random)
    ensures (forall c :: ReplyValidates(c, p, random)) <==> !HasMessageAuth(p.attributes)
  {
    if HasMessageAuth(p.attributes) {
      MessageAuthReplyCanFail(p, random);
    } else {
      forall c ensures ReplyValidates(c, p, random) {
        EncodeSucceedsExactly(c, p, random);
        PlainReplyValidates(c, p, random);
      }
    }
  }

  // ---- The packet object ----

  /** Index of the first Message-Authenticator, or -1. */
  method MaAttrIndex(list: seq<Attribute>) returns (r: int)
    ensures r == match FirstIndex(list, MESSAGE_AUTHENTICATOR) case None => -1 case Some(i) => i
  {
    for i := 0 to |list|
      invariant forall j :: 0 <= j < i ==> list[j].typ != MESSAGE_AUTHENTICATOR
    {
      if list[i].typ == MESSAGE_AUTHENTICATOR {
        return i;
      }
    }
    return -1;
  }

  method FindMessageAuthenticatorOffset(list: seq<Attribute>, base: nat) returns (r: Option<nat>)
    ensures r == MessageAuthOffset(list, base)
  {
    var off := base;
    for i := 0 to |list|
      invariant off == base + SectionLength(list[..i])
      invariant forall j :: 0 <= j < i ==> list[j].typ != MESSAGE_AUTHENTICATOR
    {
      if list[i].typ == MESSAGE_AUTHENTICATOR {
        FirstIndexIs(list, MESSAGE_AUTHENTICATOR, i);
        return Some(off + 2);
      }
      assert list[..i + 1] == list[..i] + [list[i]];
      SectionLengthAppend(list[..i], list[i]);
      off := off + 2 + |list[i].value|;
    }
    return None;
  }

  /** Writes 16 bytes into the datagram under construction. */
  method Overwrite(out: array<byte>, offset: nat, value: Digest)
    requires offset + MESSAGE_AUTHENTICATOR_LENGTH <= out.Length
    modifies out
    ensures out[..] == Splice(old(out[..]), offset, value)
  {
    for i := 0 to MESSAGE_AUTHENTICATOR_LENGTH
      invariant out[offset..offset + i] == value[..i]
      invariant out[..offset] == old(out[..offset])
      invariant out[offset + i..] == old(out[offset + i..])
    {
      out[offset + i] := value[i];
    }
    assert out[..] == out[..offset] + out[offset..offset + 16] + out[offset + 16..];
  }

  method ConstantTimeEqual(a: seq<byte>, b: seq<byte>) returns (equal: bool)
    ensures equal <==> a == b
  {
    if |a| != |b| {
      return false;
    }
    var v: nat := 0;
    for i := 0 to |a|
      invariant v == 0 <==> a[..i] == b[..i]
    {
      Bits.OrIsZero(v, Bits.Xor(a[i] as nat, b[i] as nat));
      Bits.XorIsZero(a[i] as nat, b[i] as nat);
      assert a[..i + 1] == a[..i] + [a[i]] && b[..i + 1] == b[..i] + [b[i]];
      v := Bits.Or(v, Bits.Xor(a[i] as nat, b[i] as nat));
    }
    assert a[..|a|] == a && b[..|b|] == b;
    return v == 0;
  }

  /** The end of Encode: zero the value, compute the MAC over the datagram, write it in. */
  method FillMessageAuth(c: Crypto, ghost q: PacketValue, secret: seq<byte>, out: array<byte>, offset: nat)
    returns (mac: Digest)
    requires Sendable(q.attributes) && HasPlaceholder(q.attributes) && q.secret == secret && out[..] == Wire(q)
    requires MessageAuthOffset(q.attributes, MIN_PACKET_LENGTH) == Some(offset)
    modifies out
    ensures Sendable(WithMessageAuth(q.attributes, ZERO_AUTH)) && mac == Mac(c, q)
    ensures Sendable(WithMessageAuth(q.attributes, mac))
    ensures out[..] == Wire(q.(attributes := WithMessageAuth(q.attributes, mac)))
  {
    ghost var zeroed := q.(attributes := WithMessageAuth(q.attributes, ZERO_AUTH));
    OffsetAddressesMessageAuth(q, [], ZERO_AUTH);
    assert Wire(q) + [] == Wire(q) && Wire(zeroed) + [] == Wire(zeroed);
    Overwrite(out, offset, ZERO_AUTH);
    mac := c.hmac(out[..], secret);
    FirstIndexKept(q.attributes, ZERO_AUTH);
    OffsetAddressesMessageAuth(zeroed, [], mac);
    ghost var done := q.(attributes := WithMessageAuth(q.attributes, mac));
    assert Wire(done) + [] == Wire(done);
    Overwrite(out, offset, mac);
  }

  method LayOut(code: byte, identifier: byte, totalLen: nat, authenticator: Digest, body: seq<byte>)
    returns (out: array<byte>)
    requires totalLen == MIN_PACKET_LENGTH + |body| < 0x1_0000
    ensures fresh(out) && out[..] == Header(code, identifier, totalLen, authenticator) + body
  {
    out := new byte[totalLen](_ => 0);
    var length := PutU16(totalLen);
    out[0], out[1], out[2], out[3] := code, identifier, length[0], length[1];
    forall i | 0 <= i < 16 { out[4 + i] := authenticator[i]; }
    forall i | 0 <= i < |body| { out[MIN_PACKET_LENGTH + i] := body[i]; }
  }

  class Packet {
    var code: byte
    var identifier: byte
    var authenticator: Digest
    const attributes: AttributeList
    var requestAuthenticator: Digest
    var secret: seq<byte>

    function Value(): PacketValue
      reads this, attributes
    {
      PacketValue(code, identifier, authenticator, attributes.items, requestAuthenticator, secret)
    }

    constructor (code: byte, identifier: byte, secret: seq<byte>)
      ensures fresh(attributes)
      ensures Value() == PacketValue(code, identifier, ZERO_AUTH, [], ZERO_AUTH, secret)
    {
      this.code, this.identifier, this.secret := code, identifier, secret;
      authenticator, requestAuthenticator := ZERO_AUTH, ZERO_AUTH;
      attributes := new AttributeList();
    }

    /** The switch on the code that sets the authenticator. */
    method StampAuthenticator(c: Crypto, random: Option<Digest>, body: seq<byte>)
      returns (r: Result<Digest, EncodeError>)
      requires Sendable(attributes.items) && body == AttrBytes(attributes.items)
      modifies this`authenticator
      ensures r == Stamp(c, old(Value()), random)
      ensures authenticator == if r.Ok? then r.value else old(authenticator)
    {
      var totalLen := MIN_PACKET_LENGTH + |body|;
      if code == ACCESS_REQUEST {
        if authenticator == ZERO_AUTH {
          if random.None? {
            return Err(NoRandomness);
          }
          authenticator := random.value;
        }
      } else if IsComputedRequest(code) {
        authenticator := PacketDigest(c, code, identifier, totalLen, ZERO_AUTH, body, secret);
      } else if IsResponse(code) {
        authenticator := PacketDigest(c, code, identifier, totalLen, requestAuthenticator, body, secret);
      } else {
        return Err(UnknownCode);
      }
      return Ok(authenticator);
    }

    /** `random` is what the random source would give, None when reading it fails. */
    method Encode(c: Crypto, random: Option<Digest>) returns (r: Result<seq<byte>, EncodeError>)
      modifies this`authenticator, attributes
      ensures r == Encoding(c, old(Value()), random).result
      ensures Value() == Encoding(c, old(Value()), random).after
    {
      if |secret| == 0 && code != ACCESS_REQUEST {
        return Err(SecretRequired);
      }
      var attrsBody := EncodeAttributes(attributes.items);
      if attrsBody.Err? {
        FirstTooLongIs(attributes.items, attrsBody.error);
        return Err(AttributeTooLong(attrsBody.error));
      }
      var body := attrsBody.value;
      var totalLen := MIN_PACKET_LENGTH + |body|;
      if totalLen > MAX_PACKET_LENGTH {
        return Err(PacketTooLong(totalLen));
      }
      var stamped := StampAuthenticator(c, random, body);
      if stamped.Err? {
        return Err(stamped.error);
      }
      var out := LayOut(code, identifier, totalLen, authenticator, body);
      r := Finish(c, out);
    }

    /** The last part of Encode: fill in the Message-Authenticator of the datagram laid out. */
    method Finish(c: Crypto, out: array<byte>) returns (r: Result<seq<byte>, EncodeError>)
      requires Sendable(attributes.items) && out[..] == Wire(Value())
      modifies attributes, out
      ensures r == Finished(c, old(Value())).result && Value() == Finished(c, old(Value())).after
    {
      var maOffset := FindMessageAuthenticatorOffset(attributes.items, MIN_PACKET_LENGTH);
      if maOffset.Some? {
        var i := MaAttrIndex(attributes.items);
        if |attributes.items[i].value| != MESSAGE_AUTHENTICATOR_LENGTH {
          return Err(InvalidMessageAuthLength);
        }
        var mac := FillMessageAuth(c, Value(), secret, out, maOffset.value);
        attributes.items := attributes.items[i := Attribute(MESSAGE_AUTHENTICATOR, mac)];
      }
      return Ok(out[..]);
    }

    method ValidateMessageAuthenticator(c: Crypto, wireBytes: seq<byte>, secret: seq<byte>) returns (valid: bool)
      ensures valid <==> MessageAuthValid(c, attributes.items, wireBytes, secret)
    {
      var idx := MaAttrIndex(attributes.items);
      if idx < 0 {
        return false;
      }
      var provided := attributes.items[idx].value;
      if |provided| != MESSAGE_AUTHENTICATOR_LENGTH {
        return false;
      }
      var maOffset := FindMessageAuthenticatorOffset(attributes.items, MIN_PACKET_LENGTH);
      if maOffset.None? || maOffset.value + MESSAGE_AUTHENTICATOR_LENGTH > |wireBytes| {
        return false;
      }
      var scratch := new byte[|wireBytes|](i requires 0 <= i < |wireBytes| => wireBytes[i]);
      assert scratch[..] == wireBytes;
      Overwrite(scratch, maOffset.value, ZERO_AUTH);
      valid := ConstantTimeEqual(provided, c.hmac(scratch[..], secret));
    }

    /** The slice by the declared length is in bounds for every datagram that Decode accepted. */
    method ValidateResponseAuthenticator(c: Crypto, requestAuth: Digest, secret: seq<byte>, wireBytes: seq<byte>)
      returns (valid: bool)
      requires Sliceable(wireBytes)
      ensures valid <==> ResponseAuthValid(c, Value(), requestAuth, wireBytes, secret)
    {
      if !IsResponse(code) || |wireBytes| < MIN_PACKET_LENGTH {
        return false;
      }
      var declared := Declared(wireBytes);
      var want := PacketDigest(c, code, identifier, declared, requestAuth,
                               wireBytes[MIN_PACKET_LENGTH..declared], secret);
      valid := ConstantTimeEqual(authenticator, want);
    }
  }

  lemma {:induction false} FirstTooLongIs(list: seq<Attribute>, i: nat)
    requires i < |list| && |list[i].value| > MAX_VALUE_LENGTH && Fits(list[..i])
    ensures !Fits(list) && FirstTooLong(list) == i
  {
    assert forall j :: 0 <= j < i ==> list[..i][j] == list[j];
    if i > 0 {
      assert list[1..][..i - 1] == list[..i][1..];
      FirstTooLongIs(list[1..], i - 1);
    }
  }

  method Decode(data: seq<byte>, secret: seq<byte>) returns (r: Result<Packet, DecodeError>)
    ensures r.Ok? <==> DecodeBytes(data, secret).Ok?
    ensures r.Ok? ==> fresh(r.value) && fresh(r.value.attributes) && r.value.Value() == DecodeBytes(data, secret).value
    ensures r.Err? ==> r.error == DecodeBytes(data, secret).error
  {
    if |data| < MIN_PACKET_LENGTH {
      return Err(TooShort);
    }
    if |data| > MAX_PACKET_LENGTH {
      return Err(TooLong);
    }
    var declared := GetU16(data[2..4]);
    if declared < MIN_PACKET_LENGTH || declared > |data| {
      return Err(LengthMismatch);
    }
    var p := new Packet(data[0], data[1], secret);
    p.authenticator := data[4..20];
    var attrs := DecodeAttributes(data[MIN_PACKET_LENGTH..declared]);
    if attrs.None? {
      return Err(TruncatedAttribute);
    }
    p.attributes.items := attrs.value;
    return Ok(p);
  }
}
