/**
 The codec octet by octet (sections 3, 4 and 5 of RFC 2865, sections 3 and 4 of RFC 2866, section 2.3 of
 RFC 5176): what stands where in the datagrams that Encode makes, and over which octets each digest is taken.
 */
module Octets {
  import opened Wrappers
  import opened Bytes
  import opened Attributes
  import opened Auth
  import opened Packets
  import Bits

  // ---- Numbers ----

  /** Multi-octet fields are big-endian. */
  lemma BigEndian(n: nat)
    requires n < 0x1_0000_0000
    ensures var b := PutU32(n);
            n == b[0] as nat * 0x100_0000 + b[1] as nat * 0x1_0000 + b[2] as nat * 0x100 + b[3] as nat
  {
  }

  lemma BigEndianRead(b: seq<byte>)
    requires |b| == 4
    ensures GetU32(b) == b[0] as nat * 0x100_0000 + b[1] as nat * 0x1_0000 + b[2] as nat * 0x100 + b[3] as nat
  {
  }

  /** The exclusive or of two octets, bit by bit. */
  lemma XorByteBits(a: byte, b: byte, i: nat)
    ensures (XorByte(a, b) as nat / Bits.Pow2(i) % 2 == 1)
            <==> (a as nat / Bits.Pow2(i) % 2 == 1) != (b as nat / Bits.Pow2(i) % 2 == 1)
  {
    Bits.XorBits(a as nat, b as nat, i);
    Bits.BitIs(a as nat, i);
    Bits.BitIs(b as nat, i);
    Bits.BitIs(XorByte(a, b) as nat, i);
  }

  // ---- Layout ----

  /** The twenty octets of the header. */
  lemma HeaderOctets(p: PacketValue)
    requires Sendable(p.attributes)
    ensures var w := Wire(p);
            && 20 <= |w| <= 4096 && w[0] == p.code && w[1] == p.identifier
            && w[2] as nat * 256 + w[3] as nat == |w| && w[4..20] == p.authenticator
  {
    WireFields(p);
  }

  /** Octets of the attributes before the i-th: a type, a length and the value of each. */
  function Before(list: seq<Attribute>, i: nat): nat
    requires i <= |list|
  {
    if i == 0 then 0 else Before(list, i - 1) + 2 + |list[i - 1].value|
  }

  lemma {:induction false} BeforeIs(list: seq<Attribute>, i: nat)
    requires i <= |list|
    ensures Before(list, i) == SectionLength(list[..i])
  {
    if i > 0 {
      BeforeIs(list, i - 1);
      assert list[..i] == list[..i - 1] + [list[i - 1]];
      SectionLengthAppend(list[..i - 1], list[i - 1]);
    }
  }

  /** An attribute from octet `at` on: its type, its length counting those two octets, its value. */
  predicate StandsAt(w: seq<byte>, at: nat, a: Attribute) {
    var n := |a.value|;
    && at + 2 + n <= |w| && w[at] == a.typ && w[at + 1] as nat == 2 + n && w[at + 2..at + 2 + n] == a.value
  }

  lemma Between(x: seq<byte>, a: Attribute, y: seq<byte>)
    requires |a.value| <= 253
    ensures StandsAt(x + Tlv(a) + y, |x|, a)
  {
    var n, t := |a.value|, Tlv(a);
    var w := x + t + y;
    assert w[|x|..|x| + |t|] == t;
    assert w[|x| + 2..|x| + 2 + n] == t[2..];
  }

  lemma Around(pre: seq<Attribute>, a: Attribute, suf: seq<Attribute>)
    requires Fits(pre) && Fits(suf) && |a.value| <= 253
    ensures Fits(pre + [a] + suf) && AttrBytes(pre + [a] + suf) == AttrBytes(pre) + Tlv(a) + AttrBytes(suf)
  {
    AttrBytesAppend(pre, a);
    AttrBytesConcat(pre + [a], suf);
  }

  lemma ListSplit<T>(list: seq<T>, i: nat)
    requires i < |list|
    ensures list == list[..i] + [list[i]] + list[i + 1..]
  {
  }

  lemma BodyOctets(list: seq<Attribute>, i: nat)
    requires Fits(list) && i < |list|
    ensures StandsAt(AttrBytes(list), Before(list, i), list[i])
  {
    ListSplit(list, i);
    Around(list[..i], list[i], list[i + 1..]);
    BeforeIs(list, i);
    SectionLengthIs(list[..i]);
    Between(AttrBytes(list[..i]), list[i], AttrBytes(list[i + 1..]));
  }

  lemma BehindHeader(w: seq<byte>, body: seq<byte>, at: nat, a: Attribute)
    requires |w| >= 20 && w[20..] == body && StandsAt(body, at, a)
    ensures StandsAt(w, 20 + at, a)
  {
    assert w == w[..20] + body;
  }

  lemma BeforeAll(list: seq<Attribute>)
    requires Fits(list)
    ensures Before(list, |list|) == |AttrBytes(list)|
  {
    BeforeIs(list, |list|);
    assert list[..|list|] == list;
    SectionLengthIs(list);
  }

  lemma WireBody(p: PacketValue)
    requires Sendable(p.attributes)
    ensures |Wire(p)| >= 20 && Wire(p)[20..] == AttrBytes(p.attributes)
  {
    WireFields(p);
  }

  /** The attributes of a datagram stand one after the other behind the header. */
  lemma AttributeOctets(p: PacketValue, i: nat)
    requires Sendable(p.attributes) && i < |p.attributes|
    ensures StandsAt(Wire(p), 20 + Before(p.attributes, i), p.attributes[i])
  {
    WireBody(p);
    BodyOctets(p.attributes, i);
    BehindHeader(Wire(p), AttrBytes(p.attributes), Before(p.attributes, i), p.attributes[i]);
  }

  lemma DatagramLength(p: PacketValue)
    requires Sendable(p.attributes)
    ensures |Wire(p)| == 20 + Before(p.attributes, |p.attributes|)
  {
    BeforeAll(p.attributes);
  }

  /** The four octets of the vendor id in front of the inner attribute. */
  lemma VSAOctets(vendorId: nat, vendorType: byte, value: seq<byte>)
    requires vendorId < 0x1_0000_0000 && |value| <= 247
    ensures var w := PutU32(vendorId) + Tlv(Attribute(vendorType, value));
            && |w| == 6 + |value| && w[4] == vendorType && w[5] as nat == 2 + |value| && w[6..] == value
            && vendorId == w[0] as nat * 0x100_0000 + w[1] as nat * 0x1_0000 + w[2] as nat * 0x100 + w[3] as nat
  {
    BigEndian(vendorId);
  }

  // ---- User-Password ----

  /** What block k is hidden under: the authenticator, then the ciphertext block before. */
  function Previous(cipher: seq<byte>, auth: seq<byte>, k: nat): seq<byte>
    requires 16 * k <= |cipher|
  {
    if k == 0 then auth else cipher[16 * (k - 1)..16 * k]
  }

  lemma {:induction false} HideOctets(c: Crypto, secret: seq<byte>, prev: seq<byte>, plain: seq<byte>, k: nat)
    requires |plain| % 16 == 0 && 16 * (k + 1) <= |plain|
    ensures var cipher := Hide(c, secret, prev, plain);
            cipher[16 * k..16 * (k + 1)]
            == XorBytes(plain[16 * k..16 * (k + 1)], c.md5(secret + Previous(cipher, prev, k)))
    decreases k
  {
    var block := XorBytes(plain[..16], c.md5(secret + prev));
    var cipher, rest := Hide(c, secret, prev, plain), Hide(c, secret, block, plain[16..]);
    assert cipher == block + rest;
    if k > 0 {
      HideOctets(c, secret, block, plain[16..], k - 1);
      assert plain[16..][16 * (k - 1)..16 * k] == plain[16 * k..16 * (k + 1)];
      assert cipher[16 * k..16 * (k + 1)] == rest[16 * (k - 1)..16 * k];
      assert Previous(rest, block, k - 1) == Previous(cipher, prev, k);
    }
  }

  lemma InBlock(s: seq<byte>, j: nat)
    requires j < |s| && |s| % 16 == 0
    ensures 16 * (j / 16 + 1) <= |s| && s[16 * (j / 16)..16 * (j / 16 + 1)][j % 16] == s[j]
  {
  }

  /**
   The hidden password of at most 128 octets: as many blocks of 16 as it takes, one at least; octet j is that of
   the password, or NUL behind its end, XORed with octet j % 16 of MD5(secret | previous ciphertext block).
   */
  lemma HiddenPasswordOctets(c: Crypto, password: seq<byte>, secret: seq<byte>, auth: Digest, j: nat)
    ensures Encrypted(c, password, secret, auth).Some? <==> |password| <= 128
    ensures |password| <= 128 ==>
            var cipher := Encrypted(c, password, secret, auth).value;
            && |cipher| == (if password == [] then 16 else (|password| + 15) / 16 * 16)
            && (j < |cipher| ==>
                  cipher[j] == XorByte(if j < |password| then password[j] else 0,
                                       c.md5(secret + Previous(cipher, auth, j / 16))[j % 16]))
  {
    if |password| <= 128 {
      var cipher, padded := Encrypted(c, password, secret, auth).value, Pad(password);
      if j < |cipher| {
        assert padded[j] == if j < |password| then padded[..|password|][j] else 0;
        HideOctets(c, secret, auth, padded, j / 16);
        InBlock(cipher, j);
        InBlock(padded, j);
      }
    }
  }

  // ---- Refusals ----

  /** Why a datagram is not decoded: the first of the checks that it fails. */
  lemma DecodeRefusals(data: seq<byte>, secret: seq<byte>)
    ensures var r := DecodeBytes(data, secret);
            && (r == Err(TooShort) <==> |data| < 20)
            && (r == Err(TooLong) <==> |data| > 4096)
            && (20 <= |data| <= 4096 ==>
                  var n := data[2] as nat * 256 + data[3] as nat;
                  && (r == Err(LengthMismatch) <==> n < 20 || n > |data|)
                  && (r == Err(TruncatedAttribute) <==> 20 <= n <= |data| && ParseTlvs(data[20..n]).None?))
  {
  }

  /** The i-th value is the first that does not fit an attribute. */
  predicate FirstOversized(list: seq<Attribute>, i: nat) {
    i < |list| && |list[i].value| > 253 && forall j :: 0 <= j < i ==> |list[j].value| <= 253
  }

  lemma OversizedIs(list: seq<Attribute>)
    requires !Fits(list)
    ensures FirstOversized(list, FirstTooLong(list))
  {
    var i := FirstTooLong(list);
    forall j | 0 <= j < i ensures |list[j].value| <= 253 { assert list[..i][j] == list[j]; }
  }

  /** Why a packet is not encoded, and that a refusal leaves it as it was unless only the last check failed. */
  lemma EncodeRefusals(c: Crypto, p: PacketValue, random: Option<Digest>)
    ensures var e, list := Encoding(c, p, random), p.attributes;
            var fits := forall i :: 0 <= i < |list| ==> |list[i].value| <= 253;
            var length := 20 + Before(list, |list|);
            if p.secret == [] && p.code != 1 then e.result == Err(SecretRequired) && e.after == p
            else if !fits then
              e.result.Err? && e.result.error.AttributeTooLong? && FirstOversized(list, e.result.error.index)
              && e.after == p
            else if length > 4096 then e.result == Err(PacketTooLong(length)) && e.after == p
            else if p.code !in {1, 2, 3, 4, 5, 11, 40, 41, 42, 43, 44, 45} then
              e.result == Err(UnknownCode) && e.after == p
            else if p.code == 1 && p.authenticator == Zeros(16) && random.None? then
              e.result == Err(NoRandomness) && e.after == p
            else
              || e.result.Ok?
              || (e.result == Err(InvalidMessageAuthLength) && e.after.(authenticator := p.authenticator) == p)
  {
    if Fits(p.attributes) { BeforeAll(p.attributes); } else { OversizedIs(p.attributes); }
  }

  lemma DecryptRefusals(c: Crypto, cipher: seq<byte>, secret: seq<byte>, auth: Digest)
    ensures Decrypted(c, cipher, secret, auth).None? <==> cipher == [] || |cipher| % 16 != 0
  {
  }

  // ---- Authenticators ----

  /** The datagram before the Message-Authenticator was filled in, from the one that was sent. */
  function Unfilled(p: PacketValue, wire: seq<byte>): seq<byte>
    requires HasMessageAuth(p.attributes) ==>
               var i := FirstIndex(p.attributes, MESSAGE_AUTHENTICATOR).value;
               20 + Before(p.attributes, i) + 2 + |p.attributes[i].value| <= |wire|
  {
    if !HasMessageAuth(p.attributes) then wire
    else
      var i := FirstIndex(p.attributes, MESSAGE_AUTHENTICATOR).value;
      var at, value := 20 + Before(p.attributes, i) + 2, p.attributes[i].value;
      wire[..at] + value + wire[at + |value|..]
  }

  lemma ShiftSplice(header: seq<byte>, body: seq<byte>, off: nat, value: seq<byte>)
    requires |header| == 20 && off + |value| <= |body|
    ensures var at, w := 20 + off, header + body;
            w[..at] + value + w[at + |value|..] == header + Splice(body, off, value)
  {
    var at, w := 20 + off, header + body;
    assert w[..at] == header + body[..off] && w[at + |value|..] == body[off + |value|..];
  }

  lemma OverwriteAt(filled: seq<Attribute>, i: nat, was: Attribute, off: nat)
    requires Fits(filled) && i < |filled| && off == SectionLength(filled[..i]) + 2
    requires filled[i].typ == was.typ && |filled[i].value| == |was.value|
    ensures Fits(filled[i := was])
    ensures off + |was.value| <= |AttrBytes(filled)|
    ensures Splice(AttrBytes(filled), off, was.value) == AttrBytes(filled[i := was])
  {
    SpliceSection(filled, i, was.value);
    assert Attribute(filled[i].typ, was.value) == was;
  }

  lemma SamePrefixLength(list: seq<Attribute>, i: nat, filled: seq<Attribute>, was: Attribute)
    requires i < |filled| && list == filled[i := was]
    ensures Before(list, i) == SectionLength(filled[..i])
  {
    BeforeIs(list, i);
    assert list[..i] == filled[..i];
  }

  /** With the i-th value overwritten in a list, writing the old one over it again gives the old octets. */
  lemma OverwriteBack(list: seq<Attribute>, i: nat, filled: seq<Attribute>, was: Attribute, off: nat)
    requires Fits(list) && i < |list| == |filled| && Fits(filled) && off == Before(list, i) + 2
    requires filled[i].typ == was.typ && |filled[i].value| == |was.value| && list == filled[i := was]
    ensures off + |was.value| <= |AttrBytes(filled)|
    ensures Splice(AttrBytes(filled), off, was.value) == AttrBytes(list)
  {
    SamePrefixLength(list, i, filled, was);
    OverwriteAt(filled, i, was, off);
  }

  lemma FilledList(c: Crypto, p: PacketValue, random: Option<Digest>)
    requires Encoding(c, p, random).result.Ok? && HasMessageAuth(p.attributes)
    ensures var i := FirstIndex(p.attributes, MESSAGE_AUTHENTICATOR).value;
            var filled := Encoding(c, p, random).after.attributes;
            && |filled| == |p.attributes| && filled[i].typ == p.attributes[i].typ
            && |filled[i].value| == |p.attributes[i].value| && p.attributes == filled[i := p.attributes[i]]
            && FirstIndex(filled, MESSAGE_AUTHENTICATOR) == Some(i)
  {
    EncodedAttributes(c, p, random);
    FirstIndexKept(p.attributes, GetString(Encoding(c, p, random).after.attributes, MESSAGE_AUTHENTICATOR));
  }

  /** Putting the caller's Message-Authenticator back gives the attributes as the caller had them. */
  lemma UnfilledOctets(c: Crypto, p: PacketValue, random: Option<Digest>)
    requires Encoding(c, p, random).result.Ok?
    ensures var e := Encoding(c, p, random);
            && Sendable(p.attributes) && |e.result.value| == 20 + |AttrBytes(p.attributes)|
            && (HasMessageAuth(p.attributes) ==>
                  var i := FirstIndex(p.attributes, MESSAGE_AUTHENTICATOR).value;
                  20 + Before(p.attributes, i) + 2 + |p.attributes[i].value| <= |e.result.value|)
            && Unfilled(p, e.result.value) == e.result.value[..20] + AttrBytes(p.attributes)
  {
    var e := Encoding(c, p, random);
    EncodeDecodeRoundTrip(c, p, random);
    EncodedAttributes(c, p, random);
    WireFields(e.after);
    if HasMessageAuth(p.attributes) { FilledList(c, p, random); }
    PutBack(p, e.result.value, e.after.attributes);
  }

  lemma PutBack(p: PacketValue, w: seq<byte>, filled: seq<Attribute>)
    requires Fits(p.attributes) && Fits(filled) && |w| >= 20 && w[20..] == AttrBytes(filled)
    requires if !HasMessageAuth(p.attributes) then filled == p.attributes
             else var i := FirstIndex(p.attributes, MESSAGE_AUTHENTICATOR).value;
                  && |filled| == |p.attributes| && filled[i].typ == p.attributes[i].typ
                  && |filled[i].value| == |p.attributes[i].value| && p.attributes == filled[i := p.attributes[i]]
    ensures HasMessageAuth(p.attributes) ==>
              var i := FirstIndex(p.attributes, MESSAGE_AUTHENTICATOR).value;
              20 + Before(p.attributes, i) + 2 + |p.attributes[i].value| <= |w|
    ensures Unfilled(p, w) == w[..20] + AttrBytes(p.attributes)
  {
    assert w == w[..20] + AttrBytes(filled);
    if HasMessageAuth(p.attributes) {
      var i := FirstIndex(p.attributes, MESSAGE_AUTHENTICATOR).value;
      OverwriteBack(p.attributes, i, filled, p.attributes[i], Before(p.attributes, i) + 2);
      ShiftSplice(w[..20], AttrBytes(filled), Before(p.attributes, i) + 2, p.attributes[i].value);
    }
  }

  /** The digest of section 3 of RFC 2866: Code | Identifier | Length | authenticator | attributes | secret. */
  function AuthenticatorOver(c: Crypto, datagram: seq<byte>, auth: Digest, secret: seq<byte>): Digest
    requires |datagram| >= 20
  {
    c.md5(datagram[..4] + auth + datagram[20..] + secret)
  }

  lemma DigestOverDatagram(c: Crypto, code: byte, identifier: byte, length: nat, auth: Digest, head: seq<byte>,
                           body: seq<byte>, secret: seq<byte>)
    requires length < 0x1_0000 && |head| == 20
    requires head[0] == code && head[1] == identifier && head[2..4] == PutU16(length)
    ensures PacketDigest(c, code, identifier, length, auth, body, secret)
            == AuthenticatorOver(c, head + body, auth, secret)
  {
    assert (head + body)[..4] == [code, identifier] + PutU16(length);
    assert (head + body)[20..] == body;
  }

  lemma LengthField(w: seq<byte>)
    requires |w| >= 4
    ensures PutU16(Declared(w)) == w[2..4]
  {
    var n := Declared(w);
    assert n / 256 == w[2] as nat && n % 256 == w[3] as nat;
  }

  /**
   The authenticator on the wire. Accounting-, CoA- and Disconnect-Requests carry the digest over the whole datagram
   with sixteen zero octets in its place, replies the digest with the request's authenticator there; the
   Message-Authenticator enters both as the caller had it. An Access-Request carries its own, or a random one.
   */
  lemma AuthenticatorOnWire(c: Crypto, p: PacketValue, random: Option<Digest>)
    requires Encoding(c, p, random).result.Ok?
    ensures p.code in {1, 2, 3, 4, 5, 11, 40, 41, 42, 43, 44, 45}
    ensures Sendable(p.attributes) && |Encoding(c, p, random).result.value| >= 20
    ensures HasMessageAuth(p.attributes) ==>
              var i := FirstIndex(p.attributes, MESSAGE_AUTHENTICATOR).value;
              20 + Before(p.attributes, i) + 2 + |p.attributes[i].value| <= |Encoding(c, p, random).result.value|
    ensures var wire := Encoding(c, p, random).result.value;
            var covered := Unfilled(p, wire);
            && |covered| == |wire|
            && (p.code in {4, 40, 43} ==> wire[4..20] == AuthenticatorOver(c, covered, Zeros(16), p.secret))
            && (p.code in {2, 3, 5, 11, 41, 42, 44, 45} ==>
                  wire[4..20] == AuthenticatorOver(c, covered, p.requestAuthenticator, p.secret))
            && (p.code == 1 && p.authenticator != Zeros(16) ==> wire[4..20] == p.authenticator)
            && (p.code == 1 && p.authenticator == Zeros(16) ==> random.Some? && wire[4..20] == random.value)
  {
    var e := Encoding(c, p, random);
    var wire, body := e.result.value, AttrBytes(p.attributes);
    UnfilledOctets(c, p, random);
    EncodeDecodeRoundTrip(c, p, random);
    WireFields(e.after);
    LengthField(wire);
    var auth := if p.code in {4, 40, 43} then Zeros(16) else p.requestAuthenticator;
    DigestOverDatagram(c, p.code, p.identifier, |wire|, auth, wire[..20], body, p.secret);
  }

  /** What the Response Authenticator check says of a datagram that was accepted. */
  lemma ResponseCheckOctets(c: Crypto, data: seq<byte>, requestAuth: Digest, secret: seq<byte>)
    requires DecodeBytes(data, secret).Ok?
    ensures |data| >= 20 && Sliceable(data)
    ensures var n := data[2] as nat * 256 + data[3] as nat;
            && 20 <= n <= |data|
            && (ResponseAuthValid(c, DecodeBytes(data, secret).value, requestAuth, data, secret) <==>
                data[0] in {2, 3, 5, 11, 41, 42, 44, 45}
                && data[4..20] == AuthenticatorOver(c, data[..n], requestAuth, secret))
  {
    var n := Declared(data);
    LengthField(data);
    DigestOverDatagram(c, data[0], data[1], n, requestAuth, data[..20], data[20..n], secret);
    assert data[..n] == data[..20] + data[20..n];
  }

  /**
   The Message-Authenticator on the wire: the HMAC, under the secret, of the datagram as sent with the sixteen
   octets of its value zero.
   */
  lemma MessageAuthenticatorOnWire(c: Crypto, p: PacketValue, random: Option<Digest>)
    requires Encoding(c, p, random).result.Ok? && HasMessageAuth(p.attributes)
    ensures var wire, i := Encoding(c, p, random).result.value, FirstIndex(p.attributes, MESSAGE_AUTHENTICATOR).value;
            var at := 20 + Before(p.attributes, i) + 2;
            && at + 16 <= |wire| && wire[at - 2] == 80 && wire[at - 1] == 18
            && wire[at..at + 16] == c.hmac(wire[..at] + Zeros(16) + wire[at + 16..], p.secret)
  {
    var e := Encoding(c, p, random);
    var i := FirstIndex(p.attributes, MESSAGE_AUTHENTICATOR).value;
    EncodeDecodeRoundTrip(c, p, random);
    EncodedAttributes(c, p, random);
    EncodedMessageAuthValidates(c, p, random);
    FirstIndexKept(p.attributes, GetString(e.after.attributes, MESSAGE_AUTHENTICATOR));
    BeforeIs(p.attributes, i);
    BeforeIs(e.after.attributes, i);
    assert e.after.attributes[..i] == p.attributes[..i];
    AttributeOctets(e.after, i);
  }

  lemma StandsInFront(w: seq<byte>, extra: seq<byte>, at: nat, a: Attribute)
    requires StandsAt(w, at, a)
    ensures StandsAt(w + extra, at, a)
  {
    assert (w + extra)[at + 2..at + 2 + |a.value|] == w[at + 2..at + 2 + |a.value|];
  }

  /** The i-th is the first attribute 80. */
  predicate FirstMessageAuth(list: seq<Attribute>, i: nat) {
    i < |list| && list[i].typ == 80 && forall j :: 0 <= j < i ==> list[j].typ != 80
  }

  /** The octets at `at` are the HMAC of everything received, with these sixteen zero. */
  predicate MacAt(c: Crypto, data: seq<byte>, at: nat, secret: seq<byte>) {
    at + 16 <= |data| && data[at..at + 16] == c.hmac(data[..at] + Zeros(16) + data[at + 16..], secret)
  }

  lemma MacStands(data: seq<byte>, secret: seq<byte>, i: nat)
    requires DecodeBytes(data, secret).Ok?
    requires FirstMessageAuth(DecodeBytes(data, secret).value.attributes, i)
    ensures var list := DecodeBytes(data, secret).value.attributes;
            && FirstIndex(list, MESSAGE_AUTHENTICATOR) == Some(i) && Before(list, i) == SectionLength(list[..i])
            && StandsAt(data, 20 + Before(list, i), list[i])
  {
    var p := DecodeBytes(data, secret).value;
    WireOfDecode(data, secret);
    FirstIndexIs(p.attributes, MESSAGE_AUTHENTICATOR, i);
    BeforeIs(p.attributes, i);
    AttributeOctets(p, i);
    StandsInFront(Wire(p), data[Declared(data)..], 20 + Before(p.attributes, i), p.attributes[i]);
  }

  /** The i-th attribute is the Message-Authenticator, and right. */
  predicate CarriesMac(c: Crypto, data: seq<byte>, list: seq<Attribute>, i: nat, secret: seq<byte>) {
    FirstMessageAuth(list, i) && |list[i].value| == 16 && MacAt(c, data, 20 + Before(list, i) + 2, secret)
  }

  lemma MacIsAt(c: Crypto, data: seq<byte>, at: nat, value: seq<byte>, secret: seq<byte>)
    requires |value| == 16 && at + 16 <= |data| && data[at..at + 16] == value
    ensures MacAt(c, data, at, secret) <==> value == c.hmac(Splice(data, at, ZERO_AUTH), secret)
  {
  }

  lemma MacIs(c: Crypto, data: seq<byte>, list: seq<Attribute>, i: nat, secret: seq<byte>)
    requires FirstMessageAuth(list, i) && FirstIndex(list, MESSAGE_AUTHENTICATOR) == Some(i)
    requires Before(list, i) == SectionLength(list[..i]) && StandsAt(data, 20 + Before(list, i), list[i])
    ensures MessageAuthValid(c, list, data, secret) <==> CarriesMac(c, data, list, i, secret)
  {
    var at := 20 + Before(list, i) + 2;
    if |list[i].value| == 16 { MacIsAt(c, data, at, list[i].value, secret); }
    assert GetString(list, MESSAGE_AUTHENTICATOR) == list[i].value;
    assert MessageAuthOffset(list, 20) == Some(at);
  }

  /** What the Message-Authenticator check says of a datagram that was accepted. */
  lemma MessageAuthenticatorChecked(c: Crypto, data: seq<byte>, secret: seq<byte>)
    requires DecodeBytes(data, secret).Ok?
    ensures var list := DecodeBytes(data, secret).value.attributes;
            MessageAuthValid(c, list, data, secret) <==> exists i: nat :: CarriesMac(c, data, list, i, secret)
  {
    var list := DecodeBytes(data, secret).value.attributes;
    forall i: nat | FirstMessageAuth(list, i)
      ensures MessageAuthValid(c, list, data, secret) <==> CarriesMac(c, data, list, i, secret)
    {
      MacStands(data, secret, i);
      MacIs(c, data, list, i, secret);
    }
    if MessageAuthValid(c, list, data, secret) {
      assert FirstMessageAuth(list, FirstIndex(list, MESSAGE_AUTHENTICATOR).value);
    }
  }
}
