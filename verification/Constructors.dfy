/** Packet constructors (pkg/radius/constructors.go). */
module Constructors {
  import opened Wrappers
  import opened Bytes
  import opened Attributes
  import opened Codes
  import opened Auth
  import opened Packets
  import Bits
  import Octets

  datatype BuildError =
    | NoRandom
    | NilRequest
    | UserNameTooLong
    | RefusedCredential(typ: byte)
    | ExtraTooLong(typ: byte)
    | PasswordTooLong

  predicate IsCredential(typ: byte) {
    typ == USER_PASSWORD || typ == CHAP_PASSWORD || typ == CHAP_CHALLENGE
  }

  /** The first extra that NewAccessRequestPAP turns away, if any. */
  function ExtrasError(extras: seq<Attribute>): (r: Option<BuildError>)
    ensures r.None? <==> Fits(extras) && forall i :: 0 <= i < |extras| ==> !IsCredential(extras[i].typ)
  {
    if extras == [] then None
    else if IsCredential(extras[0].typ) then Some(RefusedCredential(extras[0].typ))
    else if |extras[0].value| > MAX_VALUE_LENGTH then Some(ExtraTooLong(extras[0].typ))
    else ExtrasError(extras[1..])
  }

  /** What NewAccessRequestPAP builds: User-Name, the extras, User-Password hidden under the random authenticator. */
  function PapRequest(c: Crypto, random: Option<Digest>, identifier: byte, secret: seq<byte>,
                      username: seq<byte>, password: seq<byte>, extras: seq<Attribute>): Result<PacketValue, BuildError>
  {
    if random.None? then Err(NoRandom)
    else if |username| > MAX_VALUE_LENGTH then Err(UserNameTooLong)
    else if ExtrasError(extras).Some? then Err(ExtrasError(extras).value)
    else
      match Encrypted(c, password, secret, random.value)
      case None => Err(PasswordTooLong)
      case Some(cipher) =>
        Ok(PacketValue(ACCESS_REQUEST, identifier, random.value,
                       [Attribute(USER_NAME, username)] + extras + [Attribute(USER_PASSWORD, cipher)],
                       ZERO_AUTH, secret))
  }

  lemma {:induction false} ExtrasErrorStep(extras: seq<Attribute>, i: nat)
    requires i < |extras| && ExtrasError(extras[..i]).None?
    ensures IsCredential(extras[i].typ) ==> ExtrasError(extras) == Some(RefusedCredential(extras[i].typ))
    ensures !IsCredential(extras[i].typ) && |extras[i].value| > MAX_VALUE_LENGTH ==>
              ExtrasError(extras) == Some(ExtraTooLong(extras[i].typ))
    ensures !IsCredential(extras[i].typ) && |extras[i].value| <= MAX_VALUE_LENGTH ==>
              ExtrasError(extras[..i + 1]).None?
  {
    if i > 0 {
      assert extras[..i][1..] == extras[1..][..i - 1];
      assert extras[..i + 1][1..] == extras[1..][..i];
      ExtrasErrorStep(extras[1..], i - 1);
    }
  }

  method NewAccessRequestPAP(c: Crypto, random: Option<Digest>, identifier: byte, secret: seq<byte>,
                             username: seq<byte>, password: seq<byte>, extras: seq<Attribute>)
    returns (r: Result<Packet, BuildError>)
    ensures var spec := PapRequest(c, random, identifier, secret, username, password, extras);
            && (r.Ok? <==> spec.Ok?)
            && (r.Ok? ==> fresh(r.value) && fresh(r.value.attributes) && r.value.Value() == spec.value)
            && (r.Err? ==> r.error == spec.error)
  {
    if random.None? {
      return Err(NoRandom);
    }
    var p := new Packet(ACCESS_REQUEST, identifier, secret);
    p.authenticator := random.value;
    var ok := p.attributes.Add(USER_NAME, username);
    if !ok {
      return Err(UserNameTooLong);
    }
    for i := 0 to |extras|
      invariant ExtrasError(extras[..i]).None?
      invariant p.Value() == PacketValue(ACCESS_REQUEST, identifier, random.value,
                                         [Attribute(USER_NAME, username)] + extras[..i], ZERO_AUTH, secret)
    {
      var a := extras[i];
      ExtrasErrorStep(extras, i);
      if a.typ == USER_PASSWORD || a.typ == CHAP_PASSWORD || a.typ == CHAP_CHALLENGE {
        return Err(RefusedCredential(a.typ));
      }
      ok := p.attributes.Add(a.typ, a.value);
      if !ok {
        return Err(ExtraTooLong(a.typ));
      }
    }
    assert extras[..|extras|] == extras;
    var cipher := EncryptUserPassword(c, password, secret, random.value);
    if cipher.None? {
      return Err(PasswordTooLong);
    }
    ok := p.attributes.Add(USER_PASSWORD, cipher.value);
    return Ok(p);
  }

  /** The Access-Request built: its fields, its attributes in order, or why it is not built. */
  lemma PapLayout(c: Crypto, random: Option<Digest>, identifier: byte, secret: seq<byte>,
                  username: seq<byte>, password: seq<byte>, extras: seq<Attribute>)
    ensures var r := PapRequest(c, random, identifier, secret, username, password, extras);
            var refused := exists i :: 0 <= i < |extras| && (extras[i].typ in {2, 3, 60} || |extras[i].value| > 253);
            && (r.Ok? <==> random.Some? && |username| <= 253 && !refused && |password| <= 128)
            && (r.Ok? ==>
                  && r.value.code == 1 && r.value.identifier == identifier && r.value.authenticator == random.value
                  && r.value.secret == secret && |r.value.attributes| == |extras| + 2
                  && r.value.attributes[0] == Attribute(1, username) && r.value.attributes[1..|extras| + 1] == extras
                  && r.value.attributes[|extras| + 1].typ == 2
                  && Encrypted(c, password, secret, random.value) == Some(r.value.attributes[|extras| + 1].value))
            && (random.None? <==> r == Err(NoRandom))
            && (random.Some? && |username| > 253 <==> r == Err(UserNameTooLong))
            && (random.Some? && |username| <= 253 && refused ==> r.Err? && r.error in RefusalsOf(extras))
            && (random.Some? && |username| <= 253 && !refused && |password| > 128 <==> r == Err(PasswordTooLong))
  {
    if ExtrasError(extras).Some? { FirstRefusal(extras); }
  }

  /** The refusal of the first extra that is a credential or too long. */
  function RefusalsOf(extras: seq<Attribute>): set<BuildError> {
    set i | 0 <= i < |extras| && (forall j :: 0 <= j < i ==> extras[j].typ !in {2, 3, 60} && |extras[j].value| <= 253)
            && (extras[i].typ in {2, 3, 60} || |extras[i].value| > 253)
      :: if extras[i].typ in {2, 3, 60} then RefusedCredential(extras[i].typ) else ExtraTooLong(extras[i].typ)
  }

  lemma {:induction false} FirstRefusal(extras: seq<Attribute>)
    requires ExtrasError(extras).Some?
    ensures ExtrasError(extras).value in RefusalsOf(extras)
    ensures exists i :: 0 <= i < |extras| && (extras[i].typ in {2, 3, 60} || |extras[i].value| > 253)
  {
    if IsCredential(extras[0].typ) || |extras[0].value| > 253 {
      assert extras[0] == extras[0];
    } else {
      FirstRefusal(extras[1..]);
    }
  }

  /** User-Name and User-Password stay what they were when Encode fills in another attribute. */
  lemma PapLookups(list: seq<Attribute>, username: seq<byte>, extras: seq<Attribute>, cipher: seq<byte>,
                   filled: seq<Attribute>)
    requires list == [Attribute(USER_NAME, username)] + extras + [Attribute(USER_PASSWORD, cipher)]
    requires ExtrasError(extras).None?
    requires filled == list || (HasMessageAuth(list) && exists v :: filled == WithMessageAuth(list, v))
    ensures GetString(filled, USER_NAME) == username && GetString(filled, USER_PASSWORD) == cipher
  {
    var last := |list| - 1;
    assert forall j :: 0 < j < last ==> list[j] == extras[j - 1];
    assert filled[0] == list[0] && filled[last] == list[last];
    FirstIndexIs(filled, USER_NAME, 0);
    FirstIndexIs(filled, USER_PASSWORD, last);
  }

  /** What a server recovers from the datagram of a PAP request. */
  predicate Recovers(c: Crypto, wire: seq<byte>, secret: seq<byte>, username: seq<byte>, plain: seq<byte>) {
    && DecodeBytes(wire, secret).Ok?
    && var d := DecodeBytes(wire, secret).value;
       && GetString(d.attributes, USER_NAME) == username
       && Decrypted(c, GetString(d.attributes, USER_PASSWORD), secret, d.authenticator) == Some(plain)
  }

  /** The arguments of NewAccessRequestPAP, and the random bytes it and Encode would read. */
  datatype PapArgs = PapArgs(random: Digest, encodeRandom: Digest, identifier: byte, secret: seq<byte>,
                             username: seq<byte>, password: seq<byte>, extras: seq<Attribute>)
  {
    function Request(c: Crypto): Result<PacketValue, BuildError> {
      PapRequest(c, Some(random), identifier, secret, username, password, extras)
    }

    function Datagram(c: Crypto): Option<seq<byte>> {
      match Request(c)
      case Err(_) => None
      case Ok(p) =>
        match Encoding(c, p, Some(encodeRandom)).result case Err(_) => None case Ok(wire) => Some(wire)
    }

    predicate PasswordRecovered(c: Crypto) {
      Datagram(c).Some? && Recovers(c, Datagram(c).value, secret, username, StripNuls(password))
    }
  }

  /**
   Constructor, Encode and Decode together: the server recovers the user name and, up to trailing
   NULs, the password.
   */
  lemma PapEndToEnd(c: Crypto, a: PapArgs)
    requires a.Datagram(c).Some? && (a.random != ZERO_AUTH || a.encodeRandom == ZERO_AUTH)
    ensures a.PasswordRecovered(c)
  {
    var p := a.Request(c).value;
    var e := Encoding(c, p, Some(a.encodeRandom));
    var cipher := Encrypted(c, a.password, a.secret, a.random).value;
    EncodeDecodeRoundTrip(c, p, Some(a.encodeRandom));
    EncodedAttributes(c, p, Some(a.encodeRandom));
    PapLookups(p.attributes, a.username, a.extras, cipher, e.after.attributes);
    PasswordRoundTrip(c, a.password, a.secret, a.random);
  }

  lemma {:induction false} SectionLengthByLengths(a: seq<Attribute>, b: seq<Attribute>)
    requires |a| == |b| && forall i :: 0 <= i < |a| ==> |a[i].value| == |b[i].value|
    ensures SectionLength(a) == SectionLength(b)
  {
    if a != [] { SectionLengthByLengths(a[1..], b[1..]); }
  }

  /** Whether a request can be built and encoded does not depend on MD5 or HMAC. */
  lemma DatagramExistsForAll(c: Crypto, d: Crypto, a: PapArgs)
    requires a.Datagram(c).Some?
    ensures a.Datagram(d).Some?
  {
    var p, q := a.Request(c).value, a.Request(d).value;
    var last := |p.attributes| - 1;
    EncodeSucceedsExactly(c, p, Some(a.encodeRandom));
    EncodeSucceedsExactly(d, q, Some(a.encodeRandom));
    assert p.attributes[..last] == q.attributes[..last];
    assert p.attributes[last].typ == q.attributes[last].typ == USER_PASSWORD;
    SectionLengthByLengths(p.attributes, q.attributes);
    SectionLengthIs(p.attributes);
    SectionLengthIs(q.attributes);
    if HasMessageAuth(p.attributes) {
      FirstIndexIs(q.attributes, MESSAGE_AUTHENTICATOR, FirstIndex(p.attributes, MESSAGE_AUTHENTICATOR).value);
    }
    if HasMessageAuth(q.attributes) {
      FirstIndexIs(p.attributes, MESSAGE_AUTHENTICATOR, FirstIndex(q.attributes, MESSAGE_AUTHENTICATOR).value);
    }
  }

  /** MD5 under which two different authenticators give two different first key blocks. */
  function Telltale(secret: seq<byte>): Crypto {
    Crypto(x => if x == secret + ZERO_AUTH then ZERO_AUTH else seq(16, _ => 1), (m, k) => ZERO_AUTH)
  }

  lemma FlipChanges(b: byte)
    ensures XorByte(XorByte(b, 0), 1) != b
  {
    Bits.XorStep(b as nat, 0);
    Bits.XorStep(XorByte(b, 0) as nat, 1);
  }

  /** The first byte of a text, read off the text without its trailing NULs. */
  lemma FirstByteKept(s: seq<byte>)
    requires s != []
    ensures s[0] == if StripNuls(s) == [] then 0 else StripNuls(s)[0]
  {
  }

  /** Hidden under the zero authenticator, read back under another: the first byte differs. */
  lemma WrongAuthenticatorChangesPassword(secret: seq<byte>, password: seq<byte>, auth: Digest)
    requires auth != ZERO_AUTH
    ensures var cipher := Hide(Telltale(secret), secret, ZERO_AUTH, Pad(password));
            StripNuls(Unhide(Telltale(secret), secret, auth, cipher)) != StripNuls(password)
  {
    var c, pad := Telltale(secret), Pad(password);
    assert (secret + auth)[|secret|..] == auth && (secret + ZERO_AUTH)[|secret|..] == ZERO_AUTH;
    var cipher := Hide(c, secret, ZERO_AUTH, pad);
    var plain := Unhide(c, secret, auth, cipher);
    assert cipher[0] == XorByte(pad[0], 0);
    assert plain[0] == XorByte(cipher[0], 1);
    FlipChanges(pad[0]);
    StripPad(password);
    FirstByteKept(plain);
    FirstByteKept(pad);
  }

  lemma ZeroAuthenticatorLosesPassword(a: PapArgs)
    requires a.Datagram(Telltale(a.secret)).Some?
    requires a.random == ZERO_AUTH && a.encodeRandom != ZERO_AUTH
    ensures !a.PasswordRecovered(Telltale(a.secret))
  {
    var c := Telltale(a.secret);
    var p := a.Request(c).value;
    var e := Encoding(c, p, Some(a.encodeRandom));
    var cipher := Encrypted(c, a.password, a.secret, a.random).value;
    EncodeDecodeRoundTrip(c, p, Some(a.encodeRandom));
    EncodedAttributes(c, p, Some(a.encodeRandom));
    PapLookups(p.attributes, a.username, a.extras, cipher, e.after.attributes);
    WrongAuthenticatorChangesPassword(a.secret, a.password, a.encodeRandom);
  }

  /**
   The law fails when the random authenticator is all zero, for Encode then replaces it after the
   password was hidden under it: it holds whatever MD5 and HMAC are exactly when that is not so.
   */
  lemma PapRecoversExactly(a: PapArgs, any: Crypto)
    requires a.Datagram(any).Some?
    ensures (forall c :: a.PasswordRecovered(c)) <==> a.random != ZERO_AUTH || a.encodeRandom == ZERO_AUTH
  {
    if a.random != ZERO_AUTH || a.encodeRandom == ZERO_AUTH {
      forall c ensures a.PasswordRecovered(c) {
        DatagramExistsForAll(any, c, a);
        PapEndToEnd(c, a);
      }
    } else {
      DatagramExistsForAll(any, Telltale(a.secret), a);
      ZeroAuthenticatorLosesPassword(a);
    }
  }

  // ---- Dynamic-authorization replies ----

  const PLACEHOLDER := Attribute(MESSAGE_AUTHENTICATOR, Zeros(16))

  function DynAuthReply(code: byte, identifier: byte, requestAuth: Digest, secret: seq<byte>, list: seq<Attribute>)
    : PacketValue
  {
    PacketValue(code, identifier, ZERO_AUTH, list + [PLACEHOLDER], requestAuth, secret)
  }

  function ErrorCause(cause: nat): Attribute
    requires cause < 0x1_0000_0000
  {
    Attribute(ERROR_CAUSE, PutU32(cause))
  }

  /** Appends the extras, stopping at the first that does not fit. */
  method AddExtras(list: AttributeList, extras: seq<Attribute>) returns (ok: bool)
    modifies list
    ensures ok <==> Fits(extras)
    ensures ok ==> list.items == old(list.items) + extras
  {
    for i := 0 to |extras|
      invariant Fits(extras[..i]) && list.items == old(list.items) + extras[..i]
    {
      ok := list.Add(extras[i].typ, extras[i].value);
      if !ok {
        return false;
      }
    }
    assert extras[..|extras|] == extras;
    return true;
  }

  method NewDynAuthAck(code: byte, req: Packet?, secret: seq<byte>, extras: seq<Attribute>)
    returns (r: Option<Packet>)
    ensures r.Some? <==> req != null && Fits(extras)
    ensures r.Some? ==> fresh(r.value) && fresh(r.value.attributes)
                        && r.value.Value() == DynAuthReply(code, req.identifier, req.authenticator, secret, extras)
  {
    if req == null {
      return None;
    }
    var p := new Packet(code, req.identifier, secret);
    p.requestAuthenticator := req.authenticator;
    var ok := AddExtras(p.attributes, extras);
    if !ok {
      return None;
    }
    ok := p.attributes.Add(MESSAGE_AUTHENTICATOR, Zeros(MESSAGE_AUTHENTICATOR_LENGTH));
    return Some(p);
  }

  method NewDynAuthNak(code: byte, req: Packet?, secret: seq<byte>, cause: nat, extras: seq<Attribute>)
    returns (r: Option<Packet>)
    requires cause < 0x1_0000_0000
    ensures r.Some? <==> req != null && Fits(extras)
    ensures r.Some? ==> fresh(r.value) && fresh(r.value.attributes)
                        && r.value.Value() == DynAuthReply(code, req.identifier, req.authenticator, secret,
                                                           [ErrorCause(cause)] + extras)
  {
    if req == null {
      return None;
    }
    var p := new Packet(code, req.identifier, secret);
    p.requestAuthenticator := req.authenticator;
    var ok := p.attributes.AddUint32(ERROR_CAUSE, cause);
    ok := AddExtras(p.attributes, extras);
    if !ok {
      return None;
    }
    ok := p.attributes.Add(MESSAGE_AUTHENTICATOR, Zeros(MESSAGE_AUTHENTICATOR_LENGTH));
    return Some(p);
  }

  /** What stands between the header of a reply and its Message-Authenticator value. */
  function ReplyBody(cause: Option<nat>): (body: seq<byte>)
    requires cause.Some? ==> cause.value < 0x1_0000_0000
    ensures |body| <= 8
  {
    (if cause.Some? then [101, 6] + PutU32(cause.value) else []) + [80, 18]
  }

  /**
   The one datagram that answers a request: header, Error-Cause on a NAK, Message-Authenticator. Its authenticator
   is the digest of section 2.3 of RFC 5176 over the request's authenticator and a zero Message-Authenticator, whose
   value is then the HMAC of what is sent.
   */
  predicate IsReply(c: Crypto, secret: seq<byte>, w: seq<byte>, code: byte, identifier: byte, requestAuth: Digest,
                    cause: Option<nat>)
    requires cause.Some? ==> cause.value < 0x1_0000_0000
  {
    var body := ReplyBody(cause);
    var at := 20 + |body|;
    && |w| == at + 16 && w[..4] == [code, identifier, 0, (at + 16) as byte] && w[20..at] == body
    && w[4..20] == c.md5(w[..4] + requestAuth + (body + Zeros(16)) + secret)
    && w[at..] == c.hmac(w[..at] + Zeros(16), secret)
  }

  function Causes(cause: Option<nat>): seq<Attribute>
    requires cause.Some? ==> cause.value < 0x1_0000_0000
  {
    if cause.Some? then [ErrorCause(cause.value)] else []
  }

  lemma ReplyAttributes(cause: Option<nat>, value: Digest)
    requires cause.Some? ==> cause.value < 0x1_0000_0000
    ensures var list := Causes(cause) + [Attribute(MESSAGE_AUTHENTICATOR, value)];
            && Fits(list) && AttrBytes(list) == ReplyBody(cause) + value
            && Octets.Before(list, |list| - 1) + 2 == |ReplyBody(cause)|
            && FirstIndex(list, MESSAGE_AUTHENTICATOR) == Some(|list| - 1)
            && list[|list| - 1].value == value
  {
    var mac := Attribute(MESSAGE_AUTHENTICATOR, value);
    var list := Causes(cause) + [mac];
    FirstIndexIs(list, MESSAGE_AUTHENTICATOR, |list| - 1);
    AttrBytesAppend(Causes(cause), mac);
    assert AttrBytes([]) == [];
    if cause.Some? {
      assert Causes(cause)[1..] == [];
      assert AttrBytes(Causes(cause)) == [101, 6] + PutU32(cause.value);
    }
  }

  /**
   The replies the listener builds always encode, and what is decoded from them has the request's
   Identifier, the reply code, the given Error-Cause and a valid Message-Authenticator.
   */
  lemma DynAuthReplyOnWire(c: Crypto, code: byte, identifier: byte, requestAuth: Digest, secret: seq<byte>,
                           cause: Option<nat>)
    requires IsResponse(code) && secret != [] && (cause.Some? ==> cause.value < 0x1_0000_0000)
    ensures var list := if cause.Some? then [ErrorCause(cause.value)] else [];
            var e := Encoding(c, DynAuthReply(code, identifier, requestAuth, secret, list), None);
            && e.result.Ok? && DecodeBytes(e.result.value, secret).Ok?
            && var d := DecodeBytes(e.result.value, secret).value;
               && d.code == code && d.identifier == identifier
               && (if cause.Some? then Get(d.attributes, ERROR_CAUSE) == Some(ErrorCause(cause.value))
                   else Get(d.attributes, ERROR_CAUSE) == None)
               && MessageAuthValid(c, d.attributes, e.result.value, secret)
  {
    var list := if cause.Some? then [ErrorCause(cause.value)] else [];
    var p := DynAuthReply(code, identifier, requestAuth, secret, list);
    SectionLengthAppend(list, PLACEHOLDER);
    SectionLengthIs(p.attributes);
    assert SectionLength(list) <= 6 by { assert list != [] ==> list[1..] == []; }
    FirstIndexIs(p.attributes, MESSAGE_AUTHENTICATOR, |list|);
    EncodeSucceedsExactly(c, p, None);
    EncodeDecodeRoundTrip(c, p, None);
    EncodedMessageAuthValidates(c, p, None);
    EncodedAttributes(c, p, None);
  }

  lemma ReplyEncodes(c: Crypto, p: PacketValue, cause: Option<nat>)
    requires IsResponse(p.code) && p.secret != [] && (cause.Some? ==> cause.value < 0x1_0000_0000)
    requires p.attributes == Causes(cause) + [PLACEHOLDER]
    ensures Encoding(c, p, None).result.Ok? && HasMessageAuth(p.attributes)
  {
    ReplyAttributes(cause, Zeros(16));
    EncodeSucceedsExactly(c, p, None);
  }

  lemma LastReplaced(list: seq<Attribute>, init: seq<Attribute>, a: Attribute, b: Attribute)
    requires list == init + [a]
    ensures list[|init| := b] == init + [b]
  {
  }

  lemma FourOctets(w: seq<byte>)
    requires 4 <= |w| < 256 && w[2] as nat * 256 + w[3] as nat == |w|
    ensures w[..4] == [w[0], w[1], 0, |w| as byte]
  {
    assert w[2] == 0;
  }

  /** The fixed octets of a reply. */
  lemma ReplyLayout(c: Crypto, p: PacketValue, cause: Option<nat>, w: seq<byte>)
    requires IsResponse(p.code) && p.secret != [] && (cause.Some? ==> cause.value < 0x1_0000_0000)
    requires p.attributes == Causes(cause) + [PLACEHOLDER] && Encoding(c, p, None).result == Ok(w)
    ensures var at := 20 + |ReplyBody(cause)|;
            && |w| == at + 16 && w[..4] == [p.code, p.identifier, 0, (at + 16) as byte] && w[20..at] == ReplyBody(cause)
  {
    var after := Encoding(c, p, None).after;
    EncodeDecodeRoundTrip(c, p, None);
    EncodedAttributes(c, p, None);
    ReplyAttributes(cause, Zeros(16));
    var mac: Digest := GetString(after.attributes, MESSAGE_AUTHENTICATOR);
    LastReplaced(p.attributes, Causes(cause), PLACEHOLDER, Attribute(MESSAGE_AUTHENTICATOR, mac));
    ReplyAttributes(cause, mac);
    Octets.HeaderOctets(after);
    FourOctets(w);
    Octets.WireBody(after);
    assert w[20..][..|ReplyBody(cause)|] == w[20..20 + |ReplyBody(cause)|];
  }

  lemma ReplyDigests(c: Crypto, p: PacketValue, cause: Option<nat>, w: seq<byte>)
    requires IsResponse(p.code) && p.secret != [] && (cause.Some? ==> cause.value < 0x1_0000_0000)
    requires p.attributes == Causes(cause) + [PLACEHOLDER] && Encoding(c, p, None).result == Ok(w)
    ensures var at := 20 + |ReplyBody(cause)|;
            && |w| == at + 16
            && w[4..20] == c.md5(w[..4] + p.requestAuthenticator + (ReplyBody(cause) + Zeros(16)) + p.secret)
            && w[at..] == c.hmac(w[..at] + Zeros(16), p.secret)
  {
    var body := ReplyBody(cause) + Zeros(16);
    ReplyAttributes(cause, Zeros(16));
    Octets.UnfilledOctets(c, p, None);
    Octets.AuthenticatorOnWire(c, p, None);
    assert (w[..20] + body)[..4] == w[..4] && (w[..20] + body)[20..] == body;
    Octets.MessageAuthenticatorOnWire(c, p, None);
    var at := 20 + |ReplyBody(cause)|;
    assert w[..at] + Zeros(16) + w[at + 16..] == w[..at] + Zeros(16);
    assert w[at..at + 16] == w[at..];
  }

  /** What the listener's constructors build is encoded as exactly this datagram. */
  lemma ReplyOctets(c: Crypto, code: byte, identifier: byte, requestAuth: Digest, secret: seq<byte>, cause: Option<nat>)
    requires IsResponse(code) && secret != [] && (cause.Some? ==> cause.value < 0x1_0000_0000)
    ensures var e := Encoding(c, DynAuthReply(code, identifier, requestAuth, secret, Causes(cause)), None);
            e.result.Ok? && IsReply(c, secret, e.result.value, code, identifier, requestAuth, cause)
  {
    var p := DynAuthReply(code, identifier, requestAuth, secret, Causes(cause));
    ReplyEncodes(c, p, cause);
    ReplyLayout(c, p, cause, Encoding(c, p, None).result.value);
    ReplyDigests(c, p, cause, Encoding(c, p, None).result.value);
  }
}
