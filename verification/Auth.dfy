/** Authenticators and User-Password hiding (pkg/radius/auth.go, section 5.2 of RFC 2865). */
module Auth {
  import opened Wrappers
  import opened Bytes

  const MAX_PASSWORD: nat := 128

  /** MD5(Code | Identifier | Length | authenticator | Attributes | Secret). */
  function PacketDigest(c: Crypto, code: byte, identifier: byte, length: nat, authenticator: Digest,
                        body: seq<byte>, secret: seq<byte>): Digest
    requires length < 0x1_0000
  {
    c.md5([code, identifier] + PutU16(length) + authenticator + body + secret)
  }

  // ---- User-Password ----

  /** Ciphertext blocks: each is its plain block XOR MD5(secret | previous ciphertext block). */
  function Hide(c: Crypto, secret: seq<byte>, prev: seq<byte>, plain: seq<byte>): (r: seq<byte>)
    requires |plain| % 16 == 0
    ensures |r| == |plain|
    decreases |plain|
  {
    if plain == [] then []
    else
      var block := XorBytes(plain[..16], c.md5(secret + prev));
      block + Hide(c, secret, block, plain[16..])
  }

  /** Plain blocks: each is its ciphertext block XOR MD5(secret | previous ciphertext block). */
  function Unhide(c: Crypto, secret: seq<byte>, prev: seq<byte>, cipher: seq<byte>): (r: seq<byte>)
    requires |cipher| % 16 == 0
    ensures |r| == |cipher|
    decreases |cipher|
  {
    if cipher == [] then []
    else XorBytes(cipher[..16], c.md5(secret + prev)) + Unhide(c, secret, cipher[..16], cipher[16..])
  }

  lemma {:induction false} UnhideHide(c: Crypto, secret: seq<byte>, prev: seq<byte>, plain: seq<byte>)
    requires |plain| % 16 == 0
    ensures Unhide(c, secret, prev, Hide(c, secret, prev, plain)) == plain
    decreases |plain|
  {
    if plain != [] {
      var key := c.md5(secret + prev);
      var block := XorBytes(plain[..16], key);
      var cipher := Hide(c, secret, prev, plain);
      assert cipher[..16] == block && cipher[16..] == Hide(c, secret, block, plain[16..]);
      XorBytesCancels(plain[..16], key);
      UnhideHide(c, secret, block, plain[16..]);
    }
  }

  /** The password with NULs up to the next positive multiple of 16. */
  function Pad(password: seq<byte>): (r: seq<byte>)
    ensures |r| % 16 == 0 && |password| <= |r| && 16 <= |r| < |password| + 17
    ensures |password| <= MAX_PASSWORD ==> |r| <= MAX_PASSWORD
    ensures r[..|password|] == password && forall i :: |password| <= i < |r| ==> r[i] == 0
  {
    var blocks := (|password| + 15) / 16;
    password + Zeros((if blocks == 0 then 16 else blocks * 16) - |password|)
  }

  function StripNuls(s: seq<byte>): (r: seq<byte>)
    ensures |r| <= |s| && r == s[..|r|]
    ensures r == [] || r[|r| - 1] != 0
    ensures forall i :: |r| <= i < |s| ==> s[i] == 0
  {
    if s == [] || s[|s| - 1] != 0 then s else StripNuls(s[..|s| - 1])
  }

  /** Padding is invisible once trailing NULs are gone. */
  lemma StripPad(password: seq<byte>)
    ensures StripNuls(Pad(password)) == StripNuls(password)
  {
    var a, b, padded := StripNuls(Pad(password)), StripNuls(password), Pad(password);
    assert forall i :: 0 <= i < |password| ==> padded[i] == padded[..|password|][i] == password[i];
    assert |a| == |b|;
    assert padded[..|b|] == password[..|b|];
  }

  function Encrypted(c: Crypto, password: seq<byte>, secret: seq<byte>, auth: Digest): Option<seq<byte>> {
    if |password| > MAX_PASSWORD then None else Some(Hide(c, secret, auth, Pad(password)))
  }

  function Decrypted(c: Crypto, cipher: seq<byte>, secret: seq<byte>, auth: Digest): Option<seq<byte>> {
    if |cipher| % 16 != 0 || |cipher| == 0 then None else Some(StripNuls(Unhide(c, secret, auth, cipher)))
  }

  /** The inner loop of both directions: one 16-byte block of `out` from one of `text`. */
  method XorBlock(out: array<byte>, i: nat, text: seq<byte>, digest: Digest)
    requires i + 16 <= |text| == out.Length
    modifies out
    ensures out[..i] == old(out[..i])
    ensures out[i..i + 16] == XorBytes(text[i..i + 16], digest) && out[..i + 16] == out[..i] + out[i..i + 16]
  {
    for j := 0 to 16
      invariant out[..i] == old(out[..i])
      invariant forall k :: 0 <= k < j ==> out[i + k] == XorByte(text[i + k], digest[k])
    {
      out[i + j] := XorByte(text[i + j], digest[j]);
    }
    assert out[..i + 16] == out[..i] + out[i..i + 16];
  }

  lemma HideBlock(c: Crypto, secret: seq<byte>, prev: seq<byte>, text: seq<byte>, i: nat)
    requires i + 16 <= |text| && |text| % 16 == 0 && i % 16 == 0
    ensures var block := XorBytes(text[i..i + 16], c.md5(secret + prev));
            Hide(c, secret, prev, text[i..]) == block + Hide(c, secret, block, text[i + 16..])
  {
    assert text[i..][..16] == text[i..i + 16] && text[i..][16..] == text[i + 16..];
  }

  lemma UnhideBlock(c: Crypto, secret: seq<byte>, prev: seq<byte>, text: seq<byte>, i: nat)
    requires i + 16 <= |text| && |text| % 16 == 0 && i % 16 == 0
    ensures var block := text[i..i + 16];
            Unhide(c, secret, prev, text[i..])
            == XorBytes(block, c.md5(secret + prev)) + Unhide(c, secret, block, text[i + 16..])
  {
    assert text[i..][..16] == text[i..i + 16] && text[i..][16..] == text[i + 16..];
  }

  /** Moving a block from the front of the rest to the end of what is done. */
  lemma Shift(done: seq<byte>, block: seq<byte>, rest: seq<byte>)
    requires block <= rest
    ensures (done + block) + rest[|block|..] == done + rest
  {
  }

  /** One round of the loop below: the block at i hidden, behind what is done. */
  method HideInto(out: array<byte>, i: nat, c: Crypto, secret: seq<byte>, prev: seq<byte>, text: seq<byte>,
                  ghost done: seq<byte>, ghost rest: seq<byte>) returns (block: seq<byte>)
    requires i + 16 <= |text| == out.Length && |text| % 16 == 0 && i % 16 == 0
    requires done == out[..i] && rest == Hide(c, secret, prev, text[i..])
    modifies out
    ensures |block| == 16 && block <= rest && out[..i + 16] == done + block
    ensures rest[16..] == Hide(c, secret, block, text[i + 16..]) && (done + block) + rest[16..] == done + rest
  {
    HideBlock(c, secret, prev, text, i);
    XorBlock(out, i, text, c.md5(secret + prev));
    block := out[i..i + 16];
    Shift(done, block, rest);
  }

  method UnhideInto(out: array<byte>, i: nat, c: Crypto, secret: seq<byte>, prev: seq<byte>, text: seq<byte>,
                    ghost done: seq<byte>, ghost rest: seq<byte>)
    requires i + 16 <= |text| == out.Length && |text| % 16 == 0 && i % 16 == 0
    requires done == out[..i] && rest == Unhide(c, secret, prev, text[i..])
    modifies out
    ensures |rest| >= 16 && out[..i + 16] == done + rest[..16]
    ensures rest[16..] == Unhide(c, secret, text[i..i + 16], text[i + 16..])
    ensures (done + rest[..16]) + rest[16..] == done + rest
  {
    UnhideBlock(c, secret, prev, text, i);
    XorBlock(out, i, text, c.md5(secret + prev));
    Shift(done, out[i..i + 16], rest);
  }

  /** The loop over the padded password. */
  method HideAll(c: Crypto, secret: seq<byte>, auth: Digest, text: seq<byte>) returns (cipher: seq<byte>)
    requires |text| % 16 == 0
    ensures cipher == Hide(c, secret, auth, text)
  {
    var out := new byte[|text|](_ => 0);
    var prev: seq<byte> := auth;
    var i := 0;
    ghost var done: seq<byte>, rest := [], Hide(c, secret, auth, text);
    assert text[0..] == text;
    while i < |text|
      invariant 0 <= i <= |text| && i % 16 == 0 && done == out[..i]
      invariant rest == Hide(c, secret, prev, text[i..]) && Hide(c, secret, auth, text) == done + rest
    {
      prev := HideInto(out, i, c, secret, prev, text, done, rest);
      done, rest := done + prev, rest[16..];
      i := i + 16;
    }
    assert done + [] == done == out[..];
    return out[..];
  }

  method EncryptUserPassword(c: Crypto, password: seq<byte>, secret: seq<byte>, auth: Digest)
    returns (r: Option<seq<byte>>)
    ensures r == Encrypted(c, password, secret, auth)
  {
    if |password| > MAX_PASSWORD {
      return None;
    }
    var cipher := HideAll(c, secret, auth, Pad(password));
    return Some(cipher);
  }

  method DecryptUserPassword(c: Crypto, ciphertext: seq<byte>, secret: seq<byte>, auth: Digest)
    returns (r: Option<seq<byte>>)
    ensures r == Decrypted(c, ciphertext, secret, auth)
  {
    if |ciphertext| % 16 != 0 || |ciphertext| == 0 {
      return None;
    }
    var out := new byte[|ciphertext|](_ => 0);
    var prev: seq<byte> := auth;
    var i := 0;
    ghost var done: seq<byte>, rest := [], Unhide(c, secret, auth, ciphertext);
    assert ciphertext[0..] == ciphertext;
    while i < |ciphertext|
      invariant 0 <= i <= |ciphertext| && i % 16 == 0 && done == out[..i]
      invariant rest == Unhide(c, secret, prev, ciphertext[i..]) && Unhide(c, secret, auth, ciphertext) == done + rest
    {
      UnhideInto(out, i, c, secret, prev, ciphertext, done, rest);
      prev := ciphertext[i..i + 16];
      done, rest := done + rest[..16], rest[16..];
      i := i + 16;
    }
    assert done + [] == done == out[..];
    var plain := out[..];
    while |plain| > 0 && plain[|plain| - 1] == 0
      invariant StripNuls(plain) == StripNuls(out[..])
      decreases |plain|
    {
      plain := plain[..|plain| - 1];
    }
    return Some(plain);
  }

  /**
   Every password of at most 128 bytes is recovered up to trailing NULs, and exactly when it has
   none; the ciphertext is a multiple of 16 from 16 to 128 bytes long.
   */
  lemma PasswordRoundTrip(c: Crypto, password: seq<byte>, secret: seq<byte>, auth: Digest)
    requires |password| <= MAX_PASSWORD
    ensures var cipher := Encrypted(c, password, secret, auth).value;
            && |cipher| % 16 == 0 && 16 <= |cipher| <= 128
            && Decrypted(c, cipher, secret, auth) == Some(StripNuls(password))
            && (Decrypted(c, cipher, secret, auth) == Some(password)
                <==> (password == [] || password[|password| - 1] != 0))
  {
    UnhideHide(c, secret, auth, Pad(password));
    StripPad(password);
  }
}
