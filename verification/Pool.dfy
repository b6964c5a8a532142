/** The subscriber pool and its lookup indexes (pkg/subscriber/pool.go). Strings are byte sequences. */
module Pool {
  import opened Wrappers
  import opened Bytes
  import opened Attributes

  const PLUS: byte := 43
  const DOT: byte := 46
  const SESSION_PREFIX: seq<byte> := [114, 97, 100, 115, 116, 111, 114, 109, 45]

  const DIGIT_BUFFER_LIMIT := 1_000_000_000_000

  // ---- Printing ----

  function Digit(d: nat): (c: byte)
    requires d < 16
  {
    if d < 10 then (48 + d) as byte else (87 + d) as byte
  }

  function Decimal(n: nat): (s: seq<byte>)
    ensures |s| > 0 && forall i :: 0 <= i < |s| ==> 48 <= s[i] <= 57
  {
    if n < 10 then [Digit(n)] else Decimal(n / 10) + [Digit(n % 10)]
  }

  function Hex(width: nat, n: nat): (s: seq<byte>)
    ensures |s| == width
  {
    if width == 0 then [] else Hex(width - 1, n / 16) + [Digit(n % 16)]
  }

  function Pow16(width: nat): nat {
    if width == 0 then 1 else 16 * Pow16(width - 1)
  }

  lemma {:induction false} DecimalInjective(a: nat, b: nat)
    requires Decimal(a) == Decimal(b)
    ensures a == b
    decreases a
  {
    var s, t := Decimal(a), Decimal(b);
    assert s[|s| - 1] == Digit(a % 10) && t[|t| - 1] == Digit(b % 10);
    if a >= 10 && b >= 10 {
      assert s[..|s| - 1] == Decimal(a / 10) && t[..|t| - 1] == Decimal(b / 10);
      DecimalInjective(a / 10, b / 10);
    }
  }

  lemma {:induction false} HexInjective(width: nat, a: nat, b: nat)
    requires a < Pow16(width) && b < Pow16(width) && Hex(width, a) == Hex(width, b)
    ensures a == b
  {
    if width > 0 {
      var s, t := Hex(width, a), Hex(width, b);
      assert s[width - 1] == Digit(a % 16) && t[width - 1] == Digit(b % 16);
      assert s[..width - 1] == Hex(width - 1, a / 16) && t[..width - 1] == Hex(width - 1, b / 16);
      HexInjective(width - 1, a / 16, b / 16);
    }
  }

  function DigitValue(c: byte): nat {
    if 48 <= c <= 57 then c as nat - 48 else if 97 <= c <= 102 then c as nat - 87 else 0
  }

  /** The number that digits spell, the most significant first. */
  function Numeral(s: seq<byte>, base: nat): nat {
    if s == [] then 0 else Numeral(s[..|s| - 1], base) * base + DigitValue(s[|s| - 1])
  }

  /** Decimal digits without a leading zero, spelling the number. */
  lemma {:induction false} DecimalSpells(n: nat)
    ensures Numeral(Decimal(n), 10) == n && (Decimal(n)[0] == 48 ==> n == 0 && Decimal(n) == [48])
  {
    var s := Decimal(n);
    if n < 10 {
      assert s[..0] == [];
    } else {
      DecimalSpells(n / 10);
      assert s[..|s| - 1] == Decimal(n / 10);
    }
  }

  /** Hexadecimal digits in lower case, padded with zeros, spelling the number. */
  lemma {:induction false} HexSpells(width: nat, n: nat)
    requires n < Pow16(width)
    ensures Numeral(Hex(width, n), 16) == n
    ensures forall i :: 0 <= i < width ==> 48 <= Hex(width, n)[i] <= 57 || 97 <= Hex(width, n)[i] <= 102
  {
    if width > 0 {
      var s := Hex(width, n);
      HexSpells(width - 1, n / 16);
      assert s[..width - 1] == Hex(width - 1, n / 16);
    }
  }

  /** What follows the last separator is determined, and so is what precedes it. */
  lemma LastSeparator(a: seq<byte>, x: seq<byte>, b: seq<byte>, y: seq<byte>, sep: byte)
    requires sep !in x && sep !in y && a + [sep] + x == b + [sep] + y
    ensures a == b && x == y
  {
    var left, right := a + [sep] + x, b + [sep] + y;
    assert left[|left| - 1 - |x|] == sep && right[|right| - 1 - |y|] == sep;
    assert |x| == |y|;
    assert left[..|a|] == a && right[..|b|] == b;
    assert left[|a| + 1..] == x && right[|b| + 1..] == y;
  }

  /** A username with the subscriber's index appended. */
  function Recycled(base: seq<byte>, i: nat): seq<byte> {
    base + [PLUS] + Decimal(i)
  }

  lemma RecycledInjective(a: seq<byte>, i: nat, b: seq<byte>, j: nat)
    requires Recycled(a, i) == Recycled(b, j)
    ensures a == b && i == j
  {
    LastSeparator(a, Decimal(i), b, Decimal(j), PLUS);
    DecimalInjective(i, j);
  }

  /** One digit moves from the rest of the number to the front of what is written. */
  lemma LastDigit(rest: nat, tail: seq<byte>, at: nat)
    requires 0 < rest < Pow10(at + 1)
    ensures rest / 10 < Pow10(at)
    ensures Decimal(rest) + tail == (if rest / 10 == 0 then [] else Decimal(rest / 10)) + ([Digit(rest % 10)] + tail)
  {
    assert Decimal(rest) == (if rest < 10 then [] else Decimal(rest / 10)) + [Digit(rest % 10)];
  }

  method PutDigit(digits: array<byte>, at: nat, d: nat)
    requires at < digits.Length && d < 10
    modifies digits
    ensures digits[at..] == [Digit(d)] + old(digits[at + 1..])
  {
    digits[at] := (48 + d) as byte;
  }

  /** The digits are filled in from the end of a 12-byte buffer. */
  method FormatRecycledUsername(base: seq<byte>, idx: nat) returns (out: seq<byte>)
    requires idx < DIGIT_BUFFER_LIMIT
    ensures out == Recycled(base, idx)
  {
    out := base + [PLUS];
    if idx == 0 {
      assert Decimal(idx) == [48];
      return out + [48];
    }
    var digits := new byte[12](_ => 0);
    var at := digits.Length;
    var rest := idx;
    while rest > 0
      invariant 0 <= at <= 12 && 0 <= rest < Pow10(at)
      invariant rest > 0 ==> Decimal(idx) == Decimal(rest) + digits[at..]
      invariant rest == 0 ==> Decimal(idx) == digits[at..]
    {
      at := at - 1;
      LastDigit(rest, digits[at + 1..], at);
      PutDigit(digits, at, rest % 10);
      rest := rest / 10;
    }
    assert digits[at..] == Decimal(idx);
    out := out + digits[at..];
  }

  function Pow10(n: nat): nat {
    if n == 0 then 1 else 10 * Pow10(n - 1)
  }

  function Dotted(ip: seq<byte>): seq<byte>
    requires |ip| == 4
  {
    Decimal(ip[0] as nat) + [DOT] + Decimal(ip[1] as nat) + [DOT]
    + Decimal(ip[2] as nat) + [DOT] + Decimal(ip[3] as nat)
  }

  lemma DottedInjective(a: seq<byte>, b: seq<byte>)
    requires |a| == 4 && |b| == 4 && Dotted(a) == Dotted(b)
    ensures a == b
  {
    var a0, b0 := Decimal(a[0] as nat), Decimal(b[0] as nat);
    var a1, b1 := a0 + [DOT] + Decimal(a[1] as nat), b0 + [DOT] + Decimal(b[1] as nat);
    var a2, b2 := a1 + [DOT] + Decimal(a[2] as nat), b1 + [DOT] + Decimal(b[2] as nat);
    LastSeparator(a2, Decimal(a[3] as nat), b2, Decimal(b[3] as nat), DOT);
    LastSeparator(a1, Decimal(a[2] as nat), b1, Decimal(b[2] as nat), DOT);
    LastSeparator(a0, Decimal(a[1] as nat), b0, Decimal(b[1] as nat), DOT);
    forall i | 0 <= i < 4 ensures a[i] == b[i] { DecimalInjective(a[i] as nat, b[i] as nat); }
  }

  // ---- Identities ----

  /** What a subscriber is known by. */
  datatype Identity = Identity(id: nat, username: seq<byte>, session: seq<byte>, ip: seq<byte>)

  datatype Field = Username | Session | FramedIp

  /** Session ids and addresses come from the 32-bit id; the address keeps its low 24 bits. */
  function SessionId(id: nat): seq<byte> {
    SESSION_PREFIX + Hex(8, id)
  }

  function Address(id: nat): (ip: seq<byte>)
    requires id < 0x1_0000_0000
    ensures |ip| == 4
  {
    [10] + PutU32(id)[1..]
  }

  function Dealt(creds: seq<seq<byte>>, i: nat): seq<byte>
    requires creds != []
  {
    creds[i % |creds|]
  }

  /** Credentials are dealt out in turn; from the second round on the index is appended. */
  function UsernameOf(creds: seq<seq<byte>>, i: nat): seq<byte>
    requires creds != []
  {
    if i < |creds| then creds[i] else Recycled(Dealt(creds, i), i)
  }

  function Id32(i: nat): (id: nat)
    ensures id < 0x1_0000_0000
  {
    i % 0x1_0000_0000
  }

  function Known(id: nat, username: seq<byte>): Identity
    requires id < 0x1_0000_0000
  {
    Identity(id, username, SessionId(id), Address(id))
  }

  function IdentityOf(creds: seq<seq<byte>>, i: nat): Identity
    requires creds != []
  {
    Known(Id32(i), UsernameOf(creds, i))
  }

  function Identities(creds: seq<seq<byte>>, n: nat): (all: seq<Identity>)
    requires creds != []
    ensures |all| == n && forall i :: 0 <= i < n ==> all[i] == IdentityOf(creds, i)
  {
    seq(n, (i: nat) => IdentityOf(creds, i))
  }

  function Key(x: Identity, f: Field): seq<byte> {
    match f
    case Username => x.username
    case Session => x.session
    case FramedIp => if |x.ip| == 4 then Dotted(x.ip) else []
  }

  ghost predicate Distinct(all: seq<Identity>, f: Field) {
    forall i, j :: 0 <= i < j < |all| ==> Key(all[i], f) != Key(all[j], f)
  }

  ghost predicate AllDistinct(all: seq<Identity>) {
    forall f: Field :: Distinct(all, f)
  }

  // ---- Indexes ----

  type Index = map<seq<byte>, nat>

  ghost predicate LastWith(all: seq<Identity>, f: Field, k: seq<byte>, i: nat) {
    i < |all| && Key(all[i], f) == k && forall j :: i < j < |all| ==> Key(all[j], f) != k
  }

  /** The index knows exactly the keys in use, and for each the last subscriber registered under it. */
  ghost predicate Indexes(m: Index, all: seq<Identity>, f: Field) {
    && (forall i :: 0 <= i < |all| ==> Key(all[i], f) in m)
    && (forall k :: k in m ==> LastWith(all, f, k, m[k]))
  }

  lemma RegisterKeeps(m: Index, all: seq<Identity>, x: Identity, f: Field)
    requires Indexes(m, all, f)
    ensures Indexes(m[Key(x, f) := |all|], all + [x], f)
  {
  }

  function At(m: Index, k: seq<byte>): Option<nat> {
    if k in m then Some(m[k]) else None
  }

  /** A linear scan: the first subscriber with the key. */
  function Scan(all: seq<Identity>, f: Field, k: seq<byte>): Option<nat> {
    if all == [] then None
    else
      var last := |all| - 1;
      match Scan(all[..last], f, k)
      case Some(i) => Some(i)
      case None => if Key(all[last], f) == k then Some(last) else None
  }

  lemma {:induction false} ScanFindsFirst(all: seq<Identity>, f: Field, k: seq<byte>)
    ensures match Scan(all, f, k)
            case Some(i) => i < |all| && Key(all[i], f) == k && forall j :: 0 <= j < i ==> Key(all[j], f) != k
            case None => forall j :: 0 <= j < |all| ==> Key(all[j], f) != k
  {
    if all != [] {
      var init := all[..|all| - 1];
      ScanFindsFirst(init, f, k);
      assert forall j :: 0 <= j < |init| ==> Key(init[j], f) == Key(all[j], f);
    }
  }

  /** An index answers as a linear scan does, for every key, exactly when the keys are distinct. */
  lemma IndexIsScanExactly(m: Index, all: seq<Identity>, f: Field)
    requires Indexes(m, all, f)
    ensures (forall k :: At(m, k) == Scan(all, f, k)) <==> Distinct(all, f)
  {
    if forall k :: At(m, k) == Scan(all, f, k) {
      forall i, j | 0 <= i < j < |all| ensures Key(all[i], f) != Key(all[j], f) {
        var k := Key(all[i], f);
        ScanFindsFirst(all, f, k);
        assert At(m, k) == Scan(all, f, k);
      }
    }
    if Distinct(all, f) {
      forall k ensures At(m, k) == Scan(all, f, k) { IndexIsScanAt(m, all, f, k); }
    }
  }

  lemma IndexIsScanAt(m: Index, all: seq<Identity>, f: Field, k: seq<byte>)
    requires Indexes(m, all, f) && Distinct(all, f)
    ensures At(m, k) == Scan(all, f, k)
  {
    var r := Scan(all, f, k);
    ScanFindsFirst(all, f, k);
    if r.Some? && k in m {
      assert Key(all[m[k]], f) == Key(all[r.value], f);
    }
  }

  // ---- When the keys are distinct ----

  lemma KeysById(creds: seq<seq<byte>>, i: nat)
    requires creds != [] && i < 0x1_0000_0000
    ensures Key(IdentityOf(creds, i), Session) == SessionId(i)
    ensures Key(IdentityOf(creds, i), FramedIp) == Dotted(Address(i))
  {
    assert Id32(i) == i;
  }

  /** "radstorm-" and the subscriber's id as eight hexadecimal digits. */
  lemma SessionOctets(id: nat)
    requires id < 0x1_0000_0000
    ensures var s := SessionId(id);
            && |s| == 17 && s[..9] == [114, 97, 100, 115, 116, 111, 114, 109, 45] && Numeral(s[9..], 16) == id
            && forall i :: 9 <= i < 17 ==> 48 <= s[i] <= 57 || 97 <= s[i] <= 102
  {
    assert Pow16(8) == 0x1_0000_0000;
    HexSpells(8, id);
    assert SessionId(id)[9..] == Hex(8, id);
  }

  lemma Low16(n: nat)
    ensures n % 0x1_0000 / 0x100 == n / 0x100 % 0x100 && n % 0x1_0000 % 0x100 == n % 0x100
  {
  }

  /** The n-th host of 10.0.0.0/8. */
  lemma AddressOctets(id: nat)
    requires id < 0x1_0000_0000
    ensures Address(id) == [10, (id / 0x1_0000 % 0x100) as byte, (id / 0x100 % 0x100) as byte, (id % 0x100) as byte]
  {
    Low16(id);
    var high, low := PutU16(id / 0x1_0000), PutU16(id % 0x1_0000);
    assert PutU32(id) == [high[0], high[1], low[0], low[1]];
  }

  lemma SessionInjective(i: nat, j: nat)
    requires i < 0x1_0000_0000 && j < 0x1_0000_0000 && SessionId(i) == SessionId(j)
    ensures i == j
  {
    assert Pow16(8) == 0x1_0000_0000;
    assert SessionId(i)[|SESSION_PREFIX|..] == Hex(8, i) && SessionId(j)[|SESSION_PREFIX|..] == Hex(8, j);
    HexInjective(8, i, j);
  }

  lemma SessionsDistinct(creds: seq<seq<byte>>, n: nat)
    requires creds != [] && n <= 0x1_0000_0000
    ensures Distinct(Identities(creds, n), Session)
  {
    var all := Identities(creds, n);
    forall i, j | 0 <= i < j < n ensures Key(all[i], Session) != Key(all[j], Session) {
      KeysById(creds, i);
      KeysById(creds, j);
      if SessionId(i) == SessionId(j) { SessionInjective(i, j); }
    }
  }

  /** Decimal digits that spell i, without a leading zero. */
  predicate Spells(digits: seq<byte>, i: nat) {
    && digits != [] && Numeral(digits, 10) == i && (digits[0] == 48 ==> i == 0)
    && forall k :: 0 <= k < |digits| ==> 48 <= digits[k] <= 57
  }

  /** Credentials go round; from the second round on, a plus sign and the subscriber's index follow. */
  lemma UserNames(creds: seq<seq<byte>>, n: nat, i: nat) returns (digits: seq<byte>)
    requires creds != [] && i < n
    ensures Spells(digits, i)
    ensures Identities(creds, n)[i].username
            == if i < |creds| then creds[i] else creds[i % |creds|] + [43] + digits
  {
    digits := Decimal(i);
    DecimalSpells(i);
    NamedBy(creds, n, i);
  }

  lemma NamedBy(creds: seq<seq<byte>>, n: nat, i: nat)
    requires creds != [] && i < n
    ensures Identities(creds, n)[i].username
            == if i < |creds| then creds[i] else creds[i % |creds|] + [43] + Decimal(i)
  {
    assert Identities(creds, n)[i] == IdentityOf(creds, i);
  }

  lemma AddressRepeats(i: nat, j: nat)
    requires i < 0x1_0000_0000 && j < 0x1_0000_0000 && Address(i) == Address(j)
    ensures i % 0x100_0000 == j % 0x100_0000
  {
    AddressOctets(i);
    AddressOctets(j);
    Low24(i);
    Low24(j);
  }

  lemma Low24(i: nat)
    ensures i % 0x100_0000 == i / 0x1_0000 % 0x100 * 0x1_0000 + i / 0x100 % 0x100 * 0x100 + i % 0x100
  {
  }

  lemma AddressInjective(i: nat, j: nat)
    requires i < 0x100_0000 && j < 0x100_0000 && Address(i) == Address(j)
    ensures i == j
  {
    var a, b := PutU32(i), PutU32(j);
    assert a[0] == 0 && b[0] == 0;
    assert a == [a[0]] + Address(i)[1..] && b == [b[0]] + Address(j)[1..];
    assert GetU32(a) == i && GetU32(b) == j;
  }

  /** Addresses are distinct exactly up to 2^24 subscribers. */
  lemma AddressesDistinctExactly(creds: seq<seq<byte>>, n: nat)
    requires creds != []
    ensures Distinct(Identities(creds, n), FramedIp) <==> n <= 0x100_0000
  {
    var all := Identities(creds, n);
    if n <= 0x100_0000 {
      forall i, j | 0 <= i < j < n ensures Key(all[i], FramedIp) != Key(all[j], FramedIp) {
        KeysById(creds, i);
        KeysById(creds, j);
        if Dotted(Address(i)) == Dotted(Address(j)) {
          DottedInjective(Address(i), Address(j));
          AddressInjective(i, j);
        }
      }
    } else {
      assert Address(0) == Address(0x100_0000);
      KeysById(creds, 0);
      KeysById(creds, 0x100_0000);
      assert Key(all[0], FramedIp) == Key(all[0x100_0000], FramedIp);
    }
  }

  /** The credentials in use differ, and none of them is another with a subscriber's index appended. */
  ghost predicate UsableCredentials(creds: seq<seq<byte>>, n: nat)
    requires creds != []
  {
    && (forall i, j :: 0 <= i < j < |creds| && j < n ==> creds[i] != creds[j])
    && (forall i, j :: 0 <= j < |creds| <= i < n ==> creds[j] != UsernameOf(creds, i))
  }

  lemma UsernamesDistinctExactly(creds: seq<seq<byte>>, n: nat)
    requires creds != []
    ensures Distinct(Identities(creds, n), Username) <==> UsableCredentials(creds, n)
  {
    var all := Identities(creds, n);
    if UsableCredentials(creds, n) {
      forall i, j | 0 <= i < j < n ensures Key(all[i], Username) != Key(all[j], Username) {
        if i >= |creds| && UsernameOf(creds, i) == UsernameOf(creds, j) {
          RecycledInjective(Dealt(creds, i), i, Dealt(creds, j), j);
        }
      }
    }
    if Distinct(all, Username) {
      forall i, j | 0 <= i < j < |creds| && j < n ensures creds[i] != creds[j] {
        assert Key(all[i], Username) != Key(all[j], Username);
      }
      forall i, j | 0 <= j < |creds| <= i < n ensures creds[j] != UsernameOf(creds, i) {
        assert Key(all[j], Username) != Key(all[i], Username);
      }
    }
  }

  /** Distinct usernames without a `+` are enough. */
  lemma PlusFreeIsUsable(creds: seq<seq<byte>>, n: nat)
    requires creds != [] && (forall i, j :: 0 <= i < j < |creds| ==> creds[i] != creds[j])
    requires forall i :: 0 <= i < |creds| ==> PLUS !in creds[i]
    ensures UsableCredentials(creds, n)
  {
    forall i, j | 0 <= j < |creds| <= i < n ensures creds[j] != UsernameOf(creds, i) {
      assert UsernameOf(creds, i)[|Dealt(creds, i)|] == PLUS;
    }
  }

  /** A credential that already looks recycled takes the place of the subscriber it collides with. */
  lemma RecycledCollision()
    ensures var creds: seq<seq<byte>> := [[97], [97, PLUS, 50]];
            !UsableCredentials(creds, 3) && UsernameOf(creds, 2) == creds[1]
  {
    var creds: seq<seq<byte>> := [[97], [97, PLUS, 50]];
    assert 2 % |creds| == 0 && Decimal(2) == [50];
    assert UsernameOf(creds, 2) == creds[1];
  }

  // ---- The pool ----

  /** The first match by session id, then user name, then framed address, scanning every subscriber. */
  function LinearLookup(all: seq<Identity>, list: seq<Attribute>): Option<nat> {
    var session, user, ip :=
      GetString(list, ACCT_SESSION_ID), GetString(list, USER_NAME), GetIPv4(list, FRAMED_IP_ADDRESS);
    if session != [] && Scan(all, Session, session).Some? then Scan(all, Session, session)
    else if user != [] && Scan(all, Username, user).Some? then Scan(all, Username, user)
    else if ip.Some? && |ip.value| == 4 then Scan(all, FramedIp, Dotted(ip.value))
    else None
  }

  function IndexedLookup(bySession: Index, byUser: Index, byIp: Index, list: seq<Attribute>): Option<nat> {
    var session, user, ip :=
      GetString(list, ACCT_SESSION_ID), GetString(list, USER_NAME), GetIPv4(list, FRAMED_IP_ADDRESS);
    if session != [] && session in bySession then At(bySession, session)
    else if user != [] && user in byUser then At(byUser, user)
    else if ip.Some? && |ip.value| == 4 then At(byIp, Dotted(ip.value))
    else None
  }

  lemma AnswersAgree(bySession: Index, byUser: Index, byIp: Index, all: seq<Identity>, list: seq<Attribute>)
    requires At(bySession, GetString(list, ACCT_SESSION_ID)) == Scan(all, Session, GetString(list, ACCT_SESSION_ID))
    requires At(byUser, GetString(list, USER_NAME)) == Scan(all, Username, GetString(list, USER_NAME))
    requires var ip := GetIPv4(list, FRAMED_IP_ADDRESS);
             ip.Some? && |ip.value| == 4 ==> At(byIp, Dotted(ip.value)) == Scan(all, FramedIp, Dotted(ip.value))
    ensures IndexedLookup(bySession, byUser, byIp, list) == LinearLookup(all, list)
  {
  }

  /** With distinct keys the three hash lookups answer as a scan of all subscribers does. */
  lemma LookupIsLinear(bySession: Index, byUser: Index, byIp: Index, all: seq<Identity>, list: seq<Attribute>)
    requires Indexes(bySession, all, Session) && Indexes(byUser, all, Username) && Indexes(byIp, all, FramedIp)
    requires AllDistinct(all)
    ensures IndexedLookup(bySession, byUser, byIp, list) == LinearLookup(all, list)
  {
    IndexIsScanAt(bySession, all, Session, GetString(list, ACCT_SESSION_ID));
    IndexIsScanAt(byUser, all, Username, GetString(list, USER_NAME));
    var ip := GetIPv4(list, FRAMED_IP_ADDRESS);
    if ip.Some? && |ip.value| == 4 { IndexIsScanAt(byIp, all, FramedIp, Dotted(ip.value)); }
    AnswersAgree(bySession, byUser, byIp, all, list);
  }

  method NewSubscriber(creds: seq<seq<byte>>, i: nat) returns (s: Identity)
    requires creds != [] && i < DIGIT_BUFFER_LIMIT
    ensures s == IdentityOf(creds, i)
  {
    var username := Dealt(creds, i);
    if i >= |creds| {
      username := FormatRecycledUsername(username, i);
    }
    assert username == UsernameOf(creds, i);
    s := Known(Id32(i), username);
  }

  lemma OneMoreIdentity(creds: seq<seq<byte>>, i: nat)
    requires creds != []
    ensures Identities(creds, i + 1) == Identities(creds, i) + [IdentityOf(creds, i)]
  {
  }

  class Pool {
    var all: seq<Identity>
    var byUsername: Index
    var bySessionID: Index
    var byFramedIP: Index

    ghost predicate Valid()
      reads this
    {
      Indexes(byUsername, all, Username) && Indexes(bySessionID, all, Session) && Indexes(byFramedIP, all, FramedIp)
    }

    constructor (creds: seq<seq<byte>>, count: int)
      requires count <= DIGIT_BUFFER_LIMIT
      ensures Valid()
      ensures all == if count <= 0 || creds == [] then [] else Identities(creds, count)
    {
      all, byUsername, bySessionID, byFramedIP := [], map[], map[], map[];
      new;
      if count > 0 && creds != [] {
        Fill(creds, count);
      }
    }

    method Fill(creds: seq<seq<byte>>, n: nat)
      requires creds != [] && n <= DIGIT_BUFFER_LIMIT && Valid() && all == []
      modifies this
      ensures Valid() && all == Identities(creds, n)
    {
      for i := 0 to n
        invariant Valid() && all == Identities(creds, i)
      {
        var s := NewSubscriber(creds, i);
        Register(s);
        OneMoreIdentity(creds, i);
      }
    }

    /** A later subscriber takes over the keys it shares with an earlier one. */
    method Register(s: Identity)
      requires Valid() && |s.ip| == 4
      modifies this
      ensures Valid() && all == old(all) + [s]
    {
      RegisterKeeps(byUsername, all, s, Username);
      RegisterKeeps(bySessionID, all, s, Session);
      RegisterKeeps(byFramedIP, all, s, FramedIp);
      byUsername := byUsername[s.username := |all|];
      bySessionID := bySessionID[s.session := |all|];
      byFramedIP := byFramedIP[Dotted(s.ip) := |all|];
      all := all + [s];
    }

    /** Hash lookups in priority order; a scan of all subscribers would find the same one if no key is shared. */
    method Lookup(list: seq<Attribute>) returns (r: Option<nat>)
      requires Valid()
      ensures r == IndexedLookup(bySessionID, byUsername, byFramedIP, list)
      ensures AllDistinct(all) ==> r == LinearLookup(all, list)
    {
      r := None;
      var session, user, ip :=
        GetString(list, ACCT_SESSION_ID), GetString(list, USER_NAME), GetIPv4(list, FRAMED_IP_ADDRESS);
      if session != [] && session in bySessionID {
        r := At(bySessionID, session);
      } else if user != [] && user in byUsername {
        r := At(byUsername, user);
      } else if ip.Some? && |ip.value| == 4 {
        r := At(byFramedIP, Dotted(ip.value));
      }
      if AllDistinct(all) {
        LookupIsLinear(bySessionID, byUsername, byFramedIP, all, list);
      }
    }
  }

  /** For up to 2^24 subscribers over usable credentials, no two subscribers share any key. */
  lemma KeysDistinct(creds: seq<seq<byte>>, n: nat)
    requires creds != [] && n <= 0x100_0000 && UsableCredentials(creds, n)
    ensures AllDistinct(Identities(creds, n))
  {
    SessionsDistinct(creds, n);
    AddressesDistinctExactly(creds, n);
    UsernamesDistinctExactly(creds, n);
    forall f: Field ensures Distinct(Identities(creds, n), f) {
      match f case Username => case Session => case FramedIp =>
    }
  }

  /** A shared key answers with one no earlier than the later sharer; a scan, with one no later than the earlier. */
  lemma SharedKeyGoesToTheLast(m: Index, all: seq<Identity>, f: Field, i: nat, j: nat)
    requires Indexes(m, all, f) && i < j < |all| && Key(all[i], f) == Key(all[j], f)
    ensures var k := Key(all[i], f);
            && At(m, k).Some? && At(m, k).value >= j
            && Scan(all, f, k).Some? && Scan(all, f, k).value <= i
  {
    var k := Key(all[i], f);
    assert k in m && LastWith(all, f, k, m[k]);
    ScanFindsFirst(all, f, k);
  }
}
