/** The attribute list of a packet and its Type-Length-Value wire form (pkg/radius/attribute.go). */
module Attributes {
  import opened Wrappers
  import opened Bytes

  const USER_NAME: byte := 1
  const USER_PASSWORD: byte := 2
  const CHAP_PASSWORD: byte := 3
  const FRAMED_IP_ADDRESS: byte := 8
  const VENDOR_SPECIFIC: byte := 26
  const ACCT_SESSION_ID: byte := 44
  const CHAP_CHALLENGE: byte := 60
  const MESSAGE_AUTHENTICATOR: byte := 80
  const ERROR_CAUSE: byte := 101

  /** 255 bytes on the wire, less the type and length bytes. */
  const MAX_VALUE_LENGTH: nat := 253

  datatype Attribute = Attribute(typ: byte, value: seq<byte>)

  predicate Fits(list: seq<Attribute>) {
    forall i :: 0 <= i < |list| ==> |list[i].value| <= MAX_VALUE_LENGTH
  }

  // ---- Wire form ----

  function Tlv(a: Attribute): (b: seq<byte>)
    requires |a.value| <= MAX_VALUE_LENGTH
    ensures |b| == 2 + |a.value|
  {
    [a.typ, (2 + |a.value|) as byte] + a.value
  }

  /** The attribute section: the TLVs one after the other, in list order. */
  function AttrBytes(list: seq<Attribute>): seq<byte>
    requires Fits(list)
  {
    if list == [] then [] else Tlv(list[0]) + AttrBytes(list[1..])
  }

  /** The attributes a section holds, or None when a header overruns the section. */
  function ParseTlvs(data: seq<byte>): Option<seq<Attribute>>
    decreases |data|
  {
    if data == [] then Some([])
    else if |data| < 2 || data[1] < 2 || data[1] as nat > |data| then None
    else
      match ParseTlvs(data[data[1] as nat..])
      case None => None
      case Some(rest) => Some([Attribute(data[0], data[2..data[1] as nat])] + rest)
  }

  lemma Associate<T>(a: seq<T>, b: seq<T>, c: seq<T>)
    ensures (a + b) + c == a + (b + c)
  {
  }

  lemma {:induction false} AttrBytesConcat(a: seq<Attribute>, b: seq<Attribute>)
    requires Fits(a) && Fits(b)
    ensures Fits(a + b) && AttrBytes(a + b) == AttrBytes(a) + AttrBytes(b)
  {
    if a == [] {
      assert a + b == b;
    } else {
      assert (a + b)[1..] == a[1..] + b;
      AttrBytesConcat(a[1..], b);
      Associate(Tlv(a[0]), AttrBytes(a[1..]), AttrBytes(b));
    }
  }

  lemma AttrBytesAppend(a: seq<Attribute>, x: Attribute)
    requires Fits(a) && |x.value| <= MAX_VALUE_LENGTH
    ensures Fits(a + [x]) && AttrBytes(a + [x]) == AttrBytes(a) + Tlv(x)
  {
    AttrBytesConcat(a, [x]);
    assert AttrBytes([x]) == Tlv(x) + AttrBytes([]);
  }

  /** Decoding what was encoded gives back the list, whatever the list. */
  lemma {:induction false} ParseOfBytes(list: seq<Attribute>)
    requires Fits(list)
    ensures ParseTlvs(AttrBytes(list)) == Some(list)
  {
    if list != [] {
      var data := AttrBytes(list);
      assert data[data[1] as nat..] == AttrBytes(list[1..]);
      assert data[2..data[1] as nat] == list[0].value;
      ParseOfBytes(list[1..]);
      assert [list[0]] + list[1..] == list;
    }
  }

  lemma TlvOfHead(data: seq<byte>)
    requires |data| >= 2 && 2 <= data[1] as nat <= |data|
    ensures var n := data[1] as nat;
            n - 2 <= MAX_VALUE_LENGTH && Tlv(Attribute(data[0], data[2..n])) == data[..n]
  {
  }

  /** Encoding what was decoded gives back the bytes. */
  lemma {:induction false} BytesOfParse(data: seq<byte>)
    requires ParseTlvs(data).Some?
    ensures Fits(ParseTlvs(data).value) && AttrBytes(ParseTlvs(data).value) == data
    decreases |data|
  {
    if data != [] {
      var n := data[1] as nat;
      var rest := ParseTlvs(data[n..]).value;
      BytesOfParse(data[n..]);
      TlvOfHead(data);
      assert ParseTlvs(data).value[1..] == rest;
      assert data[..n] + data[n..] == data;
    }
  }

  /** A section is accepted, and as a given list, exactly when it is the encoding of that list. */
  lemma ParseExact(data: seq<byte>)
    ensures forall list :: ParseTlvs(data) == Some(list) <==> Fits(list) && AttrBytes(list) == data
    ensures ParseTlvs(data).Some? <==> exists list :: Fits(list) && AttrBytes(list) == data
  {
    if ParseTlvs(data).Some? {
      BytesOfParse(data);
    }
    forall list | Fits(list) && AttrBytes(list) == data ensures ParseTlvs(data) == Some(list) {
      ParseOfBytes(list);
    }
  }

  /** The first attribute too long for the wire, as the encoder reports it. */
  method EncodeAttributes(list: seq<Attribute>) returns (r: Result<seq<byte>, nat>)
    ensures r.Ok? <==> Fits(list)
    ensures r.Ok? ==> r.value == AttrBytes(list)
    ensures r.Err? ==> r.error < |list| && |list[r.error].value| > MAX_VALUE_LENGTH && Fits(list[..r.error])
  {
    var out: seq<byte> := [];
    for i := 0 to |list|
      invariant Fits(list[..i]) && out == AttrBytes(list[..i])
    {
      var attr := list[i];
      if |attr.value| > MAX_VALUE_LENGTH {
        return Err(i);
      }
      AttrBytesAppend(list[..i], attr);
      assert list[..i + 1] == list[..i] + [attr];
      out := out + [attr.typ, (2 + |attr.value|) as byte];
      out := out + attr.value;
    }
    assert list[..|list|] == list;
    return Ok(out);
  }

  method DecodeAttributes(section: seq<byte>) returns (r: Option<seq<Attribute>>)
    ensures r == ParseTlvs(section)
  {
    var list: seq<Attribute> := [];
    var data := section;
    while |data| > 0
      invariant ParseTlvs(section).Some? <==> ParseTlvs(data).Some?
      invariant ParseTlvs(data).Some? ==> ParseTlvs(section).value == list + ParseTlvs(data).value
      decreases |data|
    {
      if |data| < 2 {
        return None;
      }
      var length := data[1] as nat;
      if length < 2 || length > |data| {
        return None;
      }
      var attr := Attribute(data[0], data[2..length]);
      ghost var rest := ParseTlvs(data[length..]);
      assert rest.Some? ==> list + ([attr] + rest.value) == (list + [attr]) + rest.value;
      list := list + [attr];
      data := data[length..];
    }
    assert data == [] && list + [] == list;
    return Some(list);
  }

  // ---- Lookup ----

  /** Every attribute of the type, in wire order. */
  function All(list: seq<Attribute>, typ: byte): (r: seq<Attribute>)
    ensures |r| <= |list| && forall i :: 0 <= i < |r| ==> r[i].typ == typ && r[i] in list
  {
    if list == [] then []
    else (if list[0].typ == typ then [list[0]] else []) + All(list[1..], typ)
  }

  /** Where the first attribute of the type stands. */
  function FirstIndex(list: seq<Attribute>, typ: byte): (r: Option<nat>)
    ensures r.Some? ==> r.value < |list| && list[r.value].typ == typ
    ensures r.Some? ==> forall j :: 0 <= j < r.value ==> list[j].typ != typ
    ensures r.None? ==> forall j :: 0 <= j < |list| ==> list[j].typ != typ
  {
    if list == [] then None
    else if list[0].typ == typ then Some(0)
    else
      match FirstIndex(list[1..], typ)
      case None => None
      case Some(i) =>
        assert forall j :: 0 < j < 1 + i ==> list[j] == list[1..][j - 1];
        Some(1 + i)
  }

  lemma FirstIndexIs(list: seq<Attribute>, typ: byte, i: nat)
    requires i < |list| && list[i].typ == typ
    requires forall j :: 0 <= j < i ==> list[j].typ != typ
    ensures FirstIndex(list, typ) == Some(i)
  {
  }

  function Get(list: seq<Attribute>, typ: byte): Option<Attribute> {
    match FirstIndex(list, typ)
    case None => None
    case Some(i) => Some(list[i])
  }

  /** The first matching value; empty when there is none. */
  function GetString(list: seq<Attribute>, typ: byte): seq<byte> {
    match Get(list, typ)
    case None => []
    case Some(a) => a.value
  }

  /** The four bytes of the first matching address; None when absent or of another length. */
  function GetIPv4(list: seq<Attribute>, typ: byte): Option<seq<byte>> {
    match Get(list, typ)
    case Some(a) => if |a.value| == 4 then Some(a.value) else None
    case None => None
  }

  lemma {:induction false} AllConcat(a: seq<Attribute>, b: seq<Attribute>, typ: byte)
    ensures All(a + b, typ) == All(a, typ) + All(b, typ)
  {
    if a == [] {
      assert a + b == b;
    } else {
      assert (a + b)[1..] == a[1..] + b;
      AllConcat(a[1..], b, typ);
      Associate(if a[0].typ == typ then [a[0]] else [], All(a[1..], typ), All(b, typ));
    }
  }

  /** `Get` is the head of `GetAll`. */
  lemma {:induction false} GetIsHeadOfAll(list: seq<Attribute>, typ: byte)
    ensures Get(list, typ) == if All(list, typ) == [] then None else Some(All(list, typ)[0])
  {
    if list != [] && list[0].typ != typ {
      GetIsHeadOfAll(list[1..], typ);
    }
  }

  function Without(list: seq<Attribute>, typ: byte): seq<Attribute> {
    if list == [] then []
    else (if list[0].typ == typ then [] else [list[0]]) + Without(list[1..], typ)
  }

  lemma {:induction false} WithoutConcat(a: seq<Attribute>, b: seq<Attribute>, typ: byte)
    ensures Without(a + b, typ) == Without(a, typ) + Without(b, typ)
  {
    if a == [] {
      assert a + b == b;
    } else {
      assert (a + b)[1..] == a[1..] + b;
      WithoutConcat(a[1..], b, typ);
    }
  }

  /** Removing a type leaves none of it, keeps every other type in order, and loses nothing else. */
  lemma {:induction false} WithoutKeepsTheRest(list: seq<Attribute>, typ: byte, other: byte)
    ensures All(Without(list, typ), other) == if other == typ then [] else All(list, other)
    ensures |Without(list, typ)| + |All(list, typ)| == |list|
  {
    if list != [] {
      var kept := if list[0].typ == typ then [] else [list[0]];
      AllConcat(kept, Without(list[1..], typ), other);
      WithoutKeepsTheRest(list[1..], typ, other);
    }
  }

  // ---- The list that a packet carries ----

  class AttributeList {
    var items: seq<Attribute>

    constructor ()
      ensures items == []
    {
      items := [];
    }

    method Add(typ: byte, value: seq<byte>) returns (ok: bool)
      modifies this
      ensures ok <==> |value| <= MAX_VALUE_LENGTH
      ensures items == if ok then old(items) + [Attribute(typ, value)] else old(items)
    {
      if |value| > MAX_VALUE_LENGTH {
        return false;
      }
      items := items + [Attribute(typ, value)];
      return true;
    }

    method AddUint32(typ: byte, n: nat) returns (ok: bool)
      requires n < 0x1_0000_0000
      modifies this
      ensures ok && items == old(items) + [Attribute(typ, PutU32(n))]
    {
      ok := Add(typ, PutU32(n));
    }

    method Remove(typ: byte) returns (removed: nat)
      modifies this
      ensures items == Without(old(items), typ)
      ensures removed == |All(old(items), typ)|
    {
      var before := items;
      var out: seq<Attribute> := [];
      removed := 0;
      for i := 0 to |before|
        invariant out == Without(before[..i], typ) && removed == |All(before[..i], typ)|
      {
        var attr := before[i];
        assert before[..i + 1] == before[..i] + [attr];
        WithoutConcat(before[..i], [attr], typ);
        AllConcat(before[..i], [attr], typ);
        if attr.typ == typ {
          removed := removed + 1;
        } else {
          out := out + [attr];
        }
      }
      assert before[..|before|] == before;
      items := out;
    }
  }
}
