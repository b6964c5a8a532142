/** Vendor-Specific attributes (pkg/radius/vendor.go, section 5.26 of RFC 2865). */
module Vendor {
  import opened Wrappers
  import opened Bytes
  import opened Attributes

  /** 253 bytes of outer value, less the vendor id and the inner type and length. */
  const MAX_VSA_VALUE: nat := 247

  datatype VendorAttribute = VendorAttribute(vendorId: nat, vendorType: byte, value: seq<byte>)

  /** The vendor attributes that the inner TLVs stand for. */
  function OfTlvs(vendorId: nat, tlvs: seq<Attribute>): (r: seq<VendorAttribute>)
    ensures |r| == |tlvs|
    ensures forall i :: 0 <= i < |r| ==> r[i] == VendorAttribute(vendorId, tlvs[i].typ, tlvs[i].value)
  {
    seq(|tlvs|, i requires 0 <= i < |tlvs| => VendorAttribute(vendorId, tlvs[i].typ, tlvs[i].value))
  }

  /** All the VSAs of one outer value, or None when it is malformed. */
  function ParseVSAs(value: seq<byte>): Option<seq<VendorAttribute>> {
    if |value| < 4 then None
    else
      match ParseTlvs(value[4..])
      case None => None
      case Some(tlvs) => Some(OfTlvs(GetU32(value[..4]), tlvs))
  }

  method EncodeVSA(vendorId: nat, vendorType: byte, value: seq<byte>) returns (r: Option<seq<byte>>)
    requires vendorId < 0x1_0000_0000
    ensures r.Some? <==> |value| <= MAX_VSA_VALUE
    ensures r.Some? ==> |r.value| <= MAX_VALUE_LENGTH
    ensures r.Some? ==> r.value == PutU32(vendorId) + Tlv(Attribute(vendorType, value))
  {
    if |value| > MAX_VSA_VALUE {
      return None;
    }
    var out := new byte[6 + |value|](_ => 0);
    var id := PutU32(vendorId);
    forall i | 0 <= i < 4 { out[i] := id[i]; }
    out[4] := vendorType;
    out[5] := (2 + |value|) as byte;
    forall i | 0 <= i < |value| { out[6 + i] := value[i]; }
    assert out[..] == id + ([vendorType, (2 + |value|) as byte] + value);
    return Some(out[..]);
  }

  method DecodeVSA(value: seq<byte>) returns (r: Option<VendorAttribute>)
    ensures r.Some? <==> |value| >= 6 && 2 <= value[5] as nat <= |value| - 4
    ensures r.Some? ==> 4 + value[5] as nat <= |value|
                        && r.value == VendorAttribute(GetU32(value[..4]), value[4], value[6..4 + value[5] as nat])
  {
    if |value| < 6 {
      return None;
    }
    var vendorLength := value[5] as nat;
    if vendorLength < 2 || 4 + vendorLength > |value| {
      return None;
    }
    return Some(VendorAttribute(GetU32(value[..4]), value[4], value[6..4 + vendorLength]));
  }

  method DecodeVSAs(value: seq<byte>) returns (r: Option<seq<VendorAttribute>>)
    ensures r == ParseVSAs(value)
  {
    if |value| < 4 {
      return None;
    }
    var vendorId := GetU32(value[..4]);
    var rest := value[4..];
    var out: seq<VendorAttribute> := [];
    while |rest| > 0
      invariant ParseTlvs(value[4..]).Some? <==> ParseTlvs(rest).Some?
      invariant ParseTlvs(rest).Some? ==>
                  OfTlvs(vendorId, ParseTlvs(value[4..]).value) == out + OfTlvs(vendorId, ParseTlvs(rest).value)
      decreases |rest|
    {
      if |rest| < 2 {
        return None;
      }
      var vt, vl := rest[0], rest[1] as nat;
      if vl < 2 || vl > |rest| {
        return None;
      }
      out := out + [VendorAttribute(vendorId, vt, rest[2..vl])];
      rest := rest[vl..];
    }
    assert rest == [] && out + OfTlvs(vendorId, []) == out;
    return Some(out);
  }

  /** Decoding one encoded VSA gives it back, by either decoder. */
  lemma VSARoundTrip(vendorId: nat, vendorType: byte, value: seq<byte>)
    requires vendorId < 0x1_0000_0000 && |value| <= MAX_VSA_VALUE
    ensures var wire := PutU32(vendorId) + Tlv(Attribute(vendorType, value));
            && |wire| >= 6 && 2 <= wire[5] as nat && 4 + wire[5] as nat == |wire|
            && VendorAttribute(GetU32(wire[..4]), wire[4], wire[6..4 + wire[5] as nat])
               == VendorAttribute(vendorId, vendorType, value)
            && ParseVSAs(wire) == Some([VendorAttribute(vendorId, vendorType, value)])
  {
    var a := Attribute(vendorType, value);
    var wire := PutU32(vendorId) + Tlv(a);
    assert wire[..4] == PutU32(vendorId) && wire[4..] == Tlv(a) && wire[6..] == value;
    assert AttrBytes([a]) == Tlv(a) + AttrBytes([]) == Tlv(a);
    ParseOfBytes([a]);
    assert OfTlvs(vendorId, [a]) == [VendorAttribute(vendorId, vendorType, value)];
  }

  predicate WellFormedVSAs(value: seq<byte>, vendorId: nat, tlvs: seq<Attribute>) {
    vendorId < 0x1_0000_0000 && Fits(tlvs) && value == PutU32(vendorId) + AttrBytes(tlvs)
  }

  lemma VSAsOfParse(value: seq<byte>)
    requires ParseVSAs(value).Some?
    ensures |value| >= 4 && ParseTlvs(value[4..]).Some?
    ensures WellFormedVSAs(value, GetU32(value[..4]), ParseTlvs(value[4..]).value)
  {
    BytesOfParse(value[4..]);
    PutGetU32(value[..4]);
    assert value == value[..4] + value[4..];
  }

  lemma ParseOfVSAs(value: seq<byte>, vendorId: nat, tlvs: seq<Attribute>)
    requires WellFormedVSAs(value, vendorId, tlvs)
    ensures ParseVSAs(value) == Some(OfTlvs(vendorId, tlvs))
  {
    assert value[..4] == PutU32(vendorId) && value[4..] == AttrBytes(tlvs);
    ParseOfBytes(tlvs);
  }

  /**
   An outer value is accepted exactly when it is a vendor id followed by inner TLVs, and what is
   returned accounts for every byte of it.
   */
  lemma VSAsLoseNothing(value: seq<byte>)
    ensures ParseVSAs(value).Some? <==>
            exists vendorId, tlvs :: WellFormedVSAs(value, vendorId, tlvs)
    ensures forall vendorId, tlvs | WellFormedVSAs(value, vendorId, tlvs) ::
              ParseVSAs(value) == Some(OfTlvs(vendorId, tlvs))
  {
    if ParseVSAs(value).Some? {
      VSAsOfParse(value);
    }
    forall vendorId, tlvs | WellFormedVSAs(value, vendorId, tlvs)
      ensures ParseVSAs(value) == Some(OfTlvs(vendorId, tlvs))
    {
      ParseOfVSAs(value, vendorId, tlvs);
    }
  }

  predicate Matches(v: VendorAttribute, vendorId: nat, vendorType: byte) {
    v.vendorId == vendorId && v.vendorType == vendorType
  }

  /** The VSAs of every well-formed outer attribute, in wire order; malformed ones are skipped. */
  function Flatten(list: seq<Attribute>): seq<VendorAttribute> {
    if list == [] then []
    else (if list[0].typ == VENDOR_SPECIFIC && ParseVSAs(list[0].value).Some?
          then ParseVSAs(list[0].value).value else []) + Flatten(list[1..])
  }

  function First(vsas: seq<VendorAttribute>, vendorId: nat, vendorType: byte): (r: Option<VendorAttribute>)
    ensures r.None? <==> forall i :: 0 <= i < |vsas| ==> !Matches(vsas[i], vendorId, vendorType)
    ensures r.Some? ==> Matches(r.value, vendorId, vendorType) && r.value in vsas
  {
    if vsas == [] then None
    else if Matches(vsas[0], vendorId, vendorType) then Some(vsas[0])
    else First(vsas[1..], vendorId, vendorType)
  }

  lemma {:induction false} FirstConcat(
      a: seq<VendorAttribute>, b: seq<VendorAttribute>, vendorId: nat, vendorType: byte)
    ensures First(a + b, vendorId, vendorType) ==
            if First(a, vendorId, vendorType).Some? then First(a, vendorId, vendorType)
            else First(b, vendorId, vendorType)
  {
    if a == [] {
      assert a + b == b;
    } else {
      assert (a + b)[1..] == a[1..] + b;
      FirstConcat(a[1..], b, vendorId, vendorType);
    }
  }

  /** The inner loop of `GetVendor`. */
  method FindIn(vsas: seq<VendorAttribute>, vendorId: nat, vendorType: byte) returns (r: Option<VendorAttribute>)
    ensures r == First(vsas, vendorId, vendorType)
  {
    for k := 0 to |vsas|
      invariant First(vsas, vendorId, vendorType) == First(vsas[k..], vendorId, vendorType)
    {
      var v := vsas[k];
      assert vsas[k..][1..] == vsas[k + 1..];
      if v.vendorId == vendorId && v.vendorType == vendorType {
        return Some(v);
      }
    }
    return None;
  }

  lemma FlattenStep(list: seq<Attribute>, i: nat)
    requires i < |list|
    ensures var vsas := ParseVSAs(list[i].value);
            Flatten(list[i..]) == if list[i].typ == VENDOR_SPECIFIC && vsas.Some?
                                  then vsas.value + Flatten(list[i + 1..]) else Flatten(list[i + 1..])
  {
    assert list[i..][1..] == list[i + 1..];
  }

  /** The first match across all outer attributes, skipping the malformed ones. */
  method GetVendor(list: seq<Attribute>, vendorId: nat, vendorType: byte) returns (r: Option<VendorAttribute>)
    ensures r == First(Flatten(list), vendorId, vendorType)
  {
    for i := 0 to |list|
      invariant First(Flatten(list), vendorId, vendorType) == First(Flatten(list[i..]), vendorId, vendorType)
    {
      var attr := list[i];
      FlattenStep(list, i);
      if attr.typ != VENDOR_SPECIFIC {
        continue;
      }
      var vsas := DecodeVSAs(attr.value);
      if vsas.None? {
        continue;
      }
      FirstConcat(vsas.value, Flatten(list[i + 1..]), vendorId, vendorType);
      var found := FindIn(vsas.value, vendorId, vendorType);
      if found.Some? {
        return found;
      }
    }
    return None;
  }

  /** Vendor attribute k of the o-th attribute, a well-formed Vendor-Specific (26), is one of those looked for. */
  predicate Hit(list: seq<Attribute>, o: nat, k: nat, vendorId: nat, vendorType: byte) {
    && o < |list| && list[o].typ == 26 && ParseVSAs(list[o].value).Some?
    && var vsas := ParseVSAs(list[o].value).value;
       k < |vsas| && vsas[k].vendorId == vendorId && vsas[k].vendorType == vendorType
  }

  ghost predicate FirstHit(list: seq<Attribute>, o: nat, k: nat, vendorId: nat, vendorType: byte) {
    && Hit(list, o, k, vendorId, vendorType)
    && forall p: nat, j: nat :: Hit(list, p, j, vendorId, vendorType) ==> o < p || (o == p && k <= j)
  }

  lemma {:induction false} FirstIn(vsas: seq<VendorAttribute>, vendorId: nat, vendorType: byte) returns (k: nat)
    requires First(vsas, vendorId, vendorType).Some?
    ensures k < |vsas| && First(vsas, vendorId, vendorType) == Some(vsas[k])
    ensures vsas[k].vendorId == vendorId && vsas[k].vendorType == vendorType
    ensures forall j :: 0 <= j < k ==> !(vsas[j].vendorId == vendorId && vsas[j].vendorType == vendorType)
  {
    if Matches(vsas[0], vendorId, vendorType) {
      k := 0;
    } else {
      k := FirstIn(vsas[1..], vendorId, vendorType);
      k := k + 1;
    }
  }

  lemma HitInTail(list: seq<Attribute>, o: nat, k: nat, vendorId: nat, vendorType: byte)
    requires o > 0 && list != []
    ensures Hit(list, o, k, vendorId, vendorType) <==> Hit(list[1..], o - 1, k, vendorId, vendorType)
  {
  }

  lemma NotInHead(list: seq<Attribute>, vendorId: nat, vendorType: byte)
    requires list != []
    requires !(list[0].typ == VENDOR_SPECIFIC && ParseVSAs(list[0].value).Some?)
             || First(ParseVSAs(list[0].value).value, vendorId, vendorType).None?
    ensures forall k: nat :: !Hit(list, 0, k, vendorId, vendorType)
    ensures First(Flatten(list), vendorId, vendorType) == First(Flatten(list[1..]), vendorId, vendorType)
  {
    if list[0].typ == VENDOR_SPECIFIC && ParseVSAs(list[0].value).Some? {
      var vsas := ParseVSAs(list[0].value).value;
      FirstConcat(vsas, Flatten(list[1..]), vendorId, vendorType);
      assert forall k :: 0 <= k < |vsas| ==> !Matches(vsas[k], vendorId, vendorType);
    } else {
      assert Flatten(list) == Flatten(list[1..]);
    }
  }

  ghost predicate NoHit(list: seq<Attribute>, vendorId: nat, vendorType: byte) {
    forall p: nat, j: nat :: !Hit(list, p, j, vendorId, vendorType)
  }

  lemma BehindHead(list: seq<Attribute>, vendorId: nat, vendorType: byte)
    requires list != [] && forall k: nat :: !Hit(list, 0, k, vendorId, vendorType)
    ensures NoHit(list[1..], vendorId, vendorType) ==> NoHit(list, vendorId, vendorType)
    ensures forall o: nat, k: nat :: FirstHit(list[1..], o, k, vendorId, vendorType) ==>
              FirstHit(list, o + 1, k, vendorId, vendorType)
  {
    forall p: nat, j: nat | p > 0
      ensures Hit(list, p, j, vendorId, vendorType) <==> Hit(list[1..], p - 1, j, vendorId, vendorType)
    {
      HitInTail(list, p, j, vendorId, vendorType);
    }
  }

  lemma InHead(list: seq<Attribute>, vendorId: nat, vendorType: byte) returns (k: nat)
    requires list != [] && list[0].typ == VENDOR_SPECIFIC && ParseVSAs(list[0].value).Some?
    requires First(ParseVSAs(list[0].value).value, vendorId, vendorType).Some?
    ensures FirstHit(list, 0, k, vendorId, vendorType)
    ensures First(Flatten(list), vendorId, vendorType) == Some(ParseVSAs(list[0].value).value[k])
  {
    var vsas := ParseVSAs(list[0].value).value;
    FirstConcat(vsas, Flatten(list[1..]), vendorId, vendorType);
    k := FirstIn(vsas, vendorId, vendorType);
  }

  /** GetVendor's answer is the first of its kind in wire order, over all well-formed Vendor-Specific attributes. */
  lemma {:induction false} GetVendorFindsFirst(list: seq<Attribute>, vendorId: nat, vendorType: byte)
      returns (o: nat, k: nat)
    ensures match First(Flatten(list), vendorId, vendorType)
            case None => NoHit(list, vendorId, vendorType)
            case Some(v) => FirstHit(list, o, k, vendorId, vendorType) && v == ParseVSAs(list[o].value).value[k]
  {
    o, k := 0, 0;
    if list != [] {
      if list[0].typ == VENDOR_SPECIFIC && ParseVSAs(list[0].value).Some?
         && First(ParseVSAs(list[0].value).value, vendorId, vendorType).Some? {
        k := InHead(list, vendorId, vendorType);
      } else {
        NotInHead(list, vendorId, vendorType);
        BehindHead(list, vendorId, vendorType);
        o, k := GetVendorFindsFirst(list[1..], vendorId, vendorType);
        o := o + 1;
      }
    }
  }
}
