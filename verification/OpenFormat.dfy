/**
 The OPEN message octet by octet, as section 4.2 of RFC 4271, section 4 of RFC 5492, section 3 of RFC 6793 and
 section 8 of RFC 4760 lay it out, and the decoder and encoder against it.
 */
module OpenFormat {
  import opened Bytes
  import opened Wrappers
  import opened Message

  /** An optional parameter: type 2 carries capabilities, any other type is opaque. */
  datatype Param = Capabilities(caps: seq<Tlv>) | Other(code: byte, value: seq<byte>)

  predicate AllShort(caps: seq<Tlv>) {
    forall i :: 0 <= i < |caps| ==> |caps[i].value| < 256
  }

  /** Each capability is its code, its length and its value. */
  function CapOctets(caps: seq<Tlv>): seq<byte>
    requires AllShort(caps)
  {
    if caps == [] then [] else [caps[0].code, |caps[0].value|] + caps[0].value + CapOctets(caps[1..])
  }

  predicate FitsParam(p: Param) {
    match p
    case Capabilities(caps) => AllShort(caps) && |CapOctets(caps)| < 256
    case Other(code, value) => code != 2 && |value| < 256
  }

  predicate AllFit(ps: seq<Param>) {
    forall i :: 0 <= i < |ps| ==> FitsParam(ps[i])
  }

  function ParamOctets(p: Param): (b: seq<byte>)
    requires FitsParam(p)
    ensures |b| >= 2 && |b| == 2 + b[1] as int
  {
    match p
    case Capabilities(caps) => [2, |CapOctets(caps)|] + CapOctets(caps)
    case Other(code, value) => [code, |value|] + value
  }

  function AllOctets(ps: seq<Param>): seq<byte>
    requires AllFit(ps)
  {
    if ps == [] then [] else ParamOctets(ps[0]) + AllOctets(ps[1..])
  }

  function CapsIn(p: Param): seq<Tlv> {
    if p.Capabilities? then p.caps else []
  }

  function AllCaps(ps: seq<Param>): seq<Tlv> {
    if ps == [] then [] else CapsIn(ps[0]) + AllCaps(ps[1..])
  }

  predicate IsAs4(c: Tlv) {
    c.code == 65 && |c.value| == 4
  }

  function Number(b: seq<byte>): nat
    requires |b| == 4
  {
    b[0] as int * 0x100_0000 + b[1] as int * 0x1_0000 + b[2] as int * 0x100 + b[3]
  }

  /** The last four-octet AS capability (code 65) gives the ASN; without one the two-octet field does. */
  ghost predicate SaysAsn(caps: seq<Tlv>, legacy: nat, asn: u32) {
    if HasAs4(caps) then exists i: nat :: LastAs4(caps, i) && asn == Number(caps[i].value) else asn == legacy
  }

  predicate HasAs4(caps: seq<Tlv>) {
    exists i :: 0 <= i < |caps| && IsAs4(caps[i])
  }

  ghost predicate LastAs4(caps: seq<Tlv>, i: nat) {
    i < |caps| && IsAs4(caps[i]) && forall j :: i < j < |caps| ==> !IsAs4(caps[j])
  }

  /** A multiprotocol capability (code 1): AFI in two octets, one reserved, SAFI in one. */
  predicate IsFamily(c: Tlv, afi: byte, safi: byte) {
    c.code == 1 && |c.value| == 4 && c.value[0] == 0 && c.value[1] == afi && c.value[3] == safi
  }

  predicate Offers(caps: seq<Tlv>, afi: byte, safi: byte) {
    exists i :: 0 <= i < |caps| && IsFamily(caps[i], afi, safi)
  }

  /** The fixed fields, and what the capabilities add to them, say `o`. */
  ghost predicate SaysFields(body: seq<byte>, caps: seq<Tlv>, o: OpenMsg)
    requires |body| >= 10
  {
    && SaysAsn(caps, body[1] as int * 256 + body[2], o.asn)
    && o.holdTime == body[3] as int * 256 + body[4]
    && o.routerId == Number(body[5..9])
    && (o.ipv4Unicast <==> Offers(caps, 1, 1)) && (o.ipv6Unicast <==> Offers(caps, 2, 1))
    && (o.flowspecV4 <==> Offers(caps, 1, 133)) && (o.flowspecV6 <==> Offers(caps, 2, 133))
  }

  /** `body` has the optional parameters `ps`, then `rest`, and says `o`. */
  ghost predicate SaysOpen(body: seq<byte>, ps: seq<Param>, rest: seq<byte>, o: OpenMsg) {
    && AllFit(ps) && |body| >= 10
    && body[9] as int == |AllOctets(ps)| && body[10..] == AllOctets(ps) + rest
    && SaysFields(body, AllCaps(ps), o)
  }

  // ---- The lists are read exactly ------------------------------------------------------------

  lemma {:induction false} CapOctetsRead(caps: seq<Tlv>)
    requires AllShort(caps)
    ensures CapsOfParam(CapOctets(caps)) == Ok(caps)
  {
    if caps == [] {
    } else {
      var b, n := CapOctets(caps), |caps[0].value|;
      CapOctetsRead(caps[1..]);
      assert b[2 + n..] == CapOctets(caps[1..]) && b[2..2 + n] == caps[0].value;
      assert [caps[0]] + caps[1..] == caps;
    }
  }

  lemma CapSplit(region: seq<byte>)
    requires region != [] && CapsOfParam(region).Ok?
    ensures |region| >= 2 && 2 + region[1] as int <= |region|
    ensures var end := 2 + region[1] as int;
            && CapsOfParam(region[end..]).Ok?
            && CapsOfParam(region).value == [Tlv(region[0], region[2..end])] + CapsOfParam(region[end..]).value
  {
  }

  lemma CapsCons(c: Tlv, rest: seq<Tlv>)
    requires |c.value| < 256 && AllShort(rest)
    ensures AllShort([c] + rest) && CapOctets([c] + rest) == [c.code, |c.value|] + c.value + CapOctets(rest)
  {
    assert ([c] + rest)[1..] == rest;
  }

  lemma NoOctets()
    ensures CapsOfParam([]) == Ok([]) && AllShort([]) && CapOctets([]) == []
  {
  }

  lemma {:induction false} CapsAreOctets(region: seq<byte>)
    requires CapsOfParam(region).Ok?
    ensures AllShort(CapsOfParam(region).value) && CapOctets(CapsOfParam(region).value) == region
  {
    hide CapsOfParam, CapOctets, AllShort;
    if region == [] {
      NoOctets();
    } else {
      CapSplit(region);
      var end := 2 + region[1] as int;
      CapsAreOctets(region[end..]);
      CapsCons(Tlv(region[0], region[2..end]), CapsOfParam(region[end..]).value);
      assert region == [region[0], region[1]] + region[2..end] + region[end..];
    }
  }

  lemma ParamFirst(p: Param, rest: seq<byte>)
    requires FitsParam(p)
    ensures Caps(ParamOctets(p) + rest) == Then(CapsIn(p), Caps(rest))
  {
    hide CapsOfParam, Caps, Then;
    var b := ParamOctets(p);
    var region, end := b + rest, |b|;
    assert region[2..end] == b[2..] && region[end..] == rest;
    if p.Capabilities? {
      assert b[2..] == CapOctets(p.caps);
      CapOctetsRead(p.caps);
    }
    FirstParam(region, CapsIn(p));
  }

  lemma {:induction false} AllOctetsRead(ps: seq<Param>)
    requires AllFit(ps)
    ensures Caps(AllOctets(ps)) == Ok(AllCaps(ps))
  {
    hide ParamOctets;
    if ps == [] {
      EmptyRegion();
    } else {
      AllOctetsRead(ps[1..]);
      ParamFirst(ps[0], AllOctets(ps[1..]));
    }
  }

  /** The first parameter of a region that can be read. */
  lemma ParamSplit(region: seq<byte>) returns (p: Param, rest: seq<byte>)
    requires region != [] && Caps(region).Ok?
    ensures FitsParam(p) && region == ParamOctets(p) + rest && |rest| < |region|
    ensures Caps(rest).Ok? && Caps(region).value == CapsIn(p) + Caps(rest).value
  {
    var end := 2 + region[1] as int;
    rest := region[end..];
    if region[0] == 2 {
      CapsAreOctets(region[2..end]);
      p := Capabilities(CapsOfParam(region[2..end]).value);
    } else {
      p := Other(region[0], region[2..end]);
    }
    hide Caps, CapsOfParam, CapOctets, AllShort;
    assert region == [region[0], region[1]] + region[2..end] + rest;
  }

  lemma ParamsCons(p: Param, rest: seq<Param>)
    requires FitsParam(p) && AllFit(rest)
    ensures AllFit([p] + rest) && AllOctets([p] + rest) == ParamOctets(p) + AllOctets(rest)
    ensures AllCaps([p] + rest) == CapsIn(p) + AllCaps(rest)
  {
    hide FitsParam, ParamOctets, CapsIn;
    assert ([p] + rest)[1..] == rest;
  }

  lemma {:induction false} CapsAreParams(region: seq<byte>) returns (ps: seq<Param>)
    requires Caps(region).Ok?
    ensures AllFit(ps) && AllOctets(ps) == region && AllCaps(ps) == Caps(region).value
    decreases |region|
  {
    if region == [] {
      ps := [];
    } else {
      hide Caps, AllOctets, AllCaps, AllFit, FitsParam;
      var p, tail := ParamSplit(region);
      var rest := CapsAreParams(tail);
      ParamsCons(p, rest);
      ps := [p] + rest;
    }
  }

  // ---- What the capabilities say ---------------------------------------------------------------

  lemma NumberIsDe32(b: seq<byte>)
    requires |b| == 4
    ensures De32(b) == Number(b)
  {
    assert b[..2][0] == b[0] && b[..2][1] == b[1] && b[2..4][0] == b[2] && b[2..4][1] == b[3];
  }

  lemma {:induction false} AsnCapSays(caps: seq<Tlv>, legacy: u16, asn: u32)
    ensures SaysAsn(caps, legacy, asn) <==> asn == (match AsnCap(caps) case Some(a) => a case None => legacy)
  {
    if caps == [] {
    } else {
      var n := |caps| - 1;
      AsnCapSays(caps[..n], legacy, asn);
      if IsAs4(caps[n]) {
        NumberIsDe32(caps[n].value);
        hide Number, De32;
        assert LastAs4(caps, n) && HasAs4(caps);
      } else {
        hide AsnCap;
        assert AsnCap(caps) == AsnCap(caps[..n]) by { NotTheLast(caps); }
        LastBefore(caps);
      }
    }
  }

  lemma NotTheLast(caps: seq<Tlv>)
    requires caps != [] && !IsAs4(caps[|caps| - 1])
    ensures AsnCap(caps) == AsnCap(caps[..|caps| - 1])
  {
  }

  lemma LastBefore(caps: seq<Tlv>)
    requires caps != [] && !IsAs4(caps[|caps| - 1])
    ensures forall i: nat :: LastAs4(caps, i) <==> LastAs4(caps[..|caps| - 1], i)
    ensures forall i: nat :: LastAs4(caps, i) ==> caps[i] == caps[..|caps| - 1][i]
    ensures HasAs4(caps) <==> HasAs4(caps[..|caps| - 1])
  {
    var before := caps[..|caps| - 1];
    if i :| 0 <= i < |caps| && IsAs4(caps[i]) {
      assert IsAs4(before[i]);
    }
    if i :| 0 <= i < |before| && IsAs4(before[i]) {
      assert IsAs4(caps[i]);
    }
  }

  lemma OffersIsAdvertises(caps: seq<Tlv>, afi: byte, safi: byte)
    ensures Offers(caps, afi, safi) <==> Advertises(caps, afi, safi)
  {
    if i :| 0 <= i < |caps| && IsFamily(caps[i], afi, safi) {
      assert IsMpCap(caps[i], afi, safi);
    }
    if i :| 0 <= i < |caps| && IsMpCap(caps[i], afi, safi) {
      assert IsFamily(caps[i], afi, safi);
    }
  }

  // ---- The decoder -------------------------------------------------------------------------------

  ghost predicate SomeOpen(body: seq<byte>, o: OpenMsg) {
    exists ps, rest :: SaysOpen(body, ps, rest, o)
  }

  lemma FieldsRead(body: seq<byte>, caps: seq<Tlv>, o: OpenMsg)
    requires |body| >= 10 && |body| >= 10 + body[9] as int && Caps(body[10..10 + body[9] as int]) == Ok(caps)
    ensures OpenOf(body) == Ok(o) <==> SaysFields(body, caps, o)
  {
    hide Caps, AsnCap, Advertises, Offers, SaysAsn, Number, De32;
    NumberIsDe32(body[5..9]);
    AsnCapSays(caps, De16(body[1..3]), o.asn);
    OffersIsAdvertises(caps, 1, 1);
    OffersIsAdvertises(caps, 2, 1);
    OffersIsAdvertises(caps, 1, 133);
    OffersIsAdvertises(caps, 2, 133);
  }

  lemma FieldsSay(body: seq<byte>, ps: seq<Param>, o: OpenMsg)
    requires |body| >= 10 && |body| >= 10 + body[9] as int && AllFit(ps)
    requires AllOctets(ps) == body[10..10 + body[9] as int]
    ensures OpenOf(body) == Ok(o) <==> SaysOpen(body, ps, body[10 + body[9] as int..], o)
  {
    hide OpenOf, Caps, Offers, SaysAsn, AllOctets, AllCaps, Number, AllFit;
    AllOctetsRead(ps);
    FieldsRead(body, AllCaps(ps), o);
    var end := 10 + body[9] as int;
    assert body[10..] == body[10..end] + body[end..];
  }

  /** The decoder reads exactly the bodies of the format, and what they say, whatever follows the parameters. */
  lemma OpenDecodesExactly(body: seq<byte>, o: OpenMsg)
    ensures OpenOf(body) == Ok(o) <==> SomeOpen(body, o)
  {
    hide SaysOpen, Caps;
    if OpenOf(body) == Ok(o) {
      var region := body[10..10 + body[9] as int];
      var ps := CapsAreParams(region);
      FieldsSay(body, ps, o);
    }
    if SomeOpen(body, o) {
      var ps, rest :| SaysOpen(body, ps, rest, o);
      RestFollows(body, ps, rest, o);
      FieldsSay(body, ps, o);
    }
  }

  lemma RestFollows(body: seq<byte>, ps: seq<Param>, rest: seq<byte>, o: OpenMsg)
    requires SaysOpen(body, ps, rest, o)
    ensures |body| >= 10 && |body| >= 10 + body[9] as int && AllFit(ps)
    ensures AllOctets(ps) == body[10..10 + body[9] as int] && rest == body[10 + body[9] as int..]
  {
    hide SaysAsn, Offers, Number, AllCaps;
    var end := 10 + body[9] as int;
    assert |body[10..]| == |AllOctets(ps)| + |rest|;
    assert body[10..][..body[9]] == body[10..end] && body[10..][body[9]..] == body[end..];
  }

  lemma LoneAs4(asn: u32)
    ensures Caps([2, 6, 65, 4] + Be32(asn)) == Ok([Tlv(65, Be32(asn))])
  {
    hide Be32, Caps, CapsOfParam;
    var c := Tlv(65, Be32(asn));
    CapsCons(c, []);
    assert [c] + [] == [c] && CapOctets([]) == [];
    CapOctetsRead([c]);
    assert CapOctets([c]) == [65, 4] + Be32(asn);
    OneParam(CapOctets([c]));
    assert [2, 6] + CapOctets([c]) == [2, 6, 65, 4] + Be32(asn);
  }

  lemma SaysLone(asn: u32)
    ensures AsnCap([Tlv(65, Be32(asn))]) == Some(asn)
    ensures forall afi: u16, safi: byte :: !Advertises([Tlv(65, Be32(asn))], afi, safi)
  {
    hide Be32;
  }

  /** A lone four-octet AS capability gives the ASN, whatever the other fields. */
  lemma Asn4Reads(version: byte, legacy: u16, holdTime: u16, routerId: u32, asn: u32)
    ensures OpenOf([version] + Be16(legacy) + Be16(holdTime) + Be32(routerId) + [8] + ([2, 6, 65, 4] + Be32(asn))) ==
            Ok(OpenMsg(asn, holdTime, routerId, false, false, false, false))
  {
    hide Be16, Be32, Caps, AsnCap, Advertises, De16, De32;
    var body := [version] + Be16(legacy) + Be16(holdTime) + Be32(routerId) + [8] + ([2, 6, 65, 4] + Be32(asn));
    LoneAs4(asn);
    SaysLone(asn);
    assert body[10..18] == [2, 6, 65, 4] + Be32(asn) && body[3..5] == Be16(holdTime) && body[5..9] == Be32(routerId);
  }

  // ---- The encoder -------------------------------------------------------------------------------

  /** The multiprotocol capability of a family that is on. */
  function FamilyOctets(on: bool, afi: byte, safi: byte): seq<byte> {
    if on then [1, 4, 0, afi, 0, safi] else []
  }

  function Ones(o: OpenMsg): nat {
    (if o.ipv4Unicast then 1 else 0) + (if o.ipv6Unicast then 1 else 0)
    + (if o.flowspecV4 then 1 else 0) + (if o.flowspecV6 then 1 else 0)
  }

  lemma MaybeOctets(l: seq<Tlv>, on: bool, afi: byte, safi: byte)
    requires AllOfFour(l)
    ensures AllOfFour(l + Maybe(on, MpCap(afi, safi)))
    ensures CapBytes(l + Maybe(on, MpCap(afi, safi))) == CapBytes(l) + FamilyOctets(on, afi, safi)
  {
    if on {
      CapBytesAppend(l, MpCap(afi, safi));
    } else {
      assert l + [] == l;
    }
  }

  lemma CapListOctets(o: OpenMsg)
    ensures CapBytes(CapList(o)) ==
            [65, 4] + Be32(o.asn) + FamilyOctets(o.ipv4Unicast, 1, 1) + FamilyOctets(o.ipv6Unicast, 2, 1)
            + FamilyOctets(o.flowspecV4, 1, 133) + FamilyOctets(o.flowspecV6, 2, 133)
  {
    hide Be32, CapBytes, FamilyOctets;
    var l := [Tlv(CAP_4OCTET_AS, Be32(o.asn))];
    OneCap(l[0]);
    MaybeOctets(l, o.ipv4Unicast, 1, 1);
    l := l + Maybe(o.ipv4Unicast, MpCap(1, 1));
    MaybeOctets(l, o.ipv6Unicast, 2, 1);
    l := l + Maybe(o.ipv6Unicast, MpCap(2, 1));
    MaybeOctets(l, o.flowspecV4, 1, 133);
    l := l + Maybe(o.flowspecV4, MpCap(1, 133));
    MaybeOctets(l, o.flowspecV6, 2, 133);
  }

  lemma CapListSize(o: OpenMsg)
    ensures |CapBytes(CapList(o))| == 6 + 6 * Ones(o)
  {
    hide Be32, CapBytes;
    CapListOctets(o);
  }

  lemma OneCap(c: Tlv)
    requires |c.value| == 4
    ensures AllOfFour([c]) && CapBytes([c]) == [c.code, 4] + c.value
  {
    assert [c][1..] == [] && CapBytes([]) == [];
  }

  /**
   The body written: version 4, the ASN or 23456 in two octets, hold time, router identifier, one parameter of
   type 2 with the ASN under code 65 and a code-1 capability for each family that is on.
   */
  lemma OpenLayout(o: OpenMsg)
    ensures OpenBody(o) ==
            [4] + Be16(if o.asn < 65536 then o.asn else 23456) + Be16(o.holdTime) + Be32(o.routerId)
            + [8 + 6 * Ones(o), 2, 6 + 6 * Ones(o)]
            + ([65, 4] + Be32(o.asn) + FamilyOctets(o.ipv4Unicast, 1, 1) + FamilyOctets(o.ipv6Unicast, 2, 1)
               + FamilyOctets(o.flowspecV4, 1, 133) + FamilyOctets(o.flowspecV6, 2, 133))
  {
    hide Be16, Be32, CapBytes, CapList, FamilyOctets, Ones;
    CapListOctets(o);
    CapListSize(o);
    var caps := CapBytes(CapList(o));
    assert [2 + |caps|] + ([2, |caps|] + caps) == [2 + |caps|, 2, |caps|] + caps;
  }
}
