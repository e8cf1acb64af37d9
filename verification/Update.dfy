/** UPDATE encoding: NLRI packing and the IPv4/IPv6 announce and withdraw messages. */
module Update {
  import opened Bytes
  import opened Wrappers
  import opened Net
  import opened Message
  import opened Reference

  const FLAG_WELL_KNOWN: byte := 0x40
  const FLAG_OPT_TRANS: byte := 0xC0
  const FLAG_OPT_NON_TRANS: byte := 0x80
  const FLAG_EXTENDED_LEN: byte := 0x10

  const ATTR_ORIGIN: byte := 1
  const ATTR_AS_PATH: byte := 2
  const ATTR_NEXT_HOP: byte := 3
  const ATTR_COMMUNITIES: byte := 8
  const ATTR_MP_REACH_NLRI: byte := 14
  const ATTR_MP_UNREACH_NLRI: byte := 15
  const ATTR_EXTENDED_COMMUNITIES: byte := 16
  const ATTR_LARGE_COMMUNITIES: byte := 32

  datatype Origin = Igp | Egp | Incomplete {
    function Wire(): byte {
      match this
      case Igp => 0
      case Egp => 1
      case Incomplete => 2
    }
  }

  datatype Route = Route(
    prefix: IpNet, nextHop: IpAddr, origin: Origin,
    communities: seq<(u16, u16)>, largeCommunities: seq<(u32, u32, u32)>)

  // ---- NLRI ----------------------------------------------------------------------

  function NlriBytes(prefix: IpNet): (out: seq<byte>)
    ensures |out| == 1 + OctetCount(prefix.bits)
  {
    [prefix.bits] + Trunc(prefix).addr.Octets()[..OctetCount(prefix.bits)]
  }

  method EncodeNlri(prefix: IpNet) returns (out: seq<byte>)
    ensures out == NlriBytes(prefix)
    ensures Prefixes(prefix.addr.V4?, out) == Some([Trunc(prefix)])
  {
    var nbytes := (prefix.bits + 7) / 8;
    out := [prefix.bits];
    var octets := Trunc(prefix).addr.Octets();
    out := out + octets[..nbytes];
    NlriReads(prefix);
  }

  /** Host bits cleared on the way out: the octets sent rebuild the truncated prefix. */
  lemma RebuildsTruncated(n: IpNet)
    ensures Rebuild(n.addr.V4?, n.bits, Trunc(n).addr.Octets()[..OctetCount(n.bits)]) == Trunc(n)
  {
    TruncPadded(n.addr.Octets(), n.bits);
    TruncIdempotent(n);
  }

  lemma {:induction false} NlriReads(prefix: IpNet)
    ensures Prefixes(prefix.addr.V4?, NlriBytes(prefix)) == Some([Trunc(prefix)])
  {
    var b := NlriBytes(prefix);
    RebuildsTruncated(prefix);
    assert b[1..|b|] == Trunc(prefix).addr.Octets()[..OctetCount(prefix.bits)];
    assert b[|b|..] == [];
    assert [Trunc(prefix)] + [] == [Trunc(prefix)];
  }

  // ---- Path attributes -------------------------------------------------------------

  function SetExtended(flags: byte): byte {
    if ExtendedLen(flags) then flags else flags + FLAG_EXTENDED_LEN
  }

  /** The attribute as it goes out: the Extended Length bit appears past 255 octets. */
  function Written(a: Attr): Attr {
    if |a.value| <= 255 then a else a.(flags := SetExtended(a.flags))
  }

  function AttrSize(valueLen: nat): nat {
    valueLen + if valueLen <= 255 then 3 else 4
  }

  function AttrBytes(a: Attr): (out: seq<byte>)
    requires |a.value| <= U16_MAX
    ensures |out| == AttrSize(|a.value|)
  {
    if |a.value| <= 255 then [a.flags, a.code, |a.value|] + a.value
    else [SetExtended(a.flags), a.code] + Be16(|a.value|) + a.value
  }

  predicate SaneAttr(a: Attr) {
    |a.value| <= U16_MAX && !ExtendedLen(a.flags)
  }

  predicate Sane(attrs: seq<Attr>) {
    forall i :: 0 <= i < |attrs| ==> SaneAttr(attrs[i])
  }

  function AttrsBytes(attrs: seq<Attr>): seq<byte>
    requires Sane(attrs)
  {
    if attrs == [] then [] else AttrBytes(attrs[0]) + AttrsBytes(attrs[1..])
  }

  lemma FieldsJoin(buf: seq<byte>, flags: byte, code: byte, len: seq<byte>, value: seq<byte>)
    ensures buf + [flags] + [code] + len + value == buf + ([flags, code] + len + value)
  {
  }

  method PushAttr(buf: seq<byte>, flags: byte, code: byte, value: seq<byte>) returns (out: seq<byte>)
    requires |value| <= U16_MAX
    ensures out == buf + AttrBytes(Attr(flags, code, value))
  {
    hide SetExtended, Be16;
    out := buf;
    if |value| <= 255 {
      FieldsJoin(buf, flags, code, [|value|], value);
      assert [flags, code] + [|value|] == [flags, code, |value|];
      out := out + [flags];
      out := out + [code];
      out := out + [|value|];
    } else {
      FieldsJoin(buf, SetExtended(flags), code, Be16(|value|), value);
      out := out + [SetExtended(flags)];
      out := out + [code];
      out := out + Be16(|value|);
    }
    out := out + value;
  }

  /** Either length form is read back, at every value length. */
  lemma {:induction false} AttrReads(a: Attr, rest: seq<byte>)
    requires SaneAttr(a)
    ensures Attrs(AttrBytes(a) + rest) ==
            match Attrs(rest) { case None => None case Some(l) => Some([Written(a)] + l) }
  {
    var b := AttrBytes(a) + rest;
    var start := if |a.value| <= 255 then 3 else 4;
    var end := start + |a.value|;
    assert b[end..] == rest;
    assert b[start..end] == a.value;
    if |a.value| > 255 {
      assert ExtendedLen(SetExtended(a.flags));
      assert b[2..4] == Be16(|a.value|);
    }
  }

  function WrittenAll(attrs: seq<Attr>): seq<Attr> {
    if attrs == [] then [] else [Written(attrs[0])] + WrittenAll(attrs[1..])
  }

  lemma {:induction false} AttrsRead(attrs: seq<Attr>)
    requires Sane(attrs)
    ensures Attrs(AttrsBytes(attrs)) == Some(WrittenAll(attrs))
  {
    if attrs == [] {
    } else {
      AttrsRead(attrs[1..]);
      AttrReads(attrs[0], AttrsBytes(attrs[1..]));
    }
  }

  lemma FlagsKept(attrs: seq<Attr>)
    requires Sane(attrs) && AllFlagsRight(attrs)
    ensures AllFlagsRight(WrittenAll(attrs))
  {
    forall i | 0 <= i < |attrs|
      ensures FlagsRight(Written(attrs[i]))
    {
      assert SaneAttr(attrs[i]) && FlagsRight(attrs[i]);
    }
  }

  lemma {:induction false} FindWritten(attrs: seq<Attr>, code: byte)
    ensures Find(WrittenAll(attrs), code) == Find(attrs, code)
  {
    if attrs == [] {
    } else {
      assert WrittenAll(attrs)[1..] == WrittenAll(attrs[1..]);
      FindWritten(attrs[1..], code);
    }
  }

  lemma FindCons(a: Attr, rest: seq<Attr>, code: byte)
    ensures Find([a] + rest, code) == if a.code == code then Some(a.value) else Find(rest, code)
  {
    assert ([a] + rest)[1..] == rest;
  }

  // ---- The body of an UPDATE -----------------------------------------------------------

  function UpdateBody(withdrawn: seq<byte>, attrs: seq<byte>, nlri: seq<byte>): (body: seq<byte>)
    requires |withdrawn| <= U16_MAX && |attrs| <= U16_MAX
    ensures |body| == 4 + |withdrawn| + |attrs| + |nlri|
  {
    Be16(|withdrawn|) + withdrawn + Be16(|attrs|) + attrs + nlri
  }

  lemma {:induction false} BodyReads(withdrawn: seq<byte>, attrs: seq<byte>, nlri: seq<byte>)
    requires |withdrawn| <= U16_MAX && |attrs| <= U16_MAX
    ensures ChangesOfBody(UpdateBody(withdrawn, attrs, nlri)) ==
            Combine(Prefixes(true, withdrawn), Attrs(attrs), nlri)
  {
    hide Combine, Prefixes, Attrs;
    var b, w, a := UpdateBody(withdrawn, attrs, nlri), |withdrawn|, |attrs|;
    assert b[0..2] == Be16(w) && b[2 + w..4 + w] == Be16(a);
    assert b[2..2 + w] == withdrawn && b[4 + w..4 + w + a] == attrs && b[4 + w + a..] == nlri;
  }

  /** A whole UPDATE reads as its body does, exactly up to the 4096-octet limit. */
  lemma {:induction false} UpdateReads(body: seq<byte>)
    requires HEADER_LEN + |body| <= U16_MAX
    ensures Changes(Frame(UpdateType.Code(), body)) ==
            if HEADER_LEN + |body| <= MAX_LEN then ChangesOfBody(body) else None
  {
    hide ChangesOfBody, ParseHeader, IsHeader;
    var out := Frame(UpdateType.Code(), body);
    FrameParses(UpdateType.Code(), body);
    ParsesExactlyHeaders(out, 2, |out|);
  }

  // ---- Announce ----------------------------------------------------------------------

  function CommunityBytes(l: seq<(u16, u16)>): (b: seq<byte>)
    ensures |b| == 4 * |l|
  {
    if l == [] then [] else Be16(l[0].0) + Be16(l[0].1) + CommunityBytes(l[1..])
  }

  function LargeCommunityBytes(l: seq<(u32, u32, u32)>): (b: seq<byte>)
    ensures |b| == 12 * |l|
  {
    if l == [] then [] else Be32(l[0].0) + Be32(l[0].1) + Be32(l[0].2) + LargeCommunityBytes(l[1..])
  }

  lemma {:induction false} CommunitiesRead(l: seq<(u16, u16)>)
    ensures Communities(CommunityBytes(l)) == Some(l)
  {
    if l == [] {
    } else {
      var b := CommunityBytes(l);
      CommunitiesRead(l[1..]);
      assert b[0..2] == Be16(l[0].0) && b[2..4] == Be16(l[0].1) && b[4..] == CommunityBytes(l[1..]);
      assert [l[0]] + l[1..] == l;
    }
  }

  lemma {:induction false} LargeCommunitiesRead(l: seq<(u32, u32, u32)>)
    ensures LargeCommunities(LargeCommunityBytes(l)) == Some(l)
  {
    if l == [] {
    } else {
      var b := LargeCommunityBytes(l);
      LargeCommunitiesRead(l[1..]);
      assert b[0..4] == Be32(l[0].0) && b[4..8] == Be32(l[0].1) && b[8..12] == Be32(l[0].2);
      assert b[12..] == LargeCommunityBytes(l[1..]);
      assert [l[0]] + l[1..] == l;
    }
  }

  predicate FamilyMatches(r: Route) {
    r.prefix.addr.V4? == r.nextHop.V4?
  }

  /** MP_REACH_NLRI: AFI 2, SAFI 1, a 16-octet next hop, the reserved octet, the NLRI. */
  function MpReachValue(hop: Octets16, nlri: seq<byte>): (v: seq<byte>)
    ensures |v| == 21 + |nlri|
  {
    Be16(2) + [1, 16] + hop + [0] + nlri
  }

  function HopAttr(r: Route): Attr
    requires FamilyMatches(r)
  {
    match r.nextHop
    case V4(hop) => Attr(FLAG_WELL_KNOWN, ATTR_NEXT_HOP, hop)
    case V6(hop) => Attr(FLAG_OPT_NON_TRANS, ATTR_MP_REACH_NLRI, MpReachValue(hop, NlriBytes(r.prefix)))
  }

  function CommunityAttr(r: Route): seq<Attr> {
    if r.communities == [] then []
    else [Attr(FLAG_OPT_TRANS, ATTR_COMMUNITIES, CommunityBytes(r.communities))]
  }

  function LargeCommunityAttr(r: Route): seq<Attr> {
    if r.largeCommunities == [] then []
    else [Attr(FLAG_OPT_TRANS, ATTR_LARGE_COMMUNITIES, LargeCommunityBytes(r.largeCommunities))]
  }

  function OriginAttr(r: Route): Attr {
    Attr(FLAG_WELL_KNOWN, ATTR_ORIGIN, [r.origin.Wire()])
  }

  const AS_PATH_ATTR := Attr(FLAG_WELL_KNOWN, ATTR_AS_PATH, [])

  function AnnounceAttrs(r: Route): seq<Attr>
    requires FamilyMatches(r)
  {
    [OriginAttr(r)] + ([AS_PATH_ATTR] + ([HopAttr(r)] + (CommunityAttr(r) + LargeCommunityAttr(r))))
  }

  /** The octets one optional list attribute takes. */
  function ListSize(valueLen: nat): nat {
    if valueLen == 0 then 0 else AttrSize(valueLen)
  }

  /** The length of the path attributes of an announce, from the lengths of its parts. */
  function AttrsSize(r: Route): nat {
    4 + 3 + (if r.prefix.addr.V4? then 7 else 3 + 21 + 1 + OctetCount(r.prefix.bits))
    + ListSize(4 * |r.communities|) + ListSize(12 * |r.largeCommunities|)
  }

  /** The length of the whole announce. */
  function Size(r: Route): nat {
    HEADER_LEN + 4 + AttrsSize(r) + if r.prefix.addr.V4? then 1 + OctetCount(r.prefix.bits) else 0
  }

  /** When `build_announce` does not panic: matching families and lengths that fit 16 bits. */
  predicate Buildable(r: Route) {
    FamilyMatches(r) && Size(r) <= U16_MAX
  }

  lemma {:induction false} AttrsCons(a: Attr, rest: seq<Attr>)
    requires SaneAttr(a) && Sane(rest)
    ensures Sane([a] + rest)
    ensures AttrsBytes([a] + rest) == AttrBytes(a) + AttrsBytes(rest)
  {
    assert ([a] + rest)[1..] == rest;
  }

  lemma {:induction false} ListAttrsSize(r: Route)
    requires 4 * |r.communities| <= U16_MAX && 12 * |r.largeCommunities| <= U16_MAX
    ensures var tail := CommunityAttr(r) + LargeCommunityAttr(r);
            && Sane(tail)
            && |AttrsBytes(tail)| == ListSize(4 * |r.communities|) + ListSize(12 * |r.largeCommunities|)
  {
    hide CommunityBytes, LargeCommunityBytes;
    var c, l := CommunityAttr(r), LargeCommunityAttr(r);
    if l != [] {
      AttrsCons(l[0], []);
      assert l + [] == l && [l[0]] == l;
    }
    if c == [] {
      assert c + l == l;
    } else {
      AttrsCons(c[0], l);
      assert [c[0]] + l == c + l;
    }
  }

  lemma FixedAttrs(r: Route)
    requires FamilyMatches(r)
    ensures SaneAttr(OriginAttr(r)) && |AttrBytes(OriginAttr(r))| == 4
    ensures SaneAttr(AS_PATH_ATTR) && |AttrBytes(AS_PATH_ATTR)| == 3
    ensures SaneAttr(HopAttr(r))
    ensures |AttrBytes(HopAttr(r))| == if r.prefix.addr.V4? then 7 else 3 + 21 + 1 + OctetCount(r.prefix.bits)
  {
  }

  lemma {:induction false} AnnounceSize(r: Route)
    requires Buildable(r)
    ensures Sane(AnnounceAttrs(r)) && |AttrsBytes(AnnounceAttrs(r))| == AttrsSize(r)
  {
    ListAttrsSize(r);
    FixedAttrs(r);
    hide AttrsBytes, AttrBytes, HopAttr, OriginAttr, CommunityAttr, LargeCommunityAttr;
    var tail := CommunityAttr(r) + LargeCommunityAttr(r);
    AttrsCons(HopAttr(r), tail);
    AttrsCons(AS_PATH_ATTR, [HopAttr(r)] + tail);
    AttrsCons(OriginAttr(r), [AS_PATH_ATTR] + ([HopAttr(r)] + tail));
  }

  function AnnounceBody(r: Route): (body: seq<byte>)
    requires Buildable(r)
    ensures |body| == Size(r) - HEADER_LEN
  {
    AnnounceSize(r);
    var attrs := AttrsBytes(AnnounceAttrs(r));
    UpdateBody([], attrs, if r.prefix.addr.V4? then NlriBytes(r.prefix) else [])
  }

  function AnnounceBytes(r: Route): (out: seq<byte>)
    requires Buildable(r)
    ensures |out| == Size(r)
  {
    Frame(UpdateType.Code(), AnnounceBody(r))
  }

  /** What a receiver should learn from the announce. */
  function PathOfRoute(r: Route): Path {
    var origin := match r.origin case Igp => 0 case Egp => 1 case Incomplete => 2;
    Path(Some(r.nextHop), origin, [], r.communities, r.largeCommunities, None)
  }

  function AnnounceFind(r: Route, code: byte): Option<seq<byte>>
    requires FamilyMatches(r)
  {
    if code == ATTR_ORIGIN then Some([r.origin.Wire()])
    else if code == ATTR_AS_PATH then Some([])
    else if code == HopAttr(r).code then Some(HopAttr(r).value)
    else if code == ATTR_COMMUNITIES && r.communities != [] then Some(CommunityBytes(r.communities))
    else if code == ATTR_LARGE_COMMUNITIES && r.largeCommunities != [] then
      Some(LargeCommunityBytes(r.largeCommunities))
    else None
  }

  lemma {:induction false} FindInAnnounce(r: Route, code: byte)
    requires FamilyMatches(r)
    ensures Find(WrittenAll(AnnounceAttrs(r)), code) == AnnounceFind(r, code)
  {
    hide CommunityBytes, LargeCommunityBytes;
    var c, l := CommunityAttr(r), LargeCommunityAttr(r);
    FindWritten(AnnounceAttrs(r), code);
    FindCons(OriginAttr(r), [AS_PATH_ATTR] + ([HopAttr(r)] + (c + l)), code);
    FindCons(AS_PATH_ATTR, [HopAttr(r)] + (c + l), code);
    FindCons(HopAttr(r), c + l, code);
    if c == [] {
      assert c + l == l;
    } else {
      FindCons(c[0], l, code);
      assert [c[0]] + l == c + l;
    }
    if l != [] {
      FindCons(l[0], [], code);
      assert [l[0]] + [] == l;
    }
  }

  lemma {:induction false} PathReads(r: Route)
    requires FamilyMatches(r)
    ensures PathOf(WrittenAll(AnnounceAttrs(r)), Some(r.nextHop)) == Some(PathOfRoute(r))
  {
    hide Communities, LargeCommunities, CommunityBytes, LargeCommunityBytes, AnnounceAttrs, WrittenAll, Find;
    var attrs := WrittenAll(AnnounceAttrs(r));
    FindInAnnounce(r, ATTR_ORIGIN);
    FindInAnnounce(r, ATTR_AS_PATH);
    FindInAnnounce(r, ATTR_COMMUNITIES);
    FindInAnnounce(r, ATTR_LARGE_COMMUNITIES);
    FindInAnnounce(r, ATTR_EXTENDED_COMMUNITIES);
    CommunitiesRead(r.communities);
    LargeCommunitiesRead(r.largeCommunities);
  }

  /** The three places an announce can carry reachability; only the one of its family does. */
  lemma {:induction false} ReachReads(r: Route)
    requires FamilyMatches(r)
    ensures var attrs := WrittenAll(AnnounceAttrs(r));
            var reach := [Reach(Unicast(Trunc(r.prefix)), PathOfRoute(r))];
            && MpUnreach(attrs) == Some([])
            && (if r.prefix.addr.V4?
                then MpReach(attrs) == Some([]) && ClassicReach(attrs, NlriBytes(r.prefix)) == Some(reach)
                else MpReach(attrs) == Some(reach) && ClassicReach(attrs, []) == Some([]))
  {
    hide PathOf, Prefixes, NlriBytes, AnnounceAttrs, WrittenAll, Find, Trunc, AllReach;
    FindInAnnounce(r, ATTR_MP_REACH_NLRI);
    FindInAnnounce(r, ATTR_MP_UNREACH_NLRI);
    PathReads(r);
    NlriReads(r.prefix);
    OneReach(Trunc(r.prefix), PathOfRoute(r));
    if r.prefix.addr.V4? {
      FindInAnnounce(r, ATTR_NEXT_HOP);
    } else {
      MpReachValueReads(r.nextHop.o6, NlriBytes(r.prefix));
      hide MpReachValue;
    }
  }

  lemma {:induction false} MpReachValueReads(hop: Octets16, nlri: seq<byte>)
    ensures var v := MpReachValue(hop, nlri);
            && De16(v[0..2]) == 2 && v[2] == 1 && v[3] == 16 && v[4..4 + v[3] as int] == hop
            && v[5 + v[3] as int..] == nlri
  {
    assert MpReachValue(hop, nlri)[0..2] == Be16(2);
  }

  lemma OneReach(n: IpNet, path: Path)
    ensures AllReach([n], path) == [Reach(Unicast(n), path)]
  {
  }

  lemma AnnounceFlags(r: Route)
    requires FamilyMatches(r)
    ensures AllFlagsRight(AnnounceAttrs(r))
  {
    hide CommunityBytes, LargeCommunityBytes, MpReachValue, NlriBytes;
    assert AllFlagsRight(CommunityAttr(r)) && AllFlagsRight(LargeCommunityAttr(r));
    assert FlagsRight(OriginAttr(r)) && FlagsRight(AS_PATH_ATTR) && FlagsRight(HopAttr(r));
    hide FlagsRight, CommunityAttr, LargeCommunityAttr, OriginAttr, HopAttr;
  }

  lemma {:induction false} AnnounceBodyReads(r: Route)
    requires Buildable(r)
    ensures ChangesOfBody(AnnounceBody(r)) == Some([Reach(Unicast(Trunc(r.prefix)), PathOfRoute(r))])
  {
    hide MpReach, MpUnreach, ClassicReach, ChangesOfBody, Attrs, AttrsBytes, AnnounceAttrs, Trunc, NlriBytes;
    hide UpdateBody, AllFlagsRight;
    AnnounceSize(r);
    BodyReads([], AttrsBytes(AnnounceAttrs(r)), if r.prefix.addr.V4? then NlriBytes(r.prefix) else []);
    AttrsRead(AnnounceAttrs(r));
    AnnounceFlags(r);
    FlagsKept(AnnounceAttrs(r));
    ReachReads(r);
    var reach := [Reach(Unicast(Trunc(r.prefix)), PathOfRoute(r))];
    assert AllUnreach([]) + [] + [] + reach == reach && AllUnreach([]) + [] + reach + [] == reach;
  }

  /** An announce is read back in full exactly when it keeps to the 4096-octet limit. */
  lemma {:induction false} AnnounceReads(r: Route)
    requires Buildable(r)
    ensures Changes(AnnounceBytes(r)) ==
            if Size(r) <= MAX_LEN then Some([Reach(Unicast(Trunc(r.prefix)), PathOfRoute(r))]) else None
  {
    hide AnnounceBody, Changes, Frame, Trunc;
    UpdateReads(AnnounceBody(r));
    AnnounceBodyReads(r);
  }

  lemma CommunityStep(l: seq<(u16, u16)>, i: nat)
    requires i < |l|
    ensures CommunityBytes(l[i..]) == Be16(l[i].0) + Be16(l[i].1) + CommunityBytes(l[i + 1..])
  {
    assert l[i..][0] == l[i] && l[i..][1..] == l[i + 1..];
  }

  method EncodeCommunities(l: seq<(u16, u16)>) returns (val: seq<byte>)
    ensures val == CommunityBytes(l)
  {
    hide Be16;
    val := [];
    assert l[0..] == l;
    for i := 0 to |l|
      invariant val + CommunityBytes(l[i..]) == CommunityBytes(l)
    {
      CommunityStep(l, i);
      val := val + Be16(l[i].0);
      val := val + Be16(l[i].1);
    }
  }

  lemma LargeCommunityStep(l: seq<(u32, u32, u32)>, i: nat, val: seq<byte>)
    requires i < |l|
    ensures val + LargeCommunityBytes(l[i..]) ==
            val + Be32(l[i].0) + Be32(l[i].1) + Be32(l[i].2) + LargeCommunityBytes(l[i + 1..])
  {
    hide Be32;
    assert l[i..][0] == l[i] && l[i..][1..] == l[i + 1..];
  }

  lemma NoLargeCommunities(val: seq<byte>)
    ensures val + LargeCommunityBytes([]) == val
  {
  }

  method EncodeLargeCommunities(l: seq<(u32, u32, u32)>) returns (val: seq<byte>)
    ensures val == LargeCommunityBytes(l)
  {
    hide Be32, LargeCommunityBytes;
    val := [];
    assert l[0..] == l;
    for i := 0 to |l|
      invariant val + LargeCommunityBytes(l[i..]) == LargeCommunityBytes(l)
    {
      LargeCommunityStep(l, i, val);
      val := val + Be32(l[i].0);
      val := val + Be32(l[i].1);
      val := val + Be32(l[i].2);
    }
    NoLargeCommunities(val);
  }

  /** The MP_REACH_NLRI value, field by field. */
  method EncodeMpReach(hop: Octets16, nlri: seq<byte>) returns (value: seq<byte>)
    ensures value == MpReachValue(hop, nlri)
  {
    hide Be16;
    value := Be16(2);
    value := value + [1];
    value := value + [16];
    value := value + hop;
    value := value + [0];
    value := value + nlri;
  }

  /** The attributes in the order they are pushed. */
  method EncodeAnnounceAttrs(r: Route) returns (attrs: seq<byte>)
    requires Buildable(r)
    ensures Sane(AnnounceAttrs(r)) && attrs == AttrsBytes(AnnounceAttrs(r))
  {
    hide CommunityBytes, LargeCommunityBytes, NlriBytes, AttrBytes, AttrsBytes, Trunc, Prefixes, AnnounceAttrs;
    hide MpReachValue;
    AnnounceSize(r);
    AnnounceAttrsLayout(r);
    attrs := PushAttr([], FLAG_WELL_KNOWN, ATTR_ORIGIN, [r.origin.Wire()]);
    attrs := PushAttr(attrs, FLAG_WELL_KNOWN, ATTR_AS_PATH, []);
    match r.nextHop {
      case V4(hop) =>
        attrs := PushAttr(attrs, FLAG_WELL_KNOWN, ATTR_NEXT_HOP, hop);
      case V6(hop) =>
        var nlri := EncodeNlri(r.prefix);
        var value := EncodeMpReach(hop, nlri);
        attrs := PushAttr(attrs, FLAG_OPT_NON_TRANS, ATTR_MP_REACH_NLRI, value);
    }
    assert attrs == AttrBytes(OriginAttr(r)) + AttrBytes(AS_PATH_ATTR) + AttrBytes(HopAttr(r));
    if r.communities != [] {
      var val := EncodeCommunities(r.communities);
      attrs := PushAttr(attrs, FLAG_OPT_TRANS, ATTR_COMMUNITIES, val);
    }
    if r.largeCommunities != [] {
      var val := EncodeLargeCommunities(r.largeCommunities);
      attrs := PushAttr(attrs, FLAG_OPT_TRANS, ATTR_LARGE_COMMUNITIES, val);
    }
  }

  ghost function OptBytes(l: seq<Attr>): seq<byte>
    requires Sane(l) && |l| <= 1
  {
    if l == [] then [] else AttrBytes(l[0])
  }

  lemma {:induction false} AnnounceAttrsLayout(r: Route)
    requires Buildable(r) && Sane(AnnounceAttrs(r)) && Sane(CommunityAttr(r)) && Sane(LargeCommunityAttr(r))
    ensures AttrsBytes(AnnounceAttrs(r)) ==
            AttrBytes(OriginAttr(r)) + AttrBytes(AS_PATH_ATTR) + AttrBytes(HopAttr(r))
            + OptBytes(CommunityAttr(r)) + OptBytes(LargeCommunityAttr(r))
  {
    hide CommunityBytes, LargeCommunityBytes, NlriBytes, AttrBytes;
    var c, l := CommunityAttr(r), LargeCommunityAttr(r);
    var tail := [HopAttr(r)] + (c + l);
    OptPair(c, l);
    AttrsCons(HopAttr(r), c + l);
    AttrsCons(AS_PATH_ATTR, tail);
    AttrsCons(OriginAttr(r), [AS_PATH_ATTR] + tail);
    hide AttrsBytes, OptBytes, CommunityAttr, LargeCommunityAttr;
    assert AttrBytes(OriginAttr(r)) + (AttrBytes(AS_PATH_ATTR) + (AttrBytes(HopAttr(r)) + (OptBytes(c) + OptBytes(l))))
        == AttrBytes(OriginAttr(r)) + AttrBytes(AS_PATH_ATTR) + AttrBytes(HopAttr(r)) + OptBytes(c) + OptBytes(l);
  }

  lemma {:induction false} OptPair(c: seq<Attr>, l: seq<Attr>)
    requires Sane(c) && Sane(l) && |c| <= 1 && |l| <= 1
    ensures Sane(c + l) && AttrsBytes(c + l) == OptBytes(c) + OptBytes(l)
  {
    hide AttrBytes;
    if l != [] {
      AttrsCons(l[0], []);
      assert [l[0]] + [] == l;
    }
    if c == [] {
      assert c + l == l;
    } else {
      AttrsCons(c[0], l);
      assert [c[0]] + l == c + l;
    }
  }

  method BuildAnnounce(r: Route) returns (out: seq<byte>)
    requires Buildable(r)
    ensures out == AnnounceBytes(r)
    ensures Changes(out) ==
            if Size(r) <= MAX_LEN then Some([Reach(Unicast(Trunc(r.prefix)), PathOfRoute(r))]) else None
  {
    hide Changes, NlriBytes, Trunc, Prefixes, Frame, ParseHeader, AttrsBytes, AnnounceAttrs;
    AnnounceReads(r);
    AnnounceSize(r);
    var attrs := EncodeAnnounceAttrs(r);
    var body := Be16(0);
    body := body + Be16(|attrs|);
    body := body + attrs;
    if r.prefix.addr.V4? {
      var nlri := EncodeNlri(r.prefix);
      body := body + nlri;
    }
    assert body == AnnounceBody(r);
    out := EncodeHeader(UpdateType.Code(), body);
  }

  // ---- Withdraw ----------------------------------------------------------------------

  function MpUnreachAttr(prefix: IpNet): Attr {
    Attr(FLAG_OPT_NON_TRANS, ATTR_MP_UNREACH_NLRI, Be16(2) + [1] + NlriBytes(prefix))
  }

  function WithdrawBody(prefix: IpNet): (body: seq<byte>)
    ensures |body| <= 27
  {
    if prefix.addr.V4? then UpdateBody(NlriBytes(prefix), [], [])
    else UpdateBody([], AttrBytes(MpUnreachAttr(prefix)), [])
  }

  function WithdrawBytes(prefix: IpNet): seq<byte> {
    Frame(UpdateType.Code(), WithdrawBody(prefix))
  }

  lemma OneUnreach(n: IpNet)
    ensures AllUnreach([n]) == [Unreach(Unicast(n))]
  {
  }

  lemma {:induction false} WithdrawBodyReads(prefix: IpNet)
    ensures ChangesOfBody(WithdrawBody(prefix)) == Some([Unreach(Unicast(Trunc(prefix)))])
  {
    hide NlriBytes, Trunc, Prefixes, ChangesOfBody, UpdateBody, AttrBytes;
    NlriReads(prefix);
    OneUnreach(Trunc(prefix));
    var gone := [Unreach(Unicast(Trunc(prefix)))];
    if prefix.addr.V4? {
      BodyReads(NlriBytes(prefix), [], []);
      assert gone + [] + [] + [] == gone;
    } else {
      var a := MpUnreachAttr(prefix);
      BodyReads([], AttrBytes(a), []);
      SingleAttrReads(a);
      assert Prefixes(true, []) == Some([]) by { EmptyPrefixes(); }
      assert a.value[0..2] == Be16(2) && a.value[3..] == NlriBytes(prefix);
      assert AllUnreach([]) + gone + [] + [] == gone;
    }
  }

  lemma EmptyPrefixes()
    ensures Prefixes(true, []) == Some([])
  {
  }

  /** A withdraw names exactly the prefix the announce of the same prefix carried. */
  lemma {:induction false} WithdrawReads(prefix: IpNet)
    ensures Changes(WithdrawBytes(prefix)) == Some([Unreach(Unicast(Trunc(prefix)))])
  {
    hide WithdrawBody, Changes, Frame, Trunc;
    UpdateReads(WithdrawBody(prefix));
    WithdrawBodyReads(prefix);
  }

  lemma {:induction false} SingleAttrReads(a: Attr)
    requires SaneAttr(a)
    ensures Attrs(AttrBytes(a)) == Some([Written(a)])
    ensures forall code :: Find([Written(a)], code) == if code == a.code then Some(a.value) else None
    ensures FlagsRight(a) ==> AllFlagsRight([Written(a)])
  {
    AttrReads(a, []);
    assert AttrBytes(a) + [] == AttrBytes(a);
    assert [Written(a)] + [] == [Written(a)] && [Written(a)][1..] == [];
  }

  method BuildWithdraw(prefix: IpNet) returns (out: seq<byte>)
    ensures out == WithdrawBytes(prefix)
    ensures Changes(out) == Some([Unreach(Unicast(Trunc(prefix)))])
  {
    hide Changes, NlriBytes, Trunc, Prefixes, Frame, ParseHeader;
    WithdrawReads(prefix);
    var nlri := EncodeNlri(prefix);
    var body: seq<byte>;
    if prefix.addr.V4? {
      body := Be16(|nlri|);
      body := body + nlri;
      body := body + Be16(0);
    } else {
      var value := Be16(2);
      value := value + [1];
      value := value + nlri;
      var attrs := PushAttr([], FLAG_OPT_NON_TRANS, ATTR_MP_UNREACH_NLRI, value);
      body := Be16(0);
      body := body + Be16(|attrs|);
      body := body + attrs;
      assert attrs == AttrBytes(MpUnreachAttr(prefix));
    }
    assert body == WithdrawBody(prefix);
    out := EncodeHeader(UpdateType.Code(), body);
  }
}
