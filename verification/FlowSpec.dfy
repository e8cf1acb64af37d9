/** FlowSpec rules (RFC 8955 for IPv4, RFC 8956 for IPv6), SAFI 133. */
module FlowSpec {
  import opened Bytes
  import opened Wrappers
  import opened Net
  import opened Message
  import opened Reference
  import opened Update

  const COMP_DST_PREFIX: byte := 1
  const COMP_IP_PROTO: byte := 3
  const COMP_DST_PORT: byte := 5
  const SAFI_FLOWSPEC: byte := 133

  type Rate = r: seq<byte> | |r| == 4 witness [0, 0, 0, 0]

  /** A rule; its traffic rate is the four octets of an IEEE-754 single, taken as they are. */
  datatype FlowSpecRule = FlowSpecRule(dst: IpNet, protocol: Option<byte>, dstPort: Option<u16>, rate: Rate)

  /** The traffic a rule matches, which is what it is about. */
  function Matches(rule: FlowSpecRule): Dest {
    Flow(Trunc(rule.dst), rule.protocol, rule.dstPort)
  }

  // ---- NLRI --------------------------------------------------------------------------

  function PrefixPart(dst: IpNet): (b: seq<byte>)
    ensures |b| <= 19 && 2 <= |b| && b[0] == COMP_DST_PREFIX && b[1] == dst.bits
  {
    [COMP_DST_PREFIX, dst.bits] + (if dst.addr.V4? then [] else [0])
    + Trunc(dst).addr.Octets()[..OctetCount(dst.bits)]
  }

  function ProtoBytes(protocol: Option<byte>): (b: seq<byte>)
    ensures |b| <= 3
  {
    if protocol.Some? then [COMP_IP_PROTO, 0x81, protocol.value] else []
  }

  function PortBytes(port: Option<u16>): (b: seq<byte>)
    ensures |b| <= 4
  {
    if port.None? then []
    else if port.value < 256 then [COMP_DST_PORT, 0x81, port.value]
    else [COMP_DST_PORT, 0x91] + Be16(port.value)
  }

  function ComponentBytes(rule: FlowSpecRule): (b: seq<byte>)
    ensures 2 <= |b| <= 26
  {
    PrefixPart(rule.dst) + (ProtoBytes(rule.protocol) + PortBytes(rule.dstPort))
  }

  /** The encoded NLRI, which is also the key of the session's FlowSpec table. */
  function FlowNlriBytes(rule: FlowSpecRule): (b: seq<byte>)
    ensures 3 <= |b| <= 27
  {
    [|ComponentBytes(rule)|] + ComponentBytes(rule)
  }

  lemma {:induction false} LowOctets(value: u64)
    ensures Be64(value)[0..] == Be64(value)
    ensures value <= U32_MAX ==> Be64(value)[4..] == Be32(value)
    ensures value <= U16_MAX ==> Be64(value)[6..] == Be16(value)
    ensures value < 256 ==> Be64(value)[7..] == [value]
  {
    if value <= U32_MAX {
      assert Be64(value) == Be32(0) + Be32(value);
    }
    if value <= U16_MAX {
      assert Be32(value) == Be16(0) + Be16(value);
    }
  }

  /** One `{op, value}` pair: end-of-list and equality set, `lenBytes` low octets of the value. */
  method PushNumericEq(out: seq<byte>, value: u64, lenBytes: nat) returns (r: seq<byte>)
    requires lenBytes <= 8
    ensures |r| == |out| + 1 + lenBytes && r[..|out|] == out && r[|out| + 1..] == Be64(value)[8 - lenBytes..]
    ensures r[|out|] / 0x10 == 8 + (if lenBytes == 1 then 0 else if lenBytes == 2 then 1 else if lenBytes == 4 then 2 else 3)
    ensures r[|out|] % 0x10 == 1
    ensures lenBytes == 1 && value < 256 ==> r == out + [0x81, value]
    ensures lenBytes == 2 && value <= U16_MAX ==> r == out + [0x91] + Be16(value)
    ensures lenBytes == 4 && value <= U32_MAX ==> r == out + [0xA1] + Be32(value)
    ensures lenBytes == 8 ==> r == out + [0xB1] + Be64(value)
  {
    var lenField := match lenBytes case 1 => 0 case 2 => 1 case 4 => 2 case _ => 3;
    r := out + [0x80 + lenField * 16 + 1];
    LowOctets(value);
    hide Be64;
    var bytes := Be64(value);
    r := r + bytes[8 - lenBytes..];
  }

  method EncodePrefixPart(rule: FlowSpecRule) returns (comps: seq<byte>)
    ensures comps == PrefixPart(rule.dst)
  {
    TruncShape(rule.dst);
    hide Trunc;
    var dst := Trunc(rule.dst);
    comps := [COMP_DST_PREFIX];
    comps := comps + [dst.bits];
    var nbytes := (dst.bits + 7) / 8;
    if dst.addr.V6? {
      comps := comps + [0];
    }
    comps := comps + dst.addr.Octets()[..nbytes];
  }

  method PushProto(out: seq<byte>, protocol: Option<byte>) returns (r: seq<byte>)
    ensures r == out + ProtoBytes(protocol)
  {
    hide Be16, Be64;
    r := out;
    if protocol.Some? {
      r := r + [COMP_IP_PROTO];
      r := PushNumericEq(r, protocol.value, 1);
    }
  }

  method PushPort(out: seq<byte>, port: Option<u16>) returns (r: seq<byte>)
    ensures r == out + PortBytes(port)
  {
    hide Be16, Be64;
    r := out;
    if port.Some? {
      r := r + [COMP_DST_PORT];
      r := PushNumericEq(r, port.value, if port.value < 256 then 1 else 2);
    }
  }

  method EncodeComponents(rule: FlowSpecRule) returns (comps: seq<byte>)
    ensures comps == ComponentBytes(rule)
  {
    hide PrefixPart, ProtoBytes, PortBytes;
    comps := EncodePrefixPart(rule);
    comps := PushProto(comps, rule.protocol);
    comps := PushPort(comps, rule.dstPort);
  }

  /** The components in type order behind their length; the two-octet length form is never reached. */
  method EncodeFlowSpecNlri(rule: FlowSpecRule) returns (out: seq<byte>)
    ensures out == FlowNlriBytes(rule)
    ensures out[0] < 0xF0 && FlowNlri(rule.dst.addr.V4?, out) == Some(Matches(rule))
  {
    hide ComponentBytes, FlowNlri, Matches;
    FlowNlriReads(rule);
    var comps := EncodeComponents(rule);
    out := PrefixLength(comps);
  }

  /** The length the first octets state, by section 4.1 of RFC 8955: one octet below 240, otherwise twelve bits. */
  function StatedLen(b: seq<byte>): nat
    requires |b| >= 2
  {
    if b[0] < 0xF0 then b[0] else (b[0] as int - 0xF0) * 0x100 + b[1]
  }

  /** One length octet below 240, otherwise two, which state the length exactly when twelve bits can hold it. */
  method PrefixLength(comps: seq<byte>) returns (out: seq<byte>)
    requires |comps| <= U16_MAX
    ensures |comps| < 0xF0 ==> out == [|comps|] + comps
    ensures |comps| >= 0xF0 ==> |out| == 2 + |comps| && out[0] >= 0xF0 && out[2..] == comps
    ensures |comps| >= 0xF0 ==> (StatedLen(out) == |comps| <==> |comps| < 0x1000)
  {
    out := [];
    if |comps| < 0xF0 {
      out := out + [|comps|];
    } else {
      out := PushTwoByteLen(out, |comps|);
    }
    out := out + comps;
  }

  lemma TruncShape(n: IpNet)
    ensures Trunc(n).bits == n.bits && Trunc(n).addr.V4? == n.addr.V4?
  {
  }

  /** `0xF000 | len`: the length modulo 4096, so a length of 4096 or more is misstated. */
  method PushTwoByteLen(out: seq<byte>, len: nat) returns (r: seq<byte>)
    requires len <= U16_MAX
    ensures |r| == |out| + 2 && r[..|out|] == out
    ensures r[|out|] >= 0xF0 && StatedLen(r[|out|..]) == len % 0x1000
  {
    r := out + Be16(0xF000 + len % 0x1000);
  }

  // ---- The receiver's reading of the NLRI ------------------------------------------------

  lemma {:induction false} PortReads(dst: IpNet, protocol: Option<byte>, port: Option<u16>)
    ensures PortPart(dst, protocol, PortBytes(port)) == Some(Flow(dst, protocol, port))
  {
    if port.Some? {
      var b := PortBytes(port)[1..];
      if port.value >= 256 {
        assert b == [0x91] + Be16(port.value);
        assert b[1..3] == Be16(port.value);
      }
    }
  }

  lemma {:induction false} ProtocolReads(dst: IpNet, protocol: Option<byte>, port: Option<u16>)
    ensures ProtocolPart(dst, ProtoBytes(protocol) + PortBytes(port)) == Some(Flow(dst, protocol, port))
  {
    hide PortPart;
    PortReads(dst, protocol, port);
    var b := ProtoBytes(protocol) + PortBytes(port);
    if protocol.Some? {
      assert b[3..] == PortBytes(port);
      assert b[1] == 0x81 && b[1..][1] == protocol.value;
    } else {
      assert b == PortBytes(port);
    }
  }

  lemma {:induction false} ComponentsRead(rule: FlowSpecRule)
    ensures Components(rule.dst.addr.V4?, ComponentBytes(rule)) == Some(Matches(rule))
  {
    hide ProtocolPart, Rebuild, Trunc;
    TruncShape(rule.dst);
    RebuildsTruncated(rule.dst);
    ProtocolReads(Trunc(rule.dst), rule.protocol, rule.dstPort);
    var b := ComponentBytes(rule);
    var start := if rule.dst.addr.V4? then 2 else 3;
    var tail := ProtoBytes(rule.protocol) + PortBytes(rule.dstPort);
    assert b[start..start + OctetCount(rule.dst.bits)] == Trunc(rule.dst).addr.Octets()[..OctetCount(rule.dst.bits)];
    assert b[start + OctetCount(rule.dst.bits)..] == tail;
  }

  lemma {:induction false} FlowNlriReads(rule: FlowSpecRule)
    ensures FlowNlri(rule.dst.addr.V4?, FlowNlriBytes(rule)) == Some(Matches(rule))
  {
    hide Components, ComponentBytes;
    ComponentsRead(rule);
    assert FlowNlriBytes(rule)[1..] == ComponentBytes(rule);
  }

  // ---- The NLRI as a key -------------------------------------------------------------------

  /** What can follow the destination prefix: nothing, or a component of type 3 or 5 and its operator. */
  lemma TailShape(rule: FlowSpecRule)
    ensures var t := ProtoBytes(rule.protocol) + PortBytes(rule.dstPort);
            && |t| in {0, 3, 4, 6, 7}
            && (t != [] ==> t[0] in {3, 5} && t[1] in {0x81, 0x91})
  {
  }

  /** An IPv4 rule and an IPv6 rule never share a key, although a key does not carry its family. */
  lemma {:induction false} FamiliesNeverCollide(four: FlowSpecRule, six: FlowSpecRule)
    requires four.dst.addr.V4? && six.dst.addr.V6?
    ensures FlowNlriBytes(four) != FlowNlriBytes(six)
  {
    hide Trunc;
    TailShape(four);
    TailShape(six);
    TruncShape(four.dst);
    TruncShape(six.dst);
    var b4, b6 := ComponentBytes(four), ComponentBytes(six);
    assert b4[1] == four.dst.bits && b6[1] == six.dst.bits;
    if four.dst.bits == six.dst.bits && |b4| == |b6| {
      var n := OctetCount(four.dst.bits);
      var t4 := ProtoBytes(four.protocol) + PortBytes(four.dstPort);
      var t6 := ProtoBytes(six.protocol) + PortBytes(six.dstPort);
      assert |t4| == 1 + |t6|;
      assert b4[3 + n] == t4[1] && b6[3 + n] == t6[0];
    }
    assert b4 != b6;
    assert FlowNlriBytes(four)[1..] == b4 && FlowNlriBytes(six)[1..] == b6;
  }

  /** Two rules share a key exactly when they match the same traffic, across both families. */
  lemma {:induction false} KeyIsTraffic(a: FlowSpecRule, b: FlowSpecRule)
    ensures FlowNlriBytes(a) == FlowNlriBytes(b) <==> Matches(a) == Matches(b)
  {
    hide Trunc, FlowNlri;
    TruncShape(a.dst);
    TruncShape(b.dst);
    if FlowNlriBytes(a) == FlowNlriBytes(b) {
      if a.dst.addr.V4? && b.dst.addr.V6? {
        FamiliesNeverCollide(a, b);
      } else if a.dst.addr.V6? && b.dst.addr.V4? {
        FamiliesNeverCollide(b, a);
      } else {
        FlowNlriReads(a);
        FlowNlriReads(b);
      }
    }
  }

  // ---- UPDATE messages ---------------------------------------------------------------------

  function Afi(rule: FlowSpecRule): u16 {
    if rule.dst.addr.V4? then 1 else 2
  }

  /** The traffic-rate extended community: 80 06, AS 0, the rate. */
  function RateCommunity(rate: Rate): (c: seq<byte>)
    ensures |c| == 8
  {
    [0x80, 0x06, 0, 0] + rate
  }

  function FlowReachValue(rule: FlowSpecRule): (v: seq<byte>)
    ensures |v| <= 32
  {
    Be16(Afi(rule)) + [SAFI_FLOWSPEC, 0, 0] + FlowNlriBytes(rule)
  }

  function FlowUnreachValue(rule: FlowSpecRule): (v: seq<byte>)
    ensures |v| <= 30
  {
    Be16(Afi(rule)) + [SAFI_FLOWSPEC] + FlowNlriBytes(rule)
  }

  const IGP_ATTR := Attr(FLAG_WELL_KNOWN, ATTR_ORIGIN, [0])

  function RateAttr(rule: FlowSpecRule): (a: Attr)
    ensures SaneAttr(a)
  {
    Attr(FLAG_OPT_TRANS, ATTR_EXTENDED_COMMUNITIES, RateCommunity(rule.rate))
  }

  function FlowReachAttr(rule: FlowSpecRule): (a: Attr)
    ensures SaneAttr(a)
  {
    Attr(FLAG_OPT_NON_TRANS, ATTR_MP_REACH_NLRI, FlowReachValue(rule))
  }

  function FlowAttrs(rule: FlowSpecRule): (l: seq<Attr>)
    ensures Sane(l)
  {
    [IGP_ATTR] + ([AS_PATH_ATTR] + ([RateAttr(rule)] + ([FlowReachAttr(rule)] + [])))
  }

  function FlowUnreachAttr(rule: FlowSpecRule): (a: Attr)
    ensures SaneAttr(a)
  {
    Attr(FLAG_OPT_NON_TRANS, ATTR_MP_UNREACH_NLRI, FlowUnreachValue(rule))
  }

  lemma {:induction false} FlowAttrsLayout(rule: FlowSpecRule)
    ensures AttrsBytes(FlowAttrs(rule)) ==
            AttrBytes(IGP_ATTR) + AttrBytes(AS_PATH_ATTR) + AttrBytes(RateAttr(rule)) + AttrBytes(FlowReachAttr(rule))
    ensures |AttrsBytes(FlowAttrs(rule))| <= 60
  {
    hide AttrBytes, FlowReachValue;
    AttrsCons(FlowReachAttr(rule), []);
    AttrsCons(RateAttr(rule), [FlowReachAttr(rule)] + []);
    AttrsCons(AS_PATH_ATTR, [RateAttr(rule)] + ([FlowReachAttr(rule)] + []));
    AttrsCons(IGP_ATTR, [AS_PATH_ATTR] + ([RateAttr(rule)] + ([FlowReachAttr(rule)] + [])));
    assert AttrsBytes([]) == [];
  }

  function FlowAnnounceBody(rule: FlowSpecRule): (body: seq<byte>)
    ensures |body| <= 64
  {
    FlowAttrsLayout(rule);
    UpdateBody([], AttrsBytes(FlowAttrs(rule)), [])
  }

  function FlowAnnounceBytes(rule: FlowSpecRule): seq<byte> {
    Frame(UpdateType.Code(), FlowAnnounceBody(rule))
  }

  function FlowWithdrawBody(rule: FlowSpecRule): (body: seq<byte>)
    ensures |body| <= 37
  {
    UpdateBody([], AttrBytes(FlowUnreachAttr(rule)), [])
  }

  function FlowWithdrawBytes(rule: FlowSpecRule): seq<byte> {
    Frame(UpdateType.Code(), FlowWithdrawBody(rule))
  }

  /** What a receiver should learn from a FlowSpec announce. */
  function PathOfRule(rule: FlowSpecRule): Path {
    Path(None, 0, [], [], [], Some((0, rule.rate)))
  }

  function FlowFind(rule: FlowSpecRule, code: byte): Option<seq<byte>> {
    if code == ATTR_ORIGIN then Some([0])
    else if code == ATTR_AS_PATH then Some([])
    else if code == ATTR_EXTENDED_COMMUNITIES then Some(RateCommunity(rule.rate))
    else if code == ATTR_MP_REACH_NLRI then Some(FlowReachValue(rule))
    else None
  }

  lemma {:induction false} FindInFlow(rule: FlowSpecRule, code: byte)
    ensures Find(WrittenAll(FlowAttrs(rule)), code) == FlowFind(rule, code)
  {
    hide FlowReachValue;
    var r, m := RateAttr(rule), FlowReachAttr(rule);
    FindWritten(FlowAttrs(rule), code);
    FindCons(IGP_ATTR, [AS_PATH_ATTR] + ([r] + ([m] + [])), code);
    FindCons(AS_PATH_ATTR, [r] + ([m] + []), code);
    FindCons(r, [m] + [], code);
    FindCons(m, [], code);
  }

  lemma {:induction false} RateReads(rate: Rate)
    ensures RateAction(RateCommunity(rate)) == Some(Some((0, rate)))
  {
    var c := RateCommunity(rate);
    assert c[2..4] == [0, 0] && c[4..8] == rate && c[8..] == [];
  }

  lemma {:induction false} FlowReachReads(rule: FlowSpecRule)
    ensures var attrs := WrittenAll(FlowAttrs(rule));
            && MpUnreach(attrs) == Some([])
            && MpReach(attrs) == Some([Reach(Matches(rule), PathOfRule(rule))])
            && ClassicReach(attrs, []) == Some([])
  {
    hide Find, FlowAttrs, WrittenAll, FlowNlri, FlowNlriBytes;
    FindInFlow(rule, ATTR_ORIGIN);
    FindInFlow(rule, ATTR_AS_PATH);
    FindInFlow(rule, ATTR_COMMUNITIES);
    FindInFlow(rule, ATTR_LARGE_COMMUNITIES);
    FindInFlow(rule, ATTR_EXTENDED_COMMUNITIES);
    FindInFlow(rule, ATTR_MP_REACH_NLRI);
    FindInFlow(rule, ATTR_MP_UNREACH_NLRI);
    FlowNlriReads(rule);
    RateReads(rule.rate);
    hide RateAction, RateCommunity;
    var v := FlowReachValue(rule);
    assert v[0..2] == Be16(Afi(rule)) && v[4..4 + v[3] as int] == [] && v[5..] == FlowNlriBytes(rule);
  }

  lemma FlowFlags(rule: FlowSpecRule)
    ensures AllFlagsRight(FlowAttrs(rule))
  {
    hide FlowReachValue, RateCommunity;
    assert FlagsRight(IGP_ATTR) && FlagsRight(AS_PATH_ATTR);
    assert FlagsRight(RateAttr(rule)) && FlagsRight(FlowReachAttr(rule));
    hide FlagsRight, RateAttr, FlowReachAttr;
  }

  lemma {:induction false} FlowAnnounceReads(rule: FlowSpecRule)
    ensures Changes(FlowAnnounceBytes(rule)) == Some([Reach(Matches(rule), PathOfRule(rule))])
  {
    hide MpReach, MpUnreach, ClassicReach, ChangesOfBody, Changes, Frame, Attrs, AttrsBytes, FlowAttrs, UpdateBody;
    hide Matches, PathOfRule, AllFlagsRight;
    FlowAttrsLayout(rule);
    UpdateReads(FlowAnnounceBody(rule));
    BodyReads([], AttrsBytes(FlowAttrs(rule)), []);
    AttrsRead(FlowAttrs(rule));
    FlowFlags(rule);
    FlagsKept(FlowAttrs(rule));
    FlowReachReads(rule);
    var reach := [Reach(Matches(rule), PathOfRule(rule))];
    assert AllUnreach([]) + [] + reach + [] == reach;
  }

  lemma {:induction false} FlowWithdrawReads(rule: FlowSpecRule)
    ensures Changes(FlowWithdrawBytes(rule)) == Some([Unreach(Matches(rule))])
  {
    hide ChangesOfBody, Changes, Frame, Attrs, AttrBytes, UpdateBody, FlowNlri, FlowNlriBytes, Matches;
    var a := FlowUnreachAttr(rule);
    UpdateReads(FlowWithdrawBody(rule));
    BodyReads([], AttrBytes(a), []);
    SingleAttrReads(a);
    FlowNlriReads(rule);
    assert a.value[0..2] == Be16(Afi(rule)) && a.value[3..] == FlowNlriBytes(rule);
    var gone := [Unreach(Matches(rule))];
    assert AllUnreach([]) + gone + [] + [] == gone;
  }

  method EncodeFlowReach(rule: FlowSpecRule) returns (value: seq<byte>)
    ensures value == FlowReachValue(rule)
  {
    hide Be16, FlowNlriBytes;
    var nlri := EncodeFlowSpecNlri(rule);
    value := Be16(Afi(rule));
    value := value + [SAFI_FLOWSPEC];
    value := value + [0];
    value := value + [0];
    value := value + nlri;
  }

  method EncodeFlowAttrs(rule: FlowSpecRule) returns (attrs: seq<byte>)
    ensures attrs == AttrsBytes(FlowAttrs(rule))
  {
    hide AttrBytes, AttrsBytes, FlowReachValue, FlowAttrs, RateCommunity;
    FlowAttrsLayout(rule);
    var mpReach := EncodeFlowReach(rule);
    attrs := PushAttr([], FLAG_WELL_KNOWN, ATTR_ORIGIN, [0]);
    attrs := PushAttr(attrs, FLAG_WELL_KNOWN, ATTR_AS_PATH, []);
    attrs := PushAttr(attrs, FLAG_OPT_TRANS, ATTR_EXTENDED_COMMUNITIES, RateCommunity(rule.rate));
    attrs := PushAttr(attrs, FLAG_OPT_NON_TRANS, ATTR_MP_REACH_NLRI, mpReach);
  }

  /** A body of attributes alone: no withdrawn routes in front, no NLRI behind. */
  lemma AttrsAlone(attrs: seq<byte>)
    requires |attrs| <= 65535
    ensures UpdateBody([], attrs, []) == Be16(0) + Be16(|attrs|) + attrs
  {
    hide Be16;
  }

  method BuildFlowSpecAnnounce(rule: FlowSpecRule) returns (out: seq<byte>)
    ensures out == FlowAnnounceBytes(rule)
    ensures Changes(out) == Some([Reach(Matches(rule), PathOfRule(rule))])
  {
    hide Changes, Frame, ParseHeader, Matches, PathOfRule, AttrsBytes, FlowAttrs, Be16, UpdateBody;
    FlowAnnounceReads(rule);
    FlowAttrsLayout(rule);
    var attrs := EncodeFlowAttrs(rule);
    AttrsAlone(attrs);
    var body := Be16(0);
    body := body + Be16(|attrs|);
    body := body + attrs;
    out := EncodeHeader(UpdateType.Code(), body);
  }

  method BuildFlowSpecWithdraw(rule: FlowSpecRule) returns (out: seq<byte>)
    ensures out == FlowWithdrawBytes(rule)
    ensures Changes(out) == Some([Unreach(Matches(rule))])
  {
    hide Changes, Frame, ParseHeader, FlowNlriBytes, Matches, AttrBytes, Be16, UpdateBody;
    FlowWithdrawReads(rule);
    var nlri := EncodeFlowSpecNlri(rule);
    var mpUnreach := Be16(Afi(rule));
    mpUnreach := mpUnreach + [SAFI_FLOWSPEC];
    mpUnreach := mpUnreach + nlri;
    assert mpUnreach == FlowUnreachValue(rule);
    var attrs := PushAttr([], FLAG_OPT_NON_TRANS, ATTR_MP_UNREACH_NLRI, mpUnreach);
    assert attrs == AttrBytes(FlowUnreachAttr(rule));
    AttrsAlone(attrs);
    var body := Be16(0);
    body := body + Be16(|attrs|);
    body := body + attrs;
    out := EncodeHeader(UpdateType.Code(), body);
  }
}
