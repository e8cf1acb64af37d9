/** BGP framing and the control messages: OPEN, KEEPALIVE and NOTIFICATION. */
module Message {
  import opened Bytes
  import opened Wrappers

  const HEADER_LEN := 19
  const MAX_LEN := 4096
  const AS_TRANS: u16 := 23456
  const CAP_4OCTET_AS: byte := 65
  const CAP_MP_BGP: byte := 1

  datatype MsgType = OpenType | UpdateType | NotificationType | KeepaliveType {
    function Code(): byte {
      match this
      case OpenType => 1
      case UpdateType => 2
      case NotificationType => 3
      case KeepaliveType => 4
    }
  }

  function FromCode(code: byte): (t: Option<MsgType>) {
    match code
    case 1 => Some(OpenType)
    case 2 => Some(UpdateType)
    case 3 => Some(NotificationType)
    case 4 => Some(KeepaliveType)
    case _ => None
  }

  datatype OpenMsg = OpenMsg(
    asn: u32, holdTime: u16, routerId: u32,
    ipv4Unicast: bool, ipv6Unicast: bool, flowspecV4: bool, flowspecV6: bool)

  datatype NotificationMsg = NotificationMsg(code: byte, subcode: byte, data: seq<byte>)

  datatype BgpMessage = Open(open: OpenMsg) | Keepalive | Update | Notification(n: NotificationMsg)

  datatype BgpError =
    | ShortHeader
    | BadMarker
    | BadLength(total: nat)
    | ShortBuffer
    | UnknownType(ty: byte)
    | ShortNotification
    | ShortOpen
    | OptParamsOverrun
    | TruncatedParamHeader
    | TruncatedParamValue
    | TruncatedCapHeader
    | TruncatedCapValue

  // ---- Header ------------------------------------------------------------

  function Marker(): (m: seq<byte>)
    ensures |m| == 16
  {
    seq(16, _ => 0xFF)
  }

  /** The message with the 19-octet header in front of `body`. */
  function Frame(ty: byte, body: seq<byte>): (out: seq<byte>)
    requires HEADER_LEN + |body| <= U16_MAX
    ensures |out| == HEADER_LEN + |body|
  {
    Marker() + Be16(HEADER_LEN + |body|) + [ty] + body
  }

  method EncodeHeader(ty: byte, body: seq<byte>) returns (out: seq<byte>)
    requires HEADER_LEN + |body| <= U16_MAX
    ensures out == Frame(ty, body)
    ensures HEADER_LEN + |body| <= MAX_LEN ==> ParseHeader(out) == Ok((ty, |out|)) && out[HEADER_LEN..] == body
    ensures HEADER_LEN + |body| > MAX_LEN ==> ParseHeader(out) == Err(BadLength(|out|))
  {
    var total := HEADER_LEN + |body|;
    out := [];
    out := out + Marker();
    out := out + Be16(total);
    out := out + [ty];
    out := out + body;
    FrameParses(ty, body);
  }

  function ParseHeader(bytes: seq<byte>): (r: Result<(byte, nat), BgpError>)
    ensures r.Ok? ==> HEADER_LEN <= r.value.1 <= MAX_LEN && |bytes| >= HEADER_LEN
  {
    if |bytes| < HEADER_LEN then Err(ShortHeader)
    else if bytes[0..16] != Marker() then Err(BadMarker)
    else
      var total: nat := De16(bytes[16..18]);
      if total < HEADER_LEN || total > MAX_LEN then Err(BadLength(total))
      else Ok((bytes[18], total))
  }

  /** Section 4.1 of RFC 4271 in octets: sixteen of all ones, a length from 19 to 4096 in two, the type in one. */
  predicate IsHeader(bytes: seq<byte>, ty: byte, total: nat) {
    && |bytes| >= 19 && 19 <= total <= 4096
    && (forall i :: 0 <= i < 16 ==> bytes[i] == 0xFF)
    && bytes[16] as int * 256 + bytes[17] == total
    && bytes[18] == ty
  }

  lemma ParsesExactlyHeaders(bytes: seq<byte>, ty: byte, total: nat)
    ensures ParseHeader(bytes) == Ok((ty, total)) <==> IsHeader(bytes, ty, total)
  {
    if |bytes| >= 19 {
      assert bytes[16..18] == [bytes[16], bytes[17]];
      assert bytes[0..16] == Marker() <==> forall i :: 0 <= i < 16 ==> bytes[i] == 0xFF;
    }
  }

  /** The header reads back, with more of the stream behind it, exactly up to the 4096-octet limit. */
  lemma FrameParsesAhead(ty: byte, body: seq<byte>, rest: seq<byte>)
    requires HEADER_LEN + |body| <= U16_MAX
    ensures var total := HEADER_LEN + |body|;
            && (Frame(ty, body) + rest)[HEADER_LEN..total] == body
            && ParseHeader(Frame(ty, body) + rest) ==
               if total <= MAX_LEN then Ok((ty, total)) else Err(BadLength(total))
  {
    var out := Frame(ty, body) + rest;
    assert out[0..16] == Marker();
    assert out[16..18] == Be16(HEADER_LEN + |body|);
    assert out[18] == ty;
  }

  lemma FrameParses(ty: byte, body: seq<byte>)
    requires HEADER_LEN + |body| <= U16_MAX
    ensures var total := HEADER_LEN + |body|;
            && Frame(ty, body)[HEADER_LEN..] == body
            && ParseHeader(Frame(ty, body)) ==
               if total <= MAX_LEN then Ok((ty, total)) else Err(BadLength(total))
  {
    FrameParsesAhead(ty, body, []);
    assert Frame(ty, body) + [] == Frame(ty, body);
    assert Frame(ty, body)[HEADER_LEN..] == Frame(ty, body)[HEADER_LEN..HEADER_LEN + |body|];
  }

  // ---- KEEPALIVE and NOTIFICATION -----------------------------------------

  function KeepaliveBytes(): seq<byte> {
    Frame(KeepaliveType.Code(), [])
  }

  predicate FitsNotification(n: NotificationMsg) {
    HEADER_LEN + 2 + |n.data| <= U16_MAX
  }

  function NotificationBytes(n: NotificationMsg): seq<byte>
    requires FitsNotification(n)
  {
    Frame(NotificationType.Code(), [n.code, n.subcode] + n.data)
  }

  function DecodeNotification(body: seq<byte>): (r: Result<NotificationMsg, BgpError>) {
    if |body| < 2 then Err(ShortNotification)
    else Ok(NotificationMsg(body[0], body[1], body[2..]))
  }

  // ---- OPEN: the declarative reading ---------------------------------------

  /** A type-length-value triple: an optional parameter or a capability. */
  datatype Tlv = Tlv(code: byte, value: seq<byte>)

  /** The capabilities of one Capabilities parameter, in order. */
  function CapsOfParam(region: seq<byte>): (r: Result<seq<Tlv>, BgpError>) {
    if region == [] then Ok([])
    else if |region| < 2 then Err(TruncatedCapHeader)
    else if 2 + region[1] as int > |region| then Err(TruncatedCapValue)
    else
      var end := 2 + region[1] as int;
      match CapsOfParam(region[end..])
      case Err(e) => Err(e)
      case Ok(rest) => Ok([Tlv(region[0], region[2..end])] + rest)
  }

  /** The capabilities of every Capabilities parameter (type 2), in order; other parameters are skipped. */
  function Caps(region: seq<byte>): (r: Result<seq<Tlv>, BgpError>) {
    if region == [] then Ok([])
    else if |region| < 2 then Err(TruncatedParamHeader)
    else if 2 + region[1] as int > |region| then Err(TruncatedParamValue)
    else
      var end := 2 + region[1] as int;
      match (if region[0] == 2 then CapsOfParam(region[2..end]) else Ok([]))
      case Err(e) => Err(e)
      case Ok(own) =>
        match Caps(region[end..])
        case Err(e) => Err(e)
        case Ok(rest) => Ok(own + rest)
  }

  predicate IsAsnCap(c: Tlv) {
    c.code == CAP_4OCTET_AS && |c.value| == 4
  }

  predicate IsMpCap(c: Tlv, afi: u16, safi: byte) {
    c.code == CAP_MP_BGP && |c.value| == 4 && De16(c.value) == afi && c.value[3] == safi
  }

  /** The last well-formed 4-octet-AS capability wins. */
  function AsnCap(caps: seq<Tlv>): Option<u32> {
    if caps == [] then None
    else
      var c := caps[|caps| - 1];
      if IsAsnCap(c) then Some(De32(c.value)) else AsnCap(caps[..|caps| - 1])
  }

  predicate Advertises(caps: seq<Tlv>, afi: u16, safi: byte) {
    exists i :: 0 <= i < |caps| && IsMpCap(caps[i], afi, safi)
  }

  /** What an OPEN body means (section 4.2 of RFC 4271, RFC 6793, section 8 of RFC 4760). */
  function OpenOf(body: seq<byte>): (r: Result<OpenMsg, BgpError>) {
    if |body| < 10 then Err(ShortOpen)
    else if |body| < 10 + body[9] as int then Err(OptParamsOverrun)
    else
      match Caps(body[10..10 + body[9] as int])
      case Err(e) => Err(e)
      case Ok(caps) =>
        var asn := match AsnCap(caps) case Some(a) => a case None => De16(body[1..3]);
        Ok(OpenMsg(asn, De16(body[3..5]), De32(body[5..9]),
                   Advertises(caps, 1, 1), Advertises(caps, 2, 1),
                   Advertises(caps, 1, 133), Advertises(caps, 2, 133)))
  }

  // ---- OPEN: the code's nested walk ----------------------------------------

  /** What the walk has gathered from the capabilities read so far. */
  datatype Gathered = Gathered(asn4: Option<u32>, v4: bool, v6: bool, f4: bool, f6: bool)

  /** One capability's contribution. */
  method TakeCap(g: Gathered, code: byte, value: seq<byte>, ghost seen: seq<Tlv>) returns (out: Gathered)
    requires Summary(seen, g)
    ensures Summary(seen + [Tlv(code, value)], out)
  {
    out := g;
    if code == CAP_4OCTET_AS && |value| == 4 {
      out := out.(asn4 := Some(De32(value)));
    } else if code == CAP_MP_BGP && |value| == 4 {
      var afi, safi := De16(value), value[3];
      if afi == 1 && safi == 1 {
        out := out.(v4 := true);
      } else if afi == 2 && safi == 1 {
        out := out.(v6 := true);
      } else if afi == 1 && safi == 133 {
        out := out.(f4 := true);
      } else if afi == 2 && safi == 133 {
        out := out.(f6 := true);
      }
    }
    SummaryStep(seen, Tlv(code, value), out);
  }

  /** The inner loop: the capabilities of one Capabilities parameter. */
  method WalkCaps(caps: seq<byte>, g: Gathered, ghost seen: seq<Tlv>) returns (r: Result<Gathered, BgpError>)
    requires Summary(seen, g)
    ensures r.Err? ==> CapsOfParam(caps) == Err(r.error)
    ensures r.Ok? ==> CapsOfParam(caps).Ok? && Summary(seen + CapsOfParam(caps).value, r.value)
  {
    hide Summary, CapsOfParam;
    var cur := g;
    ghost var own: seq<Tlv>, total := [], seen;
    var j := 0;
    ThenNothing(CapsOfParam(caps));
    assert caps[0..] == caps;
    NoCaps(caps);
    while j < |caps|
      invariant 0 <= j <= |caps|
      invariant CapsOfParam(caps) == Then(own, CapsOfParam(caps[j..]))
      invariant total == seen + own && Summary(total, cur)
    {
      CapFails(caps, j);
      if j + 2 > |caps| {
        return Err(TruncatedCapHeader);
      }
      var end := j + 2 + caps[j + 1] as int;
      if end > |caps| {
        return Err(TruncatedCapValue);
      }
      cur := TakeCap(cur, caps[j], caps[j + 2..end], total);
      ghost var c := Tlv(caps[j], caps[j + 2..end]);
      CapsStep(caps, j, own, c);
      own, total := own + [c], total + [c];
      j := end;
    }
    assert own + [] == own;
    r := Ok(cur);
  }

  /** The outer loop: every optional parameter, descending into the Capabilities ones. */
  method WalkParams(opt: seq<byte>) returns (r: Result<Gathered, BgpError>)
    ensures r.Err? ==> Caps(opt) == Err(r.error)
    ensures r.Ok? ==> Caps(opt).Ok? && Summary(Caps(opt).value, r.value)
  {
    var g := Gathered(None, false, false, false, false);
    ghost var seen: seq<Tlv> := [];
    assert Summary(seen, g);
    hide Summary;
    var i := 0;
    ThenNothing(Caps(opt));
    assert opt[0..] == opt;
    NoParams(opt);
    hide Caps, CapsOfParam;
    while i < |opt|
      invariant 0 <= i <= |opt|
      invariant Caps(opt) == Then(seen, Caps(opt[i..]))
      invariant Summary(seen, g)
    {
      ParamFails(opt, i);
      if i + 2 > |opt| {
        return Err(TruncatedParamHeader);
      }
      var end := i + 2 + opt[i + 1] as int;
      if end > |opt| {
        return Err(TruncatedParamValue);
      }
      ghost var own: seq<Tlv> := [];
      if opt[i] == 2 {
        var walked := WalkCaps(opt[i + 2..end], g, seen);
        if walked.Err? {
          return Err(walked.error);
        }
        own := CapsOfParam(opt[i + 2..end]).value;
        g := walked.value;
      }
      ParamStep(opt, i, seen, own);
      assert seen + [] == seen;
      seen := seen + own;
      i := end;
    }
    assert seen + [] == seen;
    r := Ok(g);
  }

  /** The nested walk over parameters and capabilities reads every body as `OpenOf` says. */
  method DecodeOpen(body: seq<byte>) returns (r: Result<OpenMsg, BgpError>)
    ensures r == OpenOf(body)
  {
    if |body| < 10 {
      return Err(ShortOpen);
    }
    var optEnd := 10 + body[9] as int;
    if |body| < optEnd {
      return Err(OptParamsOverrun);
    }
    var opt := body[10..optEnd];
    var walked := WalkParams(opt);
    if walked.Err? {
      return Err(walked.error);
    }
    var g := walked.value;
    r := Ok(OpenMsg(if g.asn4.Some? then g.asn4.value else De16(body[1..3]),
                    De16(body[3..5]), De32(body[5..9]), g.v4, g.v6, g.f4, g.f6));
  }

  /** What a list of capabilities still to be read adds to those already read. */
  ghost function Then(seen: seq<Tlv>, r: Result<seq<Tlv>, BgpError>): Result<seq<Tlv>, BgpError> {
    if r.Ok? then Ok(seen + r.value) else r
  }

  lemma ThenNothing(r: Result<seq<Tlv>, BgpError>)
    ensures Then([], r) == r
  {
    assert r.Ok? ==> [] + r.value == r.value;
  }

  /** The gathered values sum up the capabilities read so far. */
  ghost predicate Summary(seen: seq<Tlv>, g: Gathered) {
    && g.asn4 == AsnCap(seen)
    && g.v4 == Advertises(seen, 1, 1)
    && g.v6 == Advertises(seen, 2, 1)
    && g.f4 == Advertises(seen, 1, 133)
    && g.f6 == Advertises(seen, 2, 133)
  }

  lemma {:induction false} AdvertisesMore(seen: seq<Tlv>, c: Tlv, afi: u16, safi: byte)
    ensures Advertises(seen + [c], afi, safi) == (Advertises(seen, afi, safi) || IsMpCap(c, afi, safi))
  {
    var all := seen + [c];
    if IsMpCap(c, afi, safi) {
      assert IsMpCap(all[|seen|], afi, safi);
    }
    if Advertises(seen, afi, safi) {
      var i :| 0 <= i < |seen| && IsMpCap(seen[i], afi, safi);
      assert IsMpCap(all[i], afi, safi);
    }
  }

  lemma {:induction false} SummaryStep(seen: seq<Tlv>, c: Tlv, g: Gathered)
    requires g.asn4 == if IsAsnCap(c) then Some(De32(c.value)) else AsnCap(seen)
    requires g.v4 == (Advertises(seen, 1, 1) || IsMpCap(c, 1, 1))
    requires g.v6 == (Advertises(seen, 2, 1) || IsMpCap(c, 2, 1))
    requires g.f4 == (Advertises(seen, 1, 133) || IsMpCap(c, 1, 133))
    requires g.f6 == (Advertises(seen, 2, 133) || IsMpCap(c, 2, 133))
    ensures Summary(seen + [c], g)
  {
    assert (seen + [c])[..|seen|] == seen;
    AdvertisesMore(seen, c, 1, 1);
    AdvertisesMore(seen, c, 2, 1);
    AdvertisesMore(seen, c, 1, 133);
    AdvertisesMore(seen, c, 2, 133);
  }

  lemma {:induction false} CapsStep(caps: seq<byte>, j: nat, own: seq<Tlv>, c: Tlv)
    requires j + 2 <= |caps| && j + 2 + caps[j + 1] as int <= |caps|
    requires c == Tlv(caps[j], caps[j + 2..j + 2 + caps[j + 1] as int])
    requires CapsOfParam(caps) == Then(own, CapsOfParam(caps[j..]))
    ensures CapsOfParam(caps) == Then(own + [c], CapsOfParam(caps[j + 2 + caps[j + 1] as int..]))
  {
    hide CapsOfParam, Then;
    var end := 2 + caps[j + 1] as int;
    TailSlice(caps, j, 2, end);
    FirstCap(caps[j..], c);
    ThenThen(own, [c], CapsOfParam(caps[j + end..]));
  }

  lemma {:induction false} FirstCap(region: seq<byte>, c: Tlv)
    requires 2 <= |region| && 2 + region[1] as int <= |region|
    requires c == Tlv(region[0], region[2..2 + region[1] as int])
    ensures CapsOfParam(region) == Then([c], CapsOfParam(region[2 + region[1] as int..]))
  {
  }

  lemma TailSlice(s: seq<byte>, i: nat, a: nat, b: nat)
    requires a <= b && i + b <= |s|
    ensures s[i..][a..b] == s[i + a..i + b] && s[i..][b..] == s[i + b..]
  {
  }

  /** Where the rest of the parameter cannot be read, neither can the whole. */
  lemma CapFails(caps: seq<byte>, j: nat)
    requires j < |caps|
    ensures j + 2 > |caps| ==> CapsOfParam(caps[j..]) == Err(TruncatedCapHeader)
    ensures j + 2 <= |caps| && j + 2 + caps[j + 1] as int > |caps| ==> CapsOfParam(caps[j..]) == Err(TruncatedCapValue)
  {
  }

  lemma NoCaps(caps: seq<byte>)
    ensures CapsOfParam(caps[|caps|..]) == Ok([])
  {
  }

  lemma ThenThen(x: seq<Tlv>, y: seq<Tlv>, r: Result<seq<Tlv>, BgpError>)
    ensures Then(x, Then(y, r)) == Then(x + y, r)
  {
    assert r.Ok? ==> x + (y + r.value) == x + y + r.value;
  }

  /** Where the rest of the region cannot be read, neither can the whole. */
  lemma ParamFails(opt: seq<byte>, i: nat)
    requires i < |opt|
    ensures i + 2 > |opt| ==> Caps(opt[i..]) == Err(TruncatedParamHeader)
    ensures i + 2 <= |opt| && i + 2 + opt[i + 1] as int > |opt| ==> Caps(opt[i..]) == Err(TruncatedParamValue)
    ensures i + 2 <= |opt| && i + 2 + opt[i + 1] as int <= |opt| && opt[i] == 2 ==>
              var own := CapsOfParam(opt[i + 2..i + 2 + opt[i + 1] as int]);
              own.Err? ==> Caps(opt[i..]) == Err(own.error)
  {
    if i + 2 <= |opt| && i + 2 + opt[i + 1] as int <= |opt| {
      var end := 2 + opt[i + 1] as int;
      assert opt[i..][2..end] == opt[i + 2..i + end];
    }
  }

  lemma NoParams(opt: seq<byte>)
    ensures Caps(opt[|opt|..]) == Ok([])
  {
  }

  lemma {:induction false} ParamStep(opt: seq<byte>, i: nat, seen: seq<Tlv>, own: seq<Tlv>)
    requires i + 2 <= |opt| && i + 2 + opt[i + 1] as int <= |opt|
    requires (if opt[i] == 2 then CapsOfParam(opt[i + 2..i + 2 + opt[i + 1] as int]) else Ok([])) == Ok(own)
    requires Caps(opt) == Then(seen, Caps(opt[i..]))
    ensures Caps(opt) == Then(seen + own, Caps(opt[i + 2 + opt[i + 1] as int..]))
  {
    hide CapsOfParam, Caps, Then;
    var end := 2 + opt[i + 1] as int;
    TailSlice(opt, i, 2, end);
    FirstParam(opt[i..], own);
    ThenThen(seen, own, Caps(opt[i + end..]));
  }

  lemma {:induction false} FirstParam(region: seq<byte>, own: seq<Tlv>)
    requires 2 <= |region| && 2 + region[1] as int <= |region|
    requires (if region[0] == 2 then CapsOfParam(region[2..2 + region[1] as int]) else Ok([])) == Ok(own)
    ensures Caps(region) == Then(own, Caps(region[2 + region[1] as int..]))
  {
    hide CapsOfParam;
  }

  // ---- OPEN: encoding and the round trip -----------------------------------

  function MpCap(afi: u16, safi: byte): Tlv {
    Tlv(CAP_MP_BGP, Be16(afi) + [0, safi])
  }

  function Maybe(on: bool, c: Tlv): seq<Tlv> {
    if on then [c] else []
  }

  function CapList(o: OpenMsg): (l: seq<Tlv>)
    ensures |l| <= 5 && AllOfFour(l)
  {
    [Tlv(CAP_4OCTET_AS, Be32(o.asn))] + Maybe(o.ipv4Unicast, MpCap(1, 1)) + Maybe(o.ipv6Unicast, MpCap(2, 1))
    + Maybe(o.flowspecV4, MpCap(1, 133)) + Maybe(o.flowspecV6, MpCap(2, 133))
  }

  predicate AllOfFour(l: seq<Tlv>) {
    forall i :: 0 <= i < |l| ==> |l[i].value| == 4
  }

  function CapBytes(l: seq<Tlv>): (b: seq<byte>)
    requires AllOfFour(l)
    ensures |b| == 6 * |l|
  {
    if l == [] then [] else [l[0].code, 4] + l[0].value + CapBytes(l[1..])
  }

  function OpenBody(o: OpenMsg): (b: seq<byte>)
    ensures |b| <= 42
  {
    var caps := CapBytes(CapList(o));
    [4] + Be16(if o.asn <= U16_MAX then o.asn else AS_TRANS) + Be16(o.holdTime) + Be32(o.routerId)
    + [2 + |caps|] + ([2, |caps|] + caps)
  }

  function OpenBytes(o: OpenMsg): seq<byte> {
    Frame(OpenType.Code(), OpenBody(o))
  }

  lemma {:induction false} CapBytesAppend(l: seq<Tlv>, c: Tlv)
    requires AllOfFour(l) && |c.value| == 4
    ensures CapBytes(l + [c]) == CapBytes(l) + [c.code, 4] + c.value
  {
    if l == [] {
      assert l + [c] == [c] && [c][1..] == [];
      assert CapBytes([c][1..]) == [];
    } else {
      CapBytesAppend(l[1..], c);
      assert (l + [c])[1..] == l[1..] + [c];
    }
  }

  /** One conditional push of a multiprotocol capability. */
  method PushMpCap(caps: seq<byte>, ghost l: seq<Tlv>, on: bool, afi: u16, safi: byte) returns (out: seq<byte>)
    requires AllOfFour(l) && caps == CapBytes(l)
    ensures AllOfFour(l + Maybe(on, MpCap(afi, safi)))
    ensures out == CapBytes(l + Maybe(on, MpCap(afi, safi)))
  {
    out := caps;
    assert !on ==> l + Maybe(on, MpCap(afi, safi)) == l;
    if on {
      out := out + [CAP_MP_BGP];
      out := out + [4];
      out := out + Be16(afi);
      out := out + [0];
      out := out + [safi];
      CapBytesAppend(l, MpCap(afi, safi));
    }
  }

  method EncodeCaps(o: OpenMsg) returns (caps: seq<byte>)
    ensures caps == CapBytes(CapList(o))
  {
    caps := [CAP_4OCTET_AS];
    caps := caps + [4];
    caps := caps + Be32(o.asn);
    ghost var l := [Tlv(CAP_4OCTET_AS, Be32(o.asn))];
    CapBytesAppend([], l[0]);
    assert [] + [l[0]] == l;
    caps := PushMpCap(caps, l, o.ipv4Unicast, 1, 1);
    l := l + Maybe(o.ipv4Unicast, MpCap(1, 1));
    caps := PushMpCap(caps, l, o.ipv6Unicast, 2, 1);
    l := l + Maybe(o.ipv6Unicast, MpCap(2, 1));
    caps := PushMpCap(caps, l, o.flowspecV4, 1, 133);
    l := l + Maybe(o.flowspecV4, MpCap(1, 133));
    caps := PushMpCap(caps, l, o.flowspecV6, 2, 133);
  }

  method EncodeOpenBody(o: OpenMsg) returns (body: seq<byte>)
    ensures body == OpenBody(o)
  {
    hide CapList, CapBytes, Be16, Be32;
    var caps := EncodeCaps(o);
    var paramLen: byte := |caps|;
    var optParams := [2, paramLen] + caps;
    var optParamLen: byte := |optParams|;
    body := [4];
    body := body + Be16(if o.asn <= U16_MAX then o.asn else AS_TRANS);
    body := body + Be16(o.holdTime);
    body := body + Be32(o.routerId);
    body := body + [optParamLen];
    body := body + optParams;
  }

  /** The whole OPEN; the one-octet lengths of both nested regions always fit. */
  method EncodeOpen(o: OpenMsg) returns (out: seq<byte>)
    ensures out == OpenBytes(o)
    ensures DecodeMessage(out) == Ok((Open(o), |out|))
  {
    var body := EncodeOpenBody(o);
    out := EncodeHeader(OpenType.Code(), body);
    OpenRoundTrip(o);
  }

  lemma {:induction false} CapBytesRead(l: seq<Tlv>)
    requires AllOfFour(l)
    ensures CapsOfParam(CapBytes(l)) == Ok(l)
  {
    if l == [] {
    } else {
      var b := CapBytes(l);
      CapBytesRead(l[1..]);
      assert b[6..] == CapBytes(l[1..]);
      assert b[2..6] == l[0].value;
      assert [l[0]] + l[1..] == l;
    }
  }

  ghost function WithMp(g: Gathered, on: bool, afi: u16, safi: byte): Gathered {
    Gathered(g.asn4, g.v4 || (on && afi == 1 && safi == 1), g.v6 || (on && afi == 2 && safi == 1),
             g.f4 || (on && afi == 1 && safi == 133), g.f6 || (on && afi == 2 && safi == 133))
  }

  lemma {:induction false} SummaryMaybe(l: seq<Tlv>, g: Gathered, on: bool, afi: u16, safi: byte)
    requires Summary(l, g)
    ensures Summary(l + Maybe(on, MpCap(afi, safi)), WithMp(g, on, afi, safi))
  {
    if on {
      SummaryStep(l, MpCap(afi, safi), WithMp(g, on, afi, safi));
    } else {
      assert l + [] == l;
    }
  }

  lemma {:induction false} CapListMeans(o: OpenMsg)
    ensures Summary(CapList(o), Gathered(Some(o.asn), o.ipv4Unicast, o.ipv6Unicast, o.flowspecV4, o.flowspecV6))
  {
    var l := [Tlv(CAP_4OCTET_AS, Be32(o.asn))];
    var g := Gathered(Some(o.asn), false, false, false, false);
    SummaryStep([], l[0], g);
    assert [] + [l[0]] == l;
    SummaryMaybe(l, g, o.ipv4Unicast, 1, 1);
    l, g := l + Maybe(o.ipv4Unicast, MpCap(1, 1)), g.(v4 := o.ipv4Unicast);
    SummaryMaybe(l, g, o.ipv6Unicast, 2, 1);
    l, g := l + Maybe(o.ipv6Unicast, MpCap(2, 1)), g.(v6 := o.ipv6Unicast);
    SummaryMaybe(l, g, o.flowspecV4, 1, 133);
    l, g := l + Maybe(o.flowspecV4, MpCap(1, 133)), g.(f4 := o.flowspecV4);
    SummaryMaybe(l, g, o.flowspecV6, 2, 133);
  }

  /** A region of one capabilities parameter. */
  lemma {:induction false} OneParam(caps: seq<byte>)
    requires |caps| < 256
    ensures Caps([2, |caps|] + caps) == CapsOfParam(caps)
  {
    hide CapsOfParam;
    var region: seq<byte> := [2, |caps|] + caps;
    assert region[2..2 + |caps|] == caps && region[2 + |caps|..] == [];
    EmptyRegion();
    if CapsOfParam(caps).Ok? {
      assert CapsOfParam(caps).value + [] == CapsOfParam(caps).value;
    }
  }

  lemma EmptyRegion()
    ensures Caps([]) == Ok([])
  {
  }

  lemma {:induction false} CapRegionReads(l: seq<Tlv>)
    requires AllOfFour(l) && |l| <= 5
    ensures Caps([2, |CapBytes(l)|] + CapBytes(l)) == Ok(l)
  {
    hide Caps, CapsOfParam, CapBytes;
    CapBytesRead(l);
    OneParam(CapBytes(l));
  }

  lemma {:induction false} OpenBodyFields(o: OpenMsg)
    ensures var b := OpenBody(o);
            var caps := CapBytes(CapList(o));
            && |b| == 12 + |caps| && b[9] == 2 + |caps|
            && b[3..5] == Be16(o.holdTime) && b[5..9] == Be32(o.routerId)
            && b[10..] == [2, |caps|] + caps
  {
  }

  /** Every OPEN reads back, an ASN above 65535 through AS_TRANS included. */
  lemma {:induction false} OpenBodyRoundTrip(o: OpenMsg)
    ensures OpenOf(OpenBody(o)) == Ok(o)
  {
    hide Caps, CapList, CapBytes, OpenBody, AsnCap, Advertises, De16, De32;
    OpenBodyFields(o);
    var b := OpenBody(o);
    assert b[10..10 + b[9] as int] == b[10..];
    CapRegionReads(CapList(o));
    CapListMeans(o);
  }

  // ---- Dispatch --------------------------------------------------------------

  function DecodeMessage(bytes: seq<byte>): (r: Result<(BgpMessage, nat), BgpError>) {
    match ParseHeader(bytes)
    case Err(e) => Err(e)
    case Ok((ty, total)) =>
      if |bytes| < total then Err(ShortBuffer)
      else
        var body := bytes[HEADER_LEN..total];
        match FromCode(ty)
        case None => Err(UnknownType(ty))
        case Some(OpenType) =>
          (match OpenOf(body) case Err(e) => Err(e) case Ok(o) => Ok((Open(o), total)))
        case Some(NotificationType) =>
          (match DecodeNotification(body) case Err(e) => Err(e) case Ok(n) => Ok((Notification(n), total)))
        case Some(KeepaliveType) => Ok((Keepalive, total))
        case Some(UpdateType) => Ok((Update, total))
  }

  /** What each type octet makes of a message of `total` octets. */
  ghost predicate IsMessage(bytes: seq<byte>, m: BgpMessage, total: nat)
    requires 19 <= total <= |bytes|
  {
    var body := bytes[19..total];
    match bytes[18]
    case 1 => m.Open? && OpenOf(body) == Ok(m.open)
    case 2 => m == Update
    case 3 => |body| >= 2 && m == Notification(NotificationMsg(body[0], body[1], body[2..]))
    case 4 => m == Keepalive
    case _ => false
  }

  /** A message is read exactly when its header is right, all its octets are there and its type is one of the four. */
  lemma DecodesExactly(bytes: seq<byte>, m: BgpMessage, total: nat)
    ensures DecodeMessage(bytes) == Ok((m, total)) <==>
            |bytes| >= 19 && IsHeader(bytes, bytes[18], total) && total <= |bytes| && IsMessage(bytes, m, total)
  {
    hide OpenOf, ParseHeader, IsHeader;
    if |bytes| >= 19 {
      ParsesExactlyHeaders(bytes, bytes[18], total);
      match ParseHeader(bytes)
      case Ok((ty, n)) => ParsesExactlyHeaders(bytes, ty, n); HeaderIs(bytes, ty, n);
      case Err(_) =>
    } else {
      TooShort(bytes);
    }
  }

  lemma HeaderIs(bytes: seq<byte>, ty: byte, total: nat)
    requires IsHeader(bytes, ty, total)
    ensures |bytes| >= 19 && bytes[18] == ty && 19 <= total
  {
  }

  lemma TooShort(bytes: seq<byte>)
    requires |bytes| < 19
    ensures ParseHeader(bytes).Err?
  {
  }

  lemma OpenRoundTrip(o: OpenMsg)
    ensures DecodeMessage(OpenBytes(o)) == Ok((Open(o), |OpenBytes(o)|))
  {
    FrameParses(OpenType.Code(), OpenBody(o));
    OpenBodyRoundTrip(o);
    var out := OpenBytes(o);
    assert out[HEADER_LEN..|out|] == OpenBody(o);
  }

  /** A NOTIFICATION reads back exactly when it keeps to the 4096-octet limit. */
  lemma NotificationRoundTrip(n: NotificationMsg)
    requires FitsNotification(n)
    ensures var out := NotificationBytes(n);
            DecodeMessage(out) == Ok((Notification(n), |out|)) <==> |n.data| <= 4096 - 21
  {
    var body := [n.code, n.subcode] + n.data;
    FrameParses(NotificationType.Code(), body);
    var out := NotificationBytes(n);
    assert out[HEADER_LEN..|out|] == body;
    assert body[2..] == n.data;
  }

  lemma KeepaliveRoundTrip()
    ensures DecodeMessage(KeepaliveBytes()) == Ok((Keepalive, HEADER_LEN))
  {
    FrameParses(KeepaliveType.Code(), []);
  }
}
