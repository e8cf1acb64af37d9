/**
 A receiver's reading of an UPDATE, written from sections 4.1, 4.3 and 5 of RFC 4271, sections 3 and 4 of
 RFC 4760, RFC 1997, RFC 8092, sections 4 and 7 of RFC 8955 and section 3.1 of RFC 8956.
 It shares with the encoders the big-endian integers and what a prefix is: its octet count and the clearing of
 its host bits, which `TruncExactly` states bit by bit.
 */
module Reference {
  import opened Bytes
  import opened Wrappers
  import opened Net
  import opened Message

  /** What a route is about: a unicast prefix, or the traffic a FlowSpec rule matches. */
  datatype Dest =
    | Unicast(net: IpNet)
    | Flow(dst: IpNet, protocol: Option<byte>, port: Option<u16>)

  /** `origin` is 0 for IGP, 1 for EGP, 2 for INCOMPLETE; `rate` is the AS and rate of a traffic-rate action. */
  datatype Path = Path(
    nextHop: Option<IpAddr>, origin: byte, asPath: seq<byte>, communities: seq<(u16, u16)>,
    large: seq<(u32, u32, u32)>, rate: Option<(u16, seq<byte>)>)

  datatype Change = Reach(dest: Dest, path: Path) | Unreach(dest: Dest)

  datatype Attr = Attr(flags: byte, code: byte, value: seq<byte>)

  /** The Extended Length flag bit, 0x10. */
  predicate ExtendedLen(flags: byte) {
    flags / 16 % 2 == 1
  }

  function Attrs(b: seq<byte>): (r: Option<seq<Attr>>) {
    if b == [] then Some([])
    else if |b| < 3 || (ExtendedLen(b[0]) && |b| < 4) then None
    else
      var start := if ExtendedLen(b[0]) then 4 else 3;
      var end := start + if ExtendedLen(b[0]) then De16(b[2..4]) else b[2];
      if end > |b| then None
      else
        match Attrs(b[end..])
        case None => None
        case Some(rest) => Some([Attr(b[0], b[1], b[start..end])] + rest)
  }

  /** The flags an attribute type must carry, its length form aside: optional 0x80, transitive 0x40, partial 0x20. */
  predicate FlagsRight(a: Attr) {
    var flags := a.flags as int - if ExtendedLen(a.flags) then 0x10 else 0;
    match a.code
    case 1 => flags == 0x40
    case 2 => flags == 0x40
    case 3 => flags == 0x40
    case 14 => flags == 0x80
    case 15 => flags == 0x80
    case 8 => flags == 0xC0 || flags == 0xE0
    case 16 => flags == 0xC0 || flags == 0xE0
    case 32 => flags == 0xC0 || flags == 0xE0
    case _ => true
  }

  predicate AllFlagsRight(attrs: seq<Attr>) {
    forall i :: 0 <= i < |attrs| ==> FlagsRight(attrs[i])
  }

  /** The value of the first attribute of a type; later repeats are ignored (section 3 of RFC 7606). */
  function Find(attrs: seq<Attr>, code: byte): Option<seq<byte>> {
    if attrs == [] then None
    else if attrs[0].code == code then Some(attrs[0].value)
    else Find(attrs[1..], code)
  }

  function Address(v4: bool, octets: seq<byte>): IpAddr
    requires |octets| == if v4 then 4 else 16
  {
    if v4 then V4(octets) else V6(octets)
  }

  function AddressLen(v4: bool): nat {
    if v4 then 4 else 16
  }

  /** Rebuilds a prefix from its leading octets; bits past the prefix are irrelevant and read as zero. */
  function Rebuild(v4: bool, bits: nat, octets: seq<byte>): IpNet
    requires bits <= 8 * AddressLen(v4) && |octets| == OctetCount(bits)
  {
    Trunc(Net(Address(v4, octets + Zeros(AddressLen(v4) - |octets|)), bits))
  }

  /** A run of length-prefixed NLRI prefixes. */
  function Prefixes(v4: bool, b: seq<byte>): (r: Option<seq<IpNet>>) {
    if b == [] then Some([])
    else if b[0] as int > 8 * AddressLen(v4) || 1 + OctetCount(b[0]) > |b| then None
    else
      var end := 1 + OctetCount(b[0]);
      match Prefixes(v4, b[end..])
      case None => None
      case Some(rest) => Some([Rebuild(v4, b[0], b[1..end])] + rest)
  }

  function Communities(b: seq<byte>): (r: Option<seq<(u16, u16)>>) {
    if b == [] then Some([])
    else if |b| < 4 then None
    else
      match Communities(b[4..])
      case None => None
      case Some(rest) => Some([(De16(b[0..2]), De16(b[2..4]))] + rest)
  }

  function LargeCommunities(b: seq<byte>): (r: Option<seq<(u32, u32, u32)>>) {
    if b == [] then Some([])
    else if |b| < 12 then None
    else
      match LargeCommunities(b[12..])
      case None => None
      case Some(rest) => Some([(De32(b[0..4]), De32(b[4..8]), De32(b[8..12]))] + rest)
  }

  /**
   Extended communities of eight octets each; the first traffic-rate among them (type 0x80, subtype 0x06, two
   octets of AS, four of rate) is the action.
   */
  function RateAction(b: seq<byte>): (r: Option<Option<(u16, seq<byte>)>>) {
    if b == [] then Some(None)
    else if |b| < 8 then None
    else
      match RateAction(b[8..])
      case None => None
      case Some(later) => if b[0] == 0x80 && b[1] == 0x06 then Some(Some((De16(b[2..4]), b[4..8]))) else Some(later)
  }

  // ---- FlowSpec NLRI -----------------------------------------------------------

  /** A `{op, value}` list of one equality test, end-of-list set: the value and the octets it takes. */
  function Equality(b: seq<byte>): Option<(nat, nat)> {
    if |b| < 2 || b[0] < 0x80 || b[0] / 0x40 % 2 == 1 || b[0] % 0x10 != 1 then None
    else if b[0] / 0x10 % 4 == 0 then Some((b[1], 2))
    else if b[0] / 0x10 % 4 == 1 && |b| >= 3 then Some((De16(b[1..3]), 3))
    else None
  }

  function PortPart(dst: IpNet, protocol: Option<byte>, b: seq<byte>): Option<Dest> {
    if b == [] then Some(Flow(dst, protocol, None))
    else if b[0] != 5 then None
    else
      match Equality(b[1..])
      case None => None
      case Some((v, used)) =>
        if v > U16_MAX || 1 + used != |b| then None else Some(Flow(dst, protocol, Some(v)))
  }

  function ProtocolPart(dst: IpNet, b: seq<byte>): Option<Dest> {
    if b == [] || b[0] != 3 then PortPart(dst, None, b)
    else
      match Equality(b[1..])
      case None => None
      case Some((v, used)) =>
        if v > 255 || 1 + used > |b| then None else PortPart(dst, Some(v), b[1 + used..])
  }

  /** Destination prefix (with an offset octet in IPv6), then protocol, then port, in type order. */
  function Components(v4: bool, b: seq<byte>): Option<Dest> {
    var start := if v4 then 2 else 3;
    if |b| < start || b[0] != 1 || b[1] as int > 8 * AddressLen(v4) || (!v4 && b[2] != 0) then None
    else
      var end := start + OctetCount(b[1]);
      if end > |b| then None
      else ProtocolPart(Rebuild(v4, b[1], b[start..end]), b[end..])
  }

  /** One FlowSpec NLRI filling the field: a one- or two-octet length, then the components. */
  function FlowNlri(v4: bool, b: seq<byte>): Option<Dest> {
    if b == [] then None
    else if b[0] < 0xF0 then
      if |b| == 1 + b[0] as int then Components(v4, b[1..]) else None
    else if |b| >= 2 && |b| == 2 + De16([b[0] - 0xF0, b[1]]) then Components(v4, b[2..])
    else None
  }

  // ---- UPDATE ------------------------------------------------------------------

  function PathOf(attrs: seq<Attr>, nextHop: Option<IpAddr>): Option<Path> {
    var communities :=
      match Find(attrs, 8) case None => Some([]) case Some(v) => Communities(v);
    var large :=
      match Find(attrs, 32) case None => Some([]) case Some(v) => LargeCommunities(v);
    var rate :=
      match Find(attrs, 16) case None => Some(None) case Some(v) => RateAction(v);
    match (Find(attrs, 1), Find(attrs, 2))
    case (Some(origin), Some(asPath)) =>
      if |origin| != 1 || origin[0] > 2 || communities.None? || large.None? || rate.None? then None
      else Some(Path(nextHop, origin[0], asPath, communities.value, large.value, rate.value))
    case _ => None
  }

  function AllReach(nets: seq<IpNet>, path: Path): seq<Change> {
    seq(|nets|, i requires 0 <= i < |nets| => Reach(Unicast(nets[i]), path))
  }

  function AllUnreach(nets: seq<IpNet>): seq<Change> {
    seq(|nets|, i requires 0 <= i < |nets| => Unreach(Unicast(nets[i])))
  }

  /** NEXT_HOP and the trailing IPv4 NLRI field. */
  function ClassicReach(attrs: seq<Attr>, nlri: seq<byte>): Option<seq<Change>> {
    if nlri == [] then Some([])
    else
      match (Prefixes(true, nlri), Find(attrs, 3))
      case (Some(nets), Some(hop)) =>
        if |hop| != 4 then None
        else (match PathOf(attrs, Some(V4(hop)))
              case None => None
              case Some(path) => Some(AllReach(nets, path)))
      case _ => None
  }

  /** MP_REACH_NLRI for IPv6 unicast and for both FlowSpec families. */
  function MpReach(attrs: seq<Attr>): Option<seq<Change>> {
    match Find(attrs, 14)
    case None => Some([])
    case Some(v) =>
      if |v| < 5 || |v| < 5 + v[3] as int then None
      else
        var hop := v[4..4 + v[3] as int];
        var nlri := v[5 + v[3] as int..];
        if De16(v[0..2]) == 2 && v[2] == 1 && |hop| == 16 then
          match (Prefixes(false, nlri), PathOf(attrs, Some(V6(hop))))
          case (Some(nets), Some(path)) => Some(AllReach(nets, path))
          case _ => None
        else if De16(v[0..2]) in {1, 2} && v[2] == 133 && |hop| == 0 then
          match (FlowNlri(De16(v[0..2]) == 1, nlri), PathOf(attrs, None))
          case (Some(dest), Some(path)) => Some([Reach(dest, path)])
          case _ => None
        else None
  }

  function MpUnreach(attrs: seq<Attr>): Option<seq<Change>> {
    match Find(attrs, 15)
    case None => Some([])
    case Some(v) =>
      if |v| < 3 then None
      else if De16(v[0..2]) == 2 && v[2] == 1 then
        match Prefixes(false, v[3..])
        case None => None
        case Some(nets) => Some(AllUnreach(nets))
      else if De16(v[0..2]) in {1, 2} && v[2] == 133 then
        match FlowNlri(De16(v[0..2]) == 1, v[3..])
        case None => None
        case Some(dest) => Some([Unreach(dest)])
      else None
  }

  function MpFamily(value: seq<byte>): (u16, byte)
    requires |value| >= 3
  {
    (De16(value[0..2]), value[2])
  }

  /** The AFI and SAFI pairs that MP_REACH_NLRI and MP_UNREACH_NLRI carry. */
  function MpFamiliesOf(attrs: seq<Attr>): set<(u16, byte)> {
    (match Find(attrs, 14) case Some(v) => if |v| >= 3 then {MpFamily(v)} else {} case None => {})
    + (match Find(attrs, 15) case Some(v) => if |v| >= 3 then {MpFamily(v)} else {} case None => {})
  }

  /** The same, of a whole UPDATE. */
  function MpFamilies(bytes: seq<byte>): set<(u16, byte)>
    requires Changes(bytes).Some?
  {
    var body := bytes[19..];
    var w := De16(body[0..2]) as int;
    var a := De16(body[2 + w..4 + w]) as int;
    MpFamiliesOf(Attrs(body[4 + w..4 + w + a]).value)
  }

  /** Withdrawn routes, path attributes and NLRI, in that order of effect. */
  function Combine(withdrawn: Option<seq<IpNet>>, attrs: Option<seq<Attr>>, nlri: seq<byte>): Option<seq<Change>> {
    if withdrawn.None? || attrs.None? || !AllFlagsRight(attrs.value) then None
    else
      match (MpUnreach(attrs.value), MpReach(attrs.value), ClassicReach(attrs.value, nlri))
      case (Some(u), Some(r), Some(c)) => Some(AllUnreach(withdrawn.value) + u + r + c)
      case _ => None
  }

  function ChangesOfBody(body: seq<byte>): Option<seq<Change>> {
    if |body| < 4 then None
    else
      var w := De16(body[0..2]) as int;
      if |body| < 4 + w then None
      else
        var a := De16(body[2 + w..4 + w]) as int;
        if |body| < 4 + w + a then None
        else Combine(Prefixes(true, body[2..2 + w]), Attrs(body[4 + w..4 + w + a]), body[4 + w + a..])
  }

  /** The changes one whole message asks for; `None` when it is not a well-formed UPDATE. */
  function Changes(bytes: seq<byte>): Option<seq<Change>> {
    if IsHeader(bytes, 2, |bytes|) then ChangesOfBody(bytes[19..]) else None
  }
}
