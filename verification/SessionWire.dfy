/** What goes on the wire, and in what order. */
module SessionWire {
  import opened Bytes
  import opened Net
  import opened Wrappers
  import opened Message
  import opened OpenFormat
  import opened Framing
  import opened Reference
  import opened Update
  import opened FlowSpec
  import opened Session
  import opened SessionTable

  // ---- Order on the wire -----------------------------------------------------------------

  predicate IsOpen(io: Io) {
    io.Got? && io.msg.Open?
  }

  predicate IsAlive(io: Io) {
    io.Got? && (io.msg.Keepalive? || io.msg.Update?)
  }

  /** The configured ASN, hold time and router identifier, and all four families. */
  predicate IsOurOpen(cfg: PeerConfig, io: Io) {
    io == Io.Sent(OpenOut(OpenMsg(cfg.localAsn, cfg.holdTime, cfg.routerId, true, true, true, true)))
  }

  /**
   Our OPEN, then the peer's first OPEN, at `j`, with the configured ASN and a hold time of 0 or at least 3,
   answered at once by our KEEPALIVE.
   */
  ghost predicate OpenedAt(cfg: PeerConfig, tr: seq<Io>, peer: OpenMsg, j: nat) {
    && 0 < j < |tr| - 1
    && IsOurOpen(cfg, tr[0])
    && (forall i :: 0 <= i < j ==> !IsOpen(tr[i]))
    && tr[j].Got? && tr[j].msg == Open(peer)
    && peer.asn == cfg.peerAsn && (peer.holdTime == 0 || peer.holdTime >= 3)
    && tr[j + 1] == Io.Sent(KeepaliveOut)
  }

  /** After that the first KEEPALIVE or UPDATE from the peer, at `l`. */
  ghost predicate ConfirmedAt(cfg: PeerConfig, tr: seq<Io>, peer: OpenMsg, j: nat, l: nat) {
    && OpenedAt(cfg, tr, peer, j) && j + 1 < l < |tr| && IsAlive(tr[l])
    && forall i :: j < i < l ==> !IsAlive(tr[i])
  }

  /** Opened and not yet confirmed. */
  ghost predicate WaitsAt(cfg: PeerConfig, tr: seq<Io>, peer: OpenMsg, j: nat) {
    OpenedAt(cfg, tr, peer, j) && forall i :: j < i < |tr| ==> !IsAlive(tr[i])
  }

  ghost predicate Confirmed(cfg: PeerConfig, tr: seq<Io>, peer: OpenMsg) {
    exists j, l :: ConfirmedAt(cfg, tr, peer, j, l)
  }

  predicate WritesUpdate(io: Io) {
    (io.Sent? || io.Failed?) && IsUpdate(io.m)
  }

  /** An UPDATE at `i` came after a complete handshake with a peer that takes its family. */
  ghost predicate GuardedAt(cfg: PeerConfig, tr: seq<Io>, i: nat)
    requires i < |tr|
  {
    WritesUpdate(tr[i]) ==>
      exists peer :: Confirmed(cfg, tr[..i], peer) && AnnounceAllowed(peer, SafiOf(tr[i].m))
  }

  ghost predicate Guarded(cfg: PeerConfig, tr: seq<Io>) {
    forall i :: 0 <= i < |tr| ==> GuardedAt(cfg, tr, i)
  }

  ghost predicate WireInv(cfg: PeerConfig, conn: Conn, tr: seq<Io>) {
    && Guarded(cfg, tr)
    && match conn
       case AwaitOpen =>
         tr != [] && IsOurOpen(cfg, tr[0]) && forall i :: 0 <= i < |tr| ==> !IsOpen(tr[i])
       case AwaitConfirm(peer, _) => exists j :: WaitsAt(cfg, tr, peer, j)
       case Reannouncing(peer, _, _) => Confirmed(cfg, tr, peer)
       case Established(peer, _, _) => Confirmed(cfg, tr, peer)
       case _ => true
  }

  lemma OpenedLonger(cfg: PeerConfig, tr: seq<Io>, io: Io, peer: OpenMsg)
    requires exists j :: WaitsAt(cfg, tr, peer, j)
    ensures if IsAlive(io) then Confirmed(cfg, tr + [io], peer) else exists j :: WaitsAt(cfg, tr + [io], peer, j)
  {
    var j :| WaitsAt(cfg, tr, peer, j);
    assert OpenedAt(cfg, tr + [io], peer, j);
    if IsAlive(io) {
      assert ConfirmedAt(cfg, tr + [io], peer, j, |tr|);
    } else {
      assert WaitsAt(cfg, tr + [io], peer, j);
    }
  }

  lemma ConfirmedLonger(cfg: PeerConfig, tr: seq<Io>, io: Io, peer: OpenMsg)
    requires Confirmed(cfg, tr, peer)
    ensures Confirmed(cfg, tr + [io], peer)
  {
    var j, l :| ConfirmedAt(cfg, tr, peer, j, l);
    assert ConfirmedAt(cfg, tr + [io], peer, j, l);
  }

  lemma GuardedLonger(cfg: PeerConfig, tr: seq<Io>, io: Io)
    requires Guarded(cfg, tr)
    requires WritesUpdate(io) ==> exists peer :: Confirmed(cfg, tr, peer) && AnnounceAllowed(peer, SafiOf(io.m))
    ensures Guarded(cfg, tr + [io])
  {
    hide Confirmed;
    var tr' := tr + [io];
    forall i | 0 <= i < |tr'|
      ensures GuardedAt(cfg, tr', i)
    {
      if i < |tr| {
        assert GuardedAt(cfg, tr, i) && tr'[..i] == tr[..i];
      } else {
        assert tr'[..i] == tr;
      }
    }
  }

  lemma EmitWire(cfg: PeerConfig, s: State, m: RawOut, written: bool)
    requires IsUpdate(m) && (s.conn.Reannouncing? || s.conn.Established?) && WireInv(cfg, s.conn, s.trace)
    ensures var s' := Emit(s, s.conn.peer, m, written); WireInv(cfg, s'.conn, s'.trace)
  {
    hide Guarded, Confirmed;
    if CanBuild(m) && AnnounceAllowed(s.conn.peer, SafiOf(m)) {
      var io := if written then Io.Sent(m) else Io.Failed(m);
      GuardedLonger(cfg, s.trace, io);
      ConfirmedLonger(cfg, s.trace, io, s.conn.peer);
    }
  }

  lemma TakeFrameWire(cfg: PeerConfig, s: State, written: bool)
    requires WireInv(cfg, s.conn, s.trace)
    ensures var s' := DoTakeFrame(cfg, s, written); WireInv(cfg, s'.conn, s'.trace)
  {
    hide Guarded, Confirmed, NextFrame, DoTakeFrame, HoldSecs, WaitsAt;
    var s' := DoTakeFrame(cfg, s, written);
    TakeFrameIs(cfg, s, written);
    if FrameDue(s) {
      var got, turn := Got(NextFrame(s.buf).msg, s.now), TurnOf(cfg, s, NextFrame(s.buf).msg, written);
      GuardedLonger(cfg, s.trace, got);
      if turn.reply.Some? {
        GuardedLonger(cfg, s.trace + [got], turn.reply.value);
      }
      match s.conn {
        case AwaitOpen => OpeningWire(cfg, s, got, turn);
        case AwaitConfirm(peer, _) => OpenedLonger(cfg, s.trace, got, peer);
        case Established(peer, _, _) => ConfirmedLonger(cfg, s.trace, got, peer);
      }
    }
  }

  lemma OpeningWire(cfg: PeerConfig, s: State, got: Io, turn: Turn)
    requires s.conn.AwaitOpen? && WireInv(cfg, s.conn, s.trace)
    requires got.Got? && (exists written :: turn == TurnOf(cfg, s, got.msg, written))
    ensures var tr := Log(s.trace + [got], turn.reply);
            match turn.conn
            case AwaitOpen => IsOurOpen(cfg, tr[0]) && forall i :: 0 <= i < |tr| ==> !IsOpen(tr[i])
            case AwaitConfirm(peer, _) => exists j :: WaitsAt(cfg, tr, peer, j)
            case _ => turn.conn.Draining?
  {
    hide Guarded, HoldSecs;
    if turn.conn.AwaitConfirm? {
      assert WaitsAt(cfg, s.trace + [got] + [Io.Sent(KeepaliveOut)], turn.conn.peer, |s.trace|);
    }
  }

  lemma ConnectWire(cfg: PeerConfig, s: State, connected: bool, written: bool)
    requires WireInv(cfg, s.conn, s.trace)
    ensures var s' := DoConnect(cfg, s, connected, written); WireInv(cfg, s'.conn, s'.trace)
  {
    hide Guarded, Confirmed;
    NothingToGuard(cfg);
    var io := Write(OpenOut(LocalOpen(cfg)), written);
    GuardedLonger(cfg, [], io);
    assert [] + [io] == [io];
  }

  lemma KeepaliveWire(cfg: PeerConfig, s: State, written: bool)
    requires WireInv(cfg, s.conn, s.trace)
    ensures var s' := DoKeepaliveTimer(cfg, s, written); WireInv(cfg, s'.conn, s'.trace)
  {
    hide Guarded, Confirmed, HoldSecs;
    GuardedLonger(cfg, s.trace, Write(KeepaliveOut, written));
    if s.conn.Established? {
      ConfirmedLonger(cfg, s.trace, Io.Sent(KeepaliveOut), s.conn.peer);
    }
  }

  lemma TakeCommandWire(cfg: PeerConfig, s: State, written: bool)
    requires WireInv(cfg, s.conn, s.trace)
    ensures var s' := DoTakeCommand(s, written); WireInv(cfg, s'.conn, s'.trace)
  {
    hide Guarded, Confirmed, NextFrame, Emit, Apply, SafiOf, AnnounceAllowed, CanBuild;
    if CommandDue(s) {
      EmitWire(cfg, Dequeue(s), UpdateFor(s.queue[0]), written);
    }
  }

  lemma ReannounceWire(cfg: PeerConfig, s: State, e: Event)
    requires WireInv(cfg, s.conn, s.trace) && (e.ReannounceRoute? || e.ReannounceRule?)
    ensures var s' := Step(cfg, s, e); WireInv(cfg, s'.conn, s'.trace)
  {
    hide Guarded, Confirmed, Emit;
    match e
    case ReannounceRoute(p, written) =>
      if RouteDue(s, p) {
        EmitWire(cfg, s.(conn := s.conn.(routes := s.conn.routes - {p})), AnnounceOut(s.desired.active[p]), written);
      }
    case ReannounceRule(k, written) =>
      if RuleDue(s, k) {
        EmitWire(cfg, s.(conn := s.conn.(rules := s.conn.rules - {k})), FlowAnnounceOut(s.desired.flows[k]), written);
      }
  }

  lemma StepWire(cfg: PeerConfig, s: State, e: Event)
    requires WireInv(cfg, s.conn, s.trace)
    ensures var s' := Step(cfg, s, e); WireInv(cfg, s'.conn, s'.trace)
  {
    hide Guarded, Confirmed, WaitsAt, NextFrame, Apply, BackoffDelay;
    hide DoConnect, DoRead, DoTakeFrame, DoKeepaliveTimer, DoTakeCommand;
    hide DoReannounceRoute, DoReannounceRule, DoReannounceDone;
    match e
    case Connect(connected, written) => ConnectWire(cfg, s, connected, written);
    case TakeFrame(written) => TakeFrameWire(cfg, s, written);
    case ReannounceRoute(_, _) => ReannounceWire(cfg, s, e);
    case ReannounceRule(_, _) => ReannounceWire(cfg, s, e);
    case TakeCommand(written) => TakeCommandWire(cfg, s, written);
    case KeepaliveTimer(written) => KeepaliveWire(cfg, s, written);
    case HoldTimer(written) => GuardedLonger(cfg, s.trace, Write(NotificationOut(4, 0), written));
    case _ =>
  }

  lemma NothingToGuard(cfg: PeerConfig)
    ensures Guarded(cfg, [])
  {
  }

  lemma {:induction false} RunWire(cfg: PeerConfig, events: seq<Event>)
    ensures var s := Run(cfg, events); WireInv(cfg, s.conn, s.trace)
  {
    hide Step;
    if events == [] {
    } else {
      RunWire(cfg, events[..|events| - 1]);
      StepWire(cfg, Run(cfg, events[..|events| - 1]), events[|events| - 1]);
    }
  }

  /** The family an UPDATE's bytes name is the one it was gated on; nothing else names any. */
  lemma FamilyOnTheWire(m: OutMsg, c: Change)
    requires Changes(WireBytes(m)).Some? && c in Changes(WireBytes(m)).value
    ensures IsUpdate(m) && FamilyOf(c.dest) == SafiOf(m)
  {
    hide Changes, Matches, Trunc, Frame, AnnounceBody, WithdrawBody, FlowAnnounceBody, FlowWithdrawBody, OpenBody;
    match m
    case OpenOut(o) => NoChanges(OpenType.Code(), OpenBody(o));
    case KeepaliveOut => NoChanges(KeepaliveType.Code(), []);
    case NotificationOut(code, subcode) => NoChanges(NotificationType.Code(), [code, subcode] + []);
    case AnnounceOut(r) =>
      AnnounceReads(r);
      FamilyIsGate(Announce(r));
    case WithdrawOut(p) =>
      WithdrawReads(p);
      FamilyIsGate(Withdraw(p));
    case FlowAnnounceOut(rule) =>
      FlowAnnounceReads(rule);
      FamilyIsGate(AnnounceFlowSpec(rule));
    case FlowWithdrawOut(rule) =>
      FlowWithdrawReads(rule);
      FamilyIsGate(WithdrawFlowSpec(rule));
  }

  lemma NoChanges(ty: byte, body: seq<byte>)
    requires |body| <= 100 && ty != UpdateType.Code()
    ensures Changes(Frame(ty, body)).None?
  {
    hide ChangesOfBody, Frame;
    FrameParses(ty, body);
  }

  /**
   On every run, a route change goes on the wire only after our OPEN, the peer's acceptable OPEN, our
   KEEPALIVE and a KEEPALIVE or UPDATE from the peer, in a family that OPEN advertised or IPv4 unicast.
   */
  lemma NoUpdateBeforeHandshake(cfg: PeerConfig, events: seq<Event>, i: nat, c: Change)
    requires var tr := Run(cfg, events).trace;
             && i < |tr| && (tr[i].Sent? || tr[i].Failed?)
             && Changes(WireBytes(tr[i].m)).Some? && c in Changes(WireBytes(tr[i].m)).value
    ensures exists peer ::
              && Confirmed(cfg, Run(cfg, events).trace[..i], peer)
              && (AfiSafi(c.dest) == (1, 1) || Advertised(peer, AfiSafi(c.dest)))
  {
    hide Changes, WireBytes, Run, Confirmed;
    RunWire(cfg, events);
    var tr := Run(cfg, events).trace;
    FamilyOnTheWire(tr[i].m, c);
    assert GuardedAt(cfg, tr, i);
    var peer :| Confirmed(cfg, tr[..i], peer) && AnnounceAllowed(peer, SafiOf(tr[i].m));
    GateIsTakes(peer, c.dest);
  }

  /** What the peer advertised is what the capabilities in the octets of its OPEN offer. */
  lemma AdvertisedInTheOpen(body: seq<byte>, peer: OpenMsg)
    requires OpenOf(body) == Ok(peer)
    ensures exists ps, rest ::
              && SaysOpen(body, ps, rest, peer)
              && forall afi, safi :: afi in {1, 2} && safi in {1, 133} ==>
                                       (Advertised(peer, (afi, safi)) <==> Offers(AllCaps(ps), afi, safi))
  {
    hide OpenOf, SaysAsn, Offers, AllOctets;
    OpenDecodesExactly(body, peer);
    var ps, rest :| SaysOpen(body, ps, rest, peer);
    assert forall afi, safi :: afi in {1, 2} && safi in {1, 133} ==>
                                 (Advertised(peer, (afi, safi)) <==> Offers(AllCaps(ps), afi, safi));
  }

  /** The family of a change is the AFI and SAFI its octets carry, or IPv4 unicast where they carry none. */
  lemma FamilyInTheUpdate(bytes: seq<byte>, c: Change)
    requires Changes(bytes).Some? && c in Changes(bytes).value
    ensures AfiSafi(c.dest) == (1, 1) || AfiSafi(c.dest) in MpFamilies(bytes)
  {
    hide Attrs, Prefixes, PathOf, FlowNlri, AllFlagsRight;
    var body := bytes[19..];
    var w := De16(body[0..2]) as int;
    var a := De16(body[2 + w..4 + w]) as int;
    var attrs := Attrs(body[4 + w..4 + w + a]).value;
    PrefixFamilies(true, body[2..2 + w]);
    CombinedFamily(Prefixes(true, body[2..2 + w]), attrs, body[4 + w + a..], c);
  }

  lemma {:induction false} PrefixFamilies(v4: bool, b: seq<byte>)
    requires Prefixes(v4, b).Some?
    ensures forall i :: 0 <= i < |Prefixes(v4, b).value| ==> Prefixes(v4, b).value[i].addr.V4? == v4
  {
    if b == [] {
    } else {
      PrefixFamilies(v4, b[1 + OctetCount(b[0])..]);
    }
  }

  predicate IsFlowTo(dest: Option<Dest>, dst: IpNet) {
    dest.Some? ==> dest.value.Flow? && dest.value.dst == dst
  }

  lemma FlowParts(dst: IpNet, protocol: Option<byte>, b: seq<byte>)
    ensures IsFlowTo(PortPart(dst, protocol, b), dst) && IsFlowTo(ProtocolPart(dst, b), dst)
  {
    hide Equality;
  }

  lemma RebuildFamily(v4: bool, bits: nat, octets: seq<byte>)
    requires bits <= 8 * AddressLen(v4) && |octets| == OctetCount(bits)
    ensures Rebuild(v4, bits, octets).addr.V4? == v4
  {
  }

  lemma ComponentsFamily(v4: bool, b: seq<byte>)
    ensures Components(v4, b).Some? ==> Components(v4, b).value.Flow? && Components(v4, b).value.dst.addr.V4? == v4
  {
    hide OctetCount, ProtocolPart, Rebuild;
    var start := if v4 then 2 else 3;
    if Components(v4, b).Some? {
      var end := start + OctetCount(b[1]);
      RebuildFamily(v4, b[1], b[start..end]);
      FlowParts(Rebuild(v4, b[1], b[start..end]), None, b[end..]);
    }
  }

  lemma FlowFamily(v4: bool, b: seq<byte>)
    requires FlowNlri(v4, b).Some?
    ensures FlowNlri(v4, b).value.Flow? && FlowNlri(v4, b).value.dst.addr.V4? == v4
  {
    hide Components;
    ComponentsFamily(v4, b[1..]);
    if |b| >= 2 {
      ComponentsFamily(v4, b[2..]);
    }
  }

  /** The AFI and SAFI of an MP_REACH_NLRI or MP_UNREACH_NLRI value. */
  lemma ReachFamily(attrs: seq<Attr>, c: Change)
    requires MpReach(attrs).Some? && c in MpReach(attrs).value
    ensures Find(attrs, 14).Some? && |Find(attrs, 14).value| >= 3 && AfiSafi(c.dest) == MpFamily(Find(attrs, 14).value)
  {
    hide Find, Prefixes, PathOf, FlowNlri;
    var v := Find(attrs, 14).value;
    var nlri := v[5 + v[3] as int..];
    if v[2] == 1 {
      PrefixFamilies(false, nlri);
    } else {
      FlowFamily(De16(v[0..2]) == 1, nlri);
    }
  }

  lemma UnreachFamily(attrs: seq<Attr>, c: Change)
    requires MpUnreach(attrs).Some? && c in MpUnreach(attrs).value
    ensures Find(attrs, 15).Some? && |Find(attrs, 15).value| >= 3 && AfiSafi(c.dest) == MpFamily(Find(attrs, 15).value)
  {
    hide Find, Prefixes, FlowNlri;
    var v := Find(attrs, 15).value;
    if v[2] == 1 {
      PrefixFamilies(false, v[3..]);
    } else {
      FlowFamily(De16(v[0..2]) == 1, v[3..]);
    }
  }

  lemma ClassicFamily(attrs: seq<Attr>, nlri: seq<byte>, c: Change)
    requires ClassicReach(attrs, nlri).Some? && c in ClassicReach(attrs, nlri).value
    ensures AfiSafi(c.dest) == (1, 1)
  {
    hide Find, Prefixes, PathOf;
    PrefixFamilies(true, nlri);
  }

  lemma CombinedFamily(withdrawn: Option<seq<IpNet>>, attrs: seq<Attr>, nlri: seq<byte>, c: Change)
    requires Combine(withdrawn, Some(attrs), nlri).Some? && c in Combine(withdrawn, Some(attrs), nlri).value
    requires forall i :: 0 <= i < |withdrawn.value| ==> withdrawn.value[i].addr.V4?
    ensures AfiSafi(c.dest) == (1, 1) || AfiSafi(c.dest) in MpFamiliesOf(attrs)
  {
    hide MpReach, MpUnreach, ClassicReach, Find, AllFlagsRight;
    if c in MpUnreach(attrs).value {
      UnreachFamily(attrs, c);
    } else if c in MpReach(attrs).value {
      ReachFamily(attrs, c);
    } else if c in ClassicReach(attrs, nlri).value {
      ClassicFamily(attrs, nlri, c);
    }
  }

  // ---- Our own OPEN ----------------------------------------------------------------------------

  /** A configuration is valid exactly when a speaker so configured would accept this speaker's own OPEN. */
  lemma ValidMeansAcceptable(cfg: PeerConfig)
    ensures Validate(cfg).Ok? <==> cfg.localAsn == cfg.peerAsn && (cfg.holdTime == 0 || cfg.holdTime >= 3)
    ensures Validate(cfg).Ok? <==> OnMessage(cfg.peerAsn, OpenSent, Open(LocalOpen(cfg))).OpenConfirm?
    ensures NextFrame(WireBytes(OpenOut(LocalOpen(cfg)))).Complete?
            && NextFrame(WireBytes(OpenOut(LocalOpen(cfg)))).msg ==
               Open(OpenMsg(cfg.localAsn, cfg.holdTime, cfg.routerId, true, true, true, true))
  {
    OpenArrives(LocalOpen(cfg), []);
    assert OpenBytes(LocalOpen(cfg)) + [] == OpenBytes(LocalOpen(cfg));
  }

  /** Every message: the marker, its length, its type; a KEEPALIVE is no more, a NOTIFICATION two octets more. */
  lemma HeaderOnTheWire(m: OutMsg)
    ensures var b := WireBytes(m);
            && |b| >= 19 && (forall i :: 0 <= i < 16 ==> b[i] == 0xFF)
            && b[16] as int * 256 + b[17] == |b|
            && b[18] == (match m
                         case OpenOut(_) => 1
                         case NotificationOut(_, _) => 3
                         case KeepaliveOut => 4
                         case _ => 2)
            && (m.KeepaliveOut? ==> |b| == 19)
            && (m.NotificationOut? ==> b[19..] == [m.code, m.subcode])
  {
    hide AnnounceBody, WithdrawBody, FlowAnnounceBody, FlowWithdrawBody, OpenBody, Frame;
    match m
    case OpenOut(o) => FrameOctets(OpenType.Code(), OpenBody(o));
    case KeepaliveOut => FrameOctets(KeepaliveType.Code(), []);
    case NotificationOut(code, subcode) =>
      FrameOctets(NotificationType.Code(), [code, subcode] + []);
      assert [code, subcode] + [] == [code, subcode];
    case AnnounceOut(r) => FrameOctets(UpdateType.Code(), AnnounceBody(r));
    case WithdrawOut(p) => FrameOctets(UpdateType.Code(), WithdrawBody(p));
    case FlowAnnounceOut(rule) => FrameOctets(UpdateType.Code(), FlowAnnounceBody(rule));
    case FlowWithdrawOut(rule) => FrameOctets(UpdateType.Code(), FlowWithdrawBody(rule));
  }

  lemma FrameOctets(ty: byte, body: seq<byte>)
    requires 19 + |body| <= 65535
    ensures var b := Frame(ty, body);
            && |b| == 19 + |body| && (forall i :: 0 <= i < 16 ==> b[i] == 0xFF)
            && b[16] as int * 256 + b[17] == |b| && b[18] == ty && b[19..] == body
  {
    var b := Frame(ty, body);
    assert b[16..18] == Be16(19 + |body|);
    assert b[16] == Be16(19 + |body|)[0] && b[17] == Be16(19 + |body|)[1];
  }
}
