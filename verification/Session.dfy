/**
 The BGP injection speaker as a step protocol: connect, OPEN, OpenConfirm, re-announce, Established,
 and on any failure drain the command queue, back off and start over.
 `Step` is one turn of the session task under one event of its environment; an event the session is not waiting
 for changes nothing.
 */
module Session {
  import opened Bytes
  import opened Wrappers
  import opened Net
  import opened Message
  import opened Framing
  import opened Reference
  import opened Update
  import opened FlowSpec
  import opened Rib

  // ---- Configuration and capability gate ------------------------------------------------

  datatype PeerConfig = PeerConfig(localAsn: u32, peerAsn: u32, routerId: u32, holdTime: u16)

  datatype PeerConfigError = NotIbgp(local: u32, peer: u32) | BadHoldTime(secs: u16)

  function Validate(cfg: PeerConfig): Result<(), PeerConfigError> {
    if cfg.localAsn != cfg.peerAsn then Err(NotIbgp(cfg.localAsn, cfg.peerAsn))
    else if cfg.holdTime == 1 || cfg.holdTime == 2 then Err(BadHoldTime(cfg.holdTime))
    else Ok(())
  }

  function LocalOpen(cfg: PeerConfig): OpenMsg {
    OpenMsg(cfg.localAsn, cfg.holdTime, cfg.routerId, true, true, true, true)
  }

  datatype AnnounceSafi = Ipv4Unicast | Ipv6Unicast | FlowSpecV4 | FlowSpecV6

  function ForRoute(prefix: IpNet): AnnounceSafi {
    if prefix.addr.V4? then Ipv4Unicast else Ipv6Unicast
  }

  function ForFlowSpec(dst: IpNet): AnnounceSafi {
    if dst.addr.V4? then FlowSpecV4 else FlowSpecV6
  }

  predicate AnnounceAllowed(peer: OpenMsg, safi: AnnounceSafi) {
    match safi
    case Ipv4Unicast => true
    case Ipv6Unicast => peer.ipv6Unicast
    case FlowSpecV4 => peer.flowspecV4
    case FlowSpecV6 => peer.flowspecV6
  }

  datatype SkipCounts = SkipCounts(flowspecV4: nat, flowspecV6: nat, ipv6Unicast: nat)

  function Record(c: SkipCounts, safi: AnnounceSafi): SkipCounts {
    match safi
    case FlowSpecV4 => c.(flowspecV4 := c.flowspecV4 + 1)
    case FlowSpecV6 => c.(flowspecV6 := c.flowspecV6 + 1)
    case Ipv6Unicast => c.(ipv6Unicast := c.ipv6Unicast + 1)
    case Ipv4Unicast => c
  }

  /** Seconds before the next attempt: `1 << failures`, at most 30. */
  function BackoffDelay(failures: u32): nat {
    if failures >= 5 then 30 else if failures == 4 then 16 else if failures == 3 then 8
    else if failures == 2 then 4 else if failures == 1 then 2 else 1
  }

  // ---- Commands and the desired state ------------------------------------------------------

  datatype Command =
    | Announce(route: Route)
    | Withdraw(prefix: IpNet)
    | AnnounceFlowSpec(rule: FlowSpecRule)
    | WithdrawFlowSpec(rule: FlowSpecRule)

  /** `active` and `active_flowspec`. */
  datatype Desired = Desired(active: map<IpNet, Route>, flows: map<seq<byte>, FlowSpecRule>)

  const NOTHING := Desired(map[], map[])

  /** What one command does to the desired state, whether it is taken live or drained while down. */
  function Apply(d: Desired, c: Command): Desired {
    match c
    case Announce(r) => d.(active := d.active[r.prefix := r])
    case Withdraw(p) => d.(active := d.active - {p})
    case AnnounceFlowSpec(rule) => d.(flows := d.flows[FlowNlriBytes(rule) := rule])
    case WithdrawFlowSpec(rule) => d.(flows := d.flows - {FlowNlriBytes(rule)})
  }

  function Replay(cs: seq<Command>): Desired {
    if cs == [] then NOTHING else Apply(Replay(cs[..|cs| - 1]), cs[|cs| - 1])
  }

  // ---- Messages written -----------------------------------------------------------------------

  datatype RawOut =
    | OpenOut(open: OpenMsg)
    | KeepaliveOut
    | NotificationOut(code: byte, subcode: byte)
    | AnnounceOut(route: Route)
    | WithdrawOut(prefix: IpNet)
    | FlowAnnounceOut(rule: FlowSpecRule)
    | FlowWithdrawOut(rule: FlowSpecRule)

  /** A message that can be built without panicking. */
  type OutMsg = m: RawOut | m.AnnounceOut? ==> Buildable(m.route) witness KeepaliveOut

  function WireBytes(m: OutMsg): seq<byte> {
    match m
    case OpenOut(o) => OpenBytes(o)
    case KeepaliveOut => KeepaliveBytes()
    case NotificationOut(code, subcode) => NotificationBytes(NotificationMsg(code, subcode, []))
    case AnnounceOut(r) => AnnounceBytes(r)
    case WithdrawOut(p) => WithdrawBytes(p)
    case FlowAnnounceOut(rule) => FlowAnnounceBytes(rule)
    case FlowWithdrawOut(rule) => FlowWithdrawBytes(rule)
  }

  predicate IsUpdate(m: RawOut) {
    m.AnnounceOut? || m.WithdrawOut? || m.FlowAnnounceOut? || m.FlowWithdrawOut?
  }

  function SafiOf(m: RawOut): AnnounceSafi
    requires IsUpdate(m)
  {
    match m
    case AnnounceOut(r) => ForRoute(r.prefix)
    case WithdrawOut(p) => ForRoute(p)
    case FlowAnnounceOut(rule) => ForFlowSpec(rule.dst)
    case FlowWithdrawOut(rule) => ForFlowSpec(rule.dst)
  }

  /** The UPDATE a command turns into. */
  function UpdateFor(c: Command): (m: RawOut)
    ensures IsUpdate(m)
  {
    match c
    case Announce(r) => AnnounceOut(r)
    case Withdraw(p) => WithdrawOut(p)
    case AnnounceFlowSpec(rule) => FlowAnnounceOut(rule)
    case WithdrawFlowSpec(rule) => FlowWithdrawOut(rule)
  }

  predicate CanBuild(m: RawOut) {
    m.AnnounceOut? ==> Buildable(m.route)
  }

  /** What passes over the connection, in order: written, failed to be written, taken off the stream. */
  datatype Io = Sent(m: OutMsg) | Failed(m: OutMsg) | Got(msg: BgpMessage, at: nat)

  function Write(m: OutMsg, written: bool): Io {
    if written then Io.Sent(m) else Io.Failed(m)
  }

  // ---- State -------------------------------------------------------------------------------------

  datatype Conn =
    | Connecting
    | AwaitOpen
    | AwaitConfirm(peer: OpenMsg, confirmBy: nat)
    | Reannouncing(peer: OpenMsg, routes: set<IpNet>, rules: set<seq<byte>>)
    | Established(peer: OpenMsg, keepaliveAt: Option<nat>, holdUntil: Option<nat>)
    | Draining
    | Sleeping(until: nat)
    | Exited
    | Panicked(held: seq<Command>)

  /**
   `consumed`, `trace` and `updates` are histories: the commands taken off the queue, the traffic of
   the latest connection, and every UPDATE whose write was attempted.
   */
  datatype State = State(
    conn: Conn, now: nat, buf: seq<byte>, queue: seq<Command>, closed: bool,
    desired: Desired, failures: u32, reconnects: nat, skips: SkipCounts,
    consumed: seq<Command>, trace: seq<Io>, updates: seq<OutMsg>)

  const INITIAL := State(Connecting, 0, [], [], false, NOTHING, 0, 0, SkipCounts(0, 0, 0), [], [], [])

  datatype Event =
    | Tick(secs: nat)
    | Enqueue(c: Command)
    | CloseChannel
    | Connect(connected: bool, written: bool)
    | Read(chunk: seq<byte>)
    | ReadFails
    | TakeFrame(written: bool)
    | ConfirmTimeout
    | ReannounceRoute(prefix: IpNet, written: bool)
    | ReannounceRule(key: seq<byte>, written: bool)
    | ReannounceDone
    | KeepaliveTimer(written: bool)
    | HoldTimer(written: bool)
    | TakeCommand(written: bool)
    | DrainOne
    | DrainDone
    | Wake

  predicate InSession(conn: Conn) {
    conn.AwaitOpen? || conn.AwaitConfirm? || conn.Reannouncing? || conn.Established?
  }

  /** The command a panic caught between the channel and the tables. */
  function Held(conn: Conn): seq<Command> {
    if conn.Panicked? then conn.held else []
  }

  /** Nothing happened to the commands. */
  predicate SameCommands(s: State, s': State) {
    && Held(s'.conn) == Held(s.conn) && s'.queue == s.queue && s'.closed == s.closed
    && s'.consumed == s.consumed && s'.desired == s.desired
  }

  /** Nothing was read off the stream, written, skipped or timed. */
  predicate SameTraffic(s: State, s': State) {
    s'.trace == s.trace && s'.now == s.now && s'.skips == s.skips && s'.updates == s.updates
  }

  // ---- Steps ----------------------------------------------------------------------------------------

  /** `SessionOutcome::Reconnect`: count the failure and go on to drain the queue. */
  function EndSession(s: State): State {
    s.(conn := Draining, reconnects := s.reconnects + 1,
       failures := if s.failures < U32_MAX then s.failures + 1 else U32_MAX)
  }

  function DoConnect(cfg: PeerConfig, s: State, connected: bool, written: bool): (s': State)
    ensures SameCommands(s, s')
  {
    if !s.conn.Connecting? then s
    else if !connected then EndSession(s.(trace := [], buf := []))
    else
      var open := OpenOut(LocalOpen(cfg));
      if written then s.(conn := AwaitOpen, trace := [Sent(open)], buf := [])
      else EndSession(s.(trace := [Failed(open)], buf := []))
  }

  /** Reads happen only when no complete frame is buffered. */
  predicate Reading(s: State) {
    (s.conn.AwaitOpen? || s.conn.AwaitConfirm? || s.conn.Established?) && NextFrame(s.buf).NeedMore?
  }

  function DoRead(s: State, chunk: seq<byte>): (s': State)
    ensures SameCommands(s, s') && SameTraffic(s, s')
    ensures if s'.conn == s.conn then s'.failures == s.failures && s'.reconnects == s.reconnects
            else InSession(s.conn) && s'.conn.Draining? && s'.failures > 0 && s'.buf == s.buf
  {
    if !Reading(s) || chunk == [] || (!s.conn.Established? && |chunk| > READ_CHUNK) then s
    else if |s.buf| + |chunk| > READ_BUF_LIMIT then EndSession(s)
    else s.(buf := s.buf + chunk)
  }

  function HoldSecs(cfg: PeerConfig, peer: OpenMsg): u16 {
    if cfg.holdTime <= peer.holdTime then cfg.holdTime else peer.holdTime
  }

  function After(now: nat, secs: nat, hold: nat): Option<nat> {
    if hold == 0 then None else Some(now + secs)
  }

  /** `hold / 3` seconds, at least one. */
  function KeepaliveSecs(hold: nat): nat {
    if hold / 3 == 0 then 1 else hold / 3
  }

  /** What a message makes of the connection, and the reply written, if any. */
  datatype Turn = Turn(conn: Conn, reply: Option<Io>)

  /** The handshake waits for an OPEN, OpenConfirm for a KEEPALIVE or UPDATE, and Established marks time by those. */
  function TurnOf(cfg: PeerConfig, s: State, msg: BgpMessage, written: bool): Turn
    requires s.conn.AwaitOpen? || s.conn.AwaitConfirm? || s.conn.Established?
  {
    match (s.conn, msg)
    case (_, Notification(_)) => Turn(Draining, None)
    case (AwaitOpen, Open(o)) =>
      if o.asn != cfg.peerAsn then Turn(Draining, Some(Write(NotificationOut(2, 2), written)))
      else if o.holdTime == 1 || o.holdTime == 2 then Turn(Draining, Some(Write(NotificationOut(2, 6), written)))
      else
        var hold := HoldSecs(cfg, o);
        var limit := s.now + if hold == 0 then 240 else hold;
        Turn(if written then AwaitConfirm(o, limit) else Draining, Some(Write(KeepaliveOut, written)))
    case (AwaitConfirm(o, _), Keepalive) => Turn(Reannouncing(o, s.desired.active.Keys, s.desired.flows.Keys), None)
    case (AwaitConfirm(o, _), Update) => Turn(Reannouncing(o, s.desired.active.Keys, s.desired.flows.Keys), None)
    case (Established(o, _, _), Keepalive) =>
      Turn(s.conn.(holdUntil := After(s.now, HoldSecs(cfg, o), HoldSecs(cfg, o))), None)
    case (Established(o, _, _), Update) =>
      Turn(s.conn.(holdUntil := After(s.now, HoldSecs(cfg, o), HoldSecs(cfg, o))), None)
    case _ => Turn(s.conn, None)
  }

  function Log(tr: seq<Io>, reply: Option<Io>): seq<Io> {
    if reply.Some? then tr + [reply.value] else tr
  }

  function DoTakeFrame(cfg: PeerConfig, s: State, written: bool): (s': State)
    ensures SameCommands(s, s')
  {
    if !(s.conn.AwaitOpen? || s.conn.AwaitConfirm? || s.conn.Established?) then s
    else
      match NextFrame(s.buf)
      case NeedMore => s
      case Bad(_) => EndSession(s)
      case Complete(msg, len) =>
        var turn := TurnOf(cfg, s, msg, written);
        var s1 := s.(buf := s.buf[len..], trace := Log(s.trace + [Got(msg, s.now)], turn.reply));
        if turn.conn.Draining? then EndSession(s1)
        else s1.(conn := turn.conn, failures := if turn.conn.Reannouncing? then 0 else s.failures)
  }

  /** A frame is there to be taken. */
  predicate FrameDue(s: State) {
    (s.conn.AwaitOpen? || s.conn.AwaitConfirm? || s.conn.Established?) && NextFrame(s.buf).Complete?
  }

  /** Taking a frame: the connection, traffic and time afterwards; without one nothing, or the end of the session. */
  lemma TakeFrameIs(cfg: PeerConfig, s: State, written: bool)
    ensures var s' := DoTakeFrame(cfg, s, written);
            && s'.now == s.now && s'.skips == s.skips && s'.updates == s.updates
            && if FrameDue(s) then
                 var turn := TurnOf(cfg, s, NextFrame(s.buf).msg, written);
                 && s'.conn == turn.conn && s'.buf == s.buf[NextFrame(s.buf).len..]
                 && s'.trace == Log(s.trace + [Got(NextFrame(s.buf).msg, s.now)], turn.reply)
               else
                 && s'.trace == s.trace && s'.buf == s.buf
                 && (s' == s || (InSession(s.conn) && NextFrame(s.buf).Bad? && s'.conn.Draining?))
    ensures var s' := DoTakeFrame(cfg, s, written);
            if s'.conn.Draining? && !s.conn.Draining? then
              s'.failures == EndSession(s).failures && s'.reconnects == s.reconnects + 1
            else
              && s'.failures == (if s'.conn.Reannouncing? && !s.conn.Reannouncing? then 0 else s.failures)
              && s'.reconnects == s.reconnects
  {
    hide NextFrame, TurnOf, Log;
  }

  /** The gate, then the write, shared by re-announcement and live commands. */
  function Emit(s: State, peer: OpenMsg, m: RawOut, written: bool): (s': State)
    requires IsUpdate(m) && InSession(s.conn)
    ensures SameCommands(s, s')
  {
    if !AnnounceAllowed(peer, SafiOf(m)) then s.(skips := Record(s.skips, SafiOf(m)))
    else if !CanBuild(m) then s.(conn := Panicked([]))
    else if written then s.(trace := s.trace + [Io.Sent(m)], updates := s.updates + [m])
    else EndSession(s.(trace := s.trace + [Io.Failed(m)], updates := s.updates + [m]))
  }

  predicate RouteDue(s: State, p: IpNet) {
    s.conn.Reannouncing? && p in s.conn.routes && p in s.desired.active
  }

  predicate RuleDue(s: State, k: seq<byte>) {
    s.conn.Reannouncing? && s.conn.routes == {} && k in s.conn.rules && k in s.desired.flows
  }

  function DoReannounceRoute(s: State, p: IpNet, written: bool): (s': State)
    ensures SameCommands(s, s')
  {
    if !RouteDue(s, p) then s
    else Emit(s.(conn := s.conn.(routes := s.conn.routes - {p})), s.conn.peer,
              AnnounceOut(s.desired.active[p]), written)
  }

  function DoReannounceRule(s: State, k: seq<byte>, written: bool): (s': State)
    ensures SameCommands(s, s')
  {
    if !RuleDue(s, k) then s
    else Emit(s.(conn := s.conn.(rules := s.conn.rules - {k})), s.conn.peer,
              FlowAnnounceOut(s.desired.flows[k]), written)
  }

  function DoReannounceDone(cfg: PeerConfig, s: State): (s': State)
    ensures SameCommands(s, s') && SameTraffic(s, s') && s'.buf == s.buf
    ensures s'.failures == s.failures && s'.reconnects == s.reconnects
    ensures s'.conn == s.conn || (s.conn.Reannouncing? && s'.conn.Established? && s'.conn.peer == s.conn.peer)
  {
    if !(s.conn.Reannouncing? && s.conn.routes == {} && s.conn.rules == {}) then s
    else
      var hold := HoldSecs(cfg, s.conn.peer);
      s.(conn := Established(s.conn.peer, After(s.now, KeepaliveSecs(hold), hold), After(s.now, hold, hold)))
  }

  function DoKeepaliveTimer(cfg: PeerConfig, s: State, written: bool): (s': State)
    ensures SameCommands(s, s')
  {
    if !(s.conn.Established? && s.conn.keepaliveAt.Some? && s.now >= s.conn.keepaliveAt.value) then s
    else if !written then EndSession(s.(trace := s.trace + [Io.Failed(KeepaliveOut)]))
    else
      var hold := HoldSecs(cfg, s.conn.peer);
      s.(conn := s.conn.(keepaliveAt := After(s.now, KeepaliveSecs(hold), hold)),
         trace := s.trace + [Io.Sent(KeepaliveOut)])
  }

  predicate HoldExpired(s: State) {
    s.conn.Established? && s.conn.holdUntil.Some? && s.now >= s.conn.holdUntil.value
  }

  predicate CommandDue(s: State) {
    s.conn.Established? && NextFrame(s.buf).NeedMore? && s.queue != []
  }

  function Dequeue(s: State): State
    requires s.queue != []
  {
    s.(queue := s.queue[1..], consumed := s.consumed + [s.queue[0]], desired := Apply(s.desired, s.queue[0]))
  }

  function DoTakeCommand(s: State, written: bool): State {
    if CommandDue(s) then
      var m := UpdateFor(s.queue[0]);
      if AnnounceAllowed(s.conn.peer, SafiOf(m)) && !CanBuild(m) then
        s.(conn := Panicked([s.queue[0]]), queue := s.queue[1..])
      else Emit(Dequeue(s), s.conn.peer, m, written)
    else if s.conn.Established? && NextFrame(s.buf).NeedMore? && s.closed then s.(conn := Exited)
    else s
  }

  function Step(cfg: PeerConfig, s: State, e: Event): State {
    match e
    case Tick(secs) => s.(now := s.now + secs)
    case Enqueue(c) => if s.closed then s else s.(queue := s.queue + [c])
    case CloseChannel => s.(closed := true)
    case Connect(connected, written) => DoConnect(cfg, s, connected, written)
    case Read(chunk) => DoRead(s, chunk)
    case ReadFails => if Reading(s) then EndSession(s) else s
    case TakeFrame(written) => DoTakeFrame(cfg, s, written)
    case ConfirmTimeout => if s.conn.AwaitConfirm? && s.now >= s.conn.confirmBy then EndSession(s) else s
    case ReannounceRoute(p, written) => DoReannounceRoute(s, p, written)
    case ReannounceRule(k, written) => DoReannounceRule(s, k, written)
    case ReannounceDone => DoReannounceDone(cfg, s)
    case KeepaliveTimer(written) => DoKeepaliveTimer(cfg, s, written)
    case HoldTimer(written) =>
      if HoldExpired(s) then EndSession(s.(trace := s.trace + [Write(NotificationOut(4, 0), written)])) else s
    case TakeCommand(written) => DoTakeCommand(s, written)
    case DrainOne => if s.conn.Draining? && s.queue != [] then Dequeue(s) else s
    case DrainDone =>
      if s.conn.Draining? && s.queue == [] then s.(conn := Sleeping(s.now + BackoffDelay(s.failures))) else s
    case Wake => if s.conn.Sleeping? && s.now >= s.conn.until then s.(conn := Connecting) else s
  }

  /** The events that may pass the gate and write an UPDATE. */
  predicate IsSend(e: Event) {
    e.ReannounceRoute? || e.ReannounceRule? || e.TakeCommand?
  }

  /** The same loop with the same peer. */
  predicate SameLoop(conn: Conn, conn': Conn) {
    conn' == conn || (conn.Reannouncing? && conn'.Reannouncing? && conn'.peer == conn.peer)
  }

  /** An UPDATE written leaves the loop where it was; one that fails ends the session. */
  predicate Sends(s: State, s': State, io: Io) {
    && (s.conn.Reannouncing? || s.conn.Established?) && s'.trace == s.trace + [io]
    && match io
       case Sent(m) =>
         IsUpdate(m) && SameLoop(s.conn, s'.conn) && s'.failures == s.failures && s'.reconnects == s.reconnects
       case Failed(m) =>
         && IsUpdate(m) && s'.conn.Draining?
         && s'.failures == EndSession(s).failures && s'.reconnects == s.reconnects + 1
       case Got(_, _) => false
  }

  /** Nothing written: the loop goes on, or the task ends. */
  predicate SendsNothing(s: State, s': State) {
    && s'.trace == s.trace && s'.failures == s.failures && s'.reconnects == s.reconnects
    && (SameLoop(s.conn, s'.conn) || s'.conn.Exited? || s'.conn.Panicked?)
  }

  lemma EmitSends(s: State, s1: State, m: RawOut, written: bool)
    requires IsUpdate(m) && (s1.conn.Reannouncing? || s1.conn.Established?) && SameLoop(s.conn, s1.conn)
    requires s1.trace == s.trace && s1.now == s.now && s1.buf == s.buf
    requires s1.failures == s.failures && s1.reconnects == s.reconnects
    ensures var s' := Emit(s1, s1.conn.peer, m, written);
            s'.now == s.now && s'.buf == s.buf && (SendsNothing(s, s') || exists io :: Sends(s, s', io))
  {
    hide SafiOf, AnnounceAllowed;
    if CanBuild(m) {
      var s' := Emit(s1, s1.conn.peer, m, written);
      assert s'.trace != s.trace ==> Sends(s, s', Write(m, written));
    }
  }

  /** Such an event does nothing to traffic and loop but end them, or writes one UPDATE. */
  lemma SendIs(cfg: PeerConfig, s: State, e: Event)
    requires IsSend(e)
    ensures var s' := Step(cfg, s, e);
            s'.now == s.now && s'.buf == s.buf && (SendsNothing(s, s') || exists io :: Sends(s, s', io))
  {
    hide NextFrame, Apply, Emit, SafiOf, AnnounceAllowed, CanBuild, Sends;
    match e
    case ReannounceRoute(p, written) =>
      if RouteDue(s, p) {
        EmitSends(s, s.(conn := s.conn.(routes := s.conn.routes - {p})), AnnounceOut(s.desired.active[p]), written);
      }
    case ReannounceRule(k, written) =>
      if RuleDue(s, k) {
        EmitSends(s, s.(conn := s.conn.(rules := s.conn.rules - {k})), FlowAnnounceOut(s.desired.flows[k]), written);
      }
    case TakeCommand(written) =>
      if CommandDue(s) {
        EmitSends(s, Dequeue(s), UpdateFor(s.queue[0]), written);
      }
  }

  function Run(cfg: PeerConfig, events: seq<Event>): State {
    if events == [] then INITIAL else Step(cfg, Run(cfg, events[..|events| - 1]), events[|events| - 1])
  }

  /** The commands the environment managed to send. */
  function Accepted(events: seq<Event>): seq<Command> {
    if events == [] then []
    else
      var e := events[|events| - 1];
      Accepted(events[..|events| - 1]) +
      if e.Enqueue? && CloseChannel !in events[..|events| - 1] then [e.c] else []
  }

  // ---- What the peer makes of the bytes ---------------------------------------------------------------

  function ApplyChanges(t: Table, cs: seq<Change>): Table {
    if cs == [] then t
    else
      var t1 := ApplyChanges(t, cs[..|cs| - 1]);
      match cs[|cs| - 1]
      case Reach(dest, path) => t1[dest := path]
      case Unreach(dest) => t1 - {dest}
  }

  /** A message other than a well-formed UPDATE changes nothing; a malformed one costs the session its routes. */
  function PeerApply(t: Table, bytes: seq<byte>): Table {
    match Changes(bytes)
    case Some(cs) => ApplyChanges(t, cs)
    case None =>
      match DecodeMessage(bytes)
      case Ok((Update, _)) => map[]
      case Ok(_) => t
      case Err(_) => map[]
  }

  function WireTable(trace: seq<Io>): Table {
    if trace == [] then map[]
    else
      var t := WireTable(trace[..|trace| - 1]);
      match trace[|trace| - 1]
      case Sent(m) => PeerApply(t, WireBytes(m))
      case _ => t
  }

  /** The peer's table: what the bytes of this session built up; no session, no routes (section 8.2.2 of RFC 4271). */
  function PeerTable(s: State): Table {
    if InSession(s.conn) then WireTable(s.trace) else map[]
  }
}
