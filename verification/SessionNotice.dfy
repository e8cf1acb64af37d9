/** Every NOTIFICATION ends its connection and has the cause it names. */
module SessionNotice {
  import opened Message
  import opened Framing
  import opened Session
  import opened SessionTime
  import opened SessionWire

  predicate IsNotice(io: Io) {
    (io.Sent? || io.Failed?) && io.m.NotificationOut?
  }

  /** The shorter of the two hold times had passed, at `when`, since all that was heard from the confirmed peer. */
  ghost predicate RanOut(cfg: PeerConfig, tr: seq<Io>, peer: OpenMsg, when: nat) {
    && Confirmed(cfg, tr, peer) && cfg.holdTime != 0 && peer.holdTime != 0
    && forall k :: 0 <= k < |tr| && IsAlive(tr[k]) ==>
                     tr[k].at + cfg.holdTime as int <= when || tr[k].at + peer.holdTime as int <= when
  }

  /**
   Bad peer AS and unacceptable hold time answer the OPEN just received; the only other cause is the hold
   time run out at `when`, the instant of the NOTIFICATION.
   */
  ghost predicate Reasoned(cfg: PeerConfig, tr: seq<Io>, i: nat, when: nat)
    requires i < |tr| && IsNotice(tr[i])
  {
    var answersOpen := i > 0 && tr[i - 1].Got? && tr[i - 1].msg.Open?;
    match (tr[i].m.code, tr[i].m.subcode)
    case (2, 2) => answersOpen && tr[i - 1].msg.open.asn != cfg.peerAsn
    case (2, 6) => answersOpen && tr[i - 1].msg.open.asn == cfg.peerAsn && 1 <= tr[i - 1].msg.open.holdTime <= 2
    case (code, subcode) => code == 4 && subcode == 0 && exists peer :: RanOut(cfg, tr[..i], peer, when)
  }

  ghost predicate NoticeInv(cfg: PeerConfig, conn: Conn, tr: seq<Io>, when: nat) {
    forall i :: 0 <= i < |tr| && IsNotice(tr[i]) ==> i == |tr| - 1 && !InSession(conn) && Reasoned(cfg, tr, i, when)
  }

  predicate WroteNotice(s: State, s': State) {
    s'.trace != s.trace && s'.trace != [] && IsNotice(s'.trace[|s'.trace| - 1])
  }

  lemma NoticeMore(cfg: PeerConfig, conn: Conn, tr: seq<Io>, when: nat, io: Io, conn': Conn, when': nat)
    requires NoticeInv(cfg, conn, tr, when) && InSession(conn)
    requires IsNotice(io) ==> !InSession(conn') && Reasoned(cfg, tr + [io], |tr|, when')
    ensures NoticeInv(cfg, conn', tr + [io], when')
  {
    hide Reasoned;
    var tr' := tr + [io];
    assert forall i :: 0 <= i < |tr| ==> tr'[i] == tr[i];
  }

  lemma EmitNotice(cfg: PeerConfig, s: State, m: RawOut, written: bool, when: nat, when': nat)
    requires IsUpdate(m) && (s.conn.Reannouncing? || s.conn.Established?) && NoticeInv(cfg, s.conn, s.trace, when)
    ensures var s' := Emit(s, s.conn.peer, m, written);
            NoticeInv(cfg, s'.conn, s'.trace, if WroteNotice(s, s') then when' else when)
  {
    hide SafiOf, AnnounceAllowed, NoticeInv, Reasoned;
    NoticeAnywhere(cfg, s.conn, s.trace, when);
    if CanBuild(m) {
      NoticeMore(cfg, s.conn, s.trace, when, Io.Sent(m), s.conn, when);
      NoticeMore(cfg, s.conn, s.trace, when, Io.Failed(m), Draining, when);
    }
    hide CanBuild;
  }

  lemma TakeFrameNotice(cfg: PeerConfig, s: State, written: bool, when: nat)
    requires NoticeInv(cfg, s.conn, s.trace, when)
    ensures var s' := DoTakeFrame(cfg, s, written);
            NoticeInv(cfg, s'.conn, s'.trace, if WroteNotice(s, s') then s'.now else when)
  {
    hide NextFrame, HoldSecs, NoticeInv, RanOut, DoTakeFrame;
    var s' := DoTakeFrame(cfg, s, written);
    TakeFrameIs(cfg, s, written);
    NoticeAnywhere(cfg, s.conn, s.trace, when);
    if FrameDue(s) {
      var got, turn := Io.Got(NextFrame(s.buf).msg, s.now), TurnOf(cfg, s, NextFrame(s.buf).msg, written);
      var when' := if WroteNotice(s, s') then s'.now else when;
      NoticeMore(cfg, s.conn, s.trace, when, got, s.conn, when);
      NoticeMore(cfg, s.conn, s.trace, when, got, s'.conn, when');
      if turn.reply.Some? {
        NoticeMore(cfg, s.conn, s.trace + [got], when, turn.reply.value, s'.conn, when');
      }
    }
  }

  /** Leaving the session keeps the invariant. */
  lemma NoticeAnywhere(cfg: PeerConfig, conn: Conn, tr: seq<Io>, when: nat)
    requires NoticeInv(cfg, conn, tr, when)
    ensures forall conn' :: !InSession(conn') ==> NoticeInv(cfg, conn', tr, when)
  {
    hide Reasoned;
  }

  lemma SilentNotice(cfg: PeerConfig, s: State, s': State, when: nat)
    requires NoticeInv(cfg, s.conn, s.trace, when) && s'.trace == s.trace && (InSession(s'.conn) ==> InSession(s.conn))
    ensures NoticeInv(cfg, s'.conn, s'.trace, when)
  {
    hide Reasoned;
  }

  lemma HoldNotice(cfg: PeerConfig, s: State, written: bool, when: nat)
    requires NoticeInv(cfg, s.conn, s.trace, when) && HoldExpired(s)
    requires WireInv(cfg, s.conn, s.trace) && HoldInv(cfg, s.conn, s.trace, s.now)
    ensures NoticeInv(cfg, Draining, s.trace + [Write(NotificationOut(4, 0), written)], s.now)
  {
    hide Confirmed, Guarded, NoticeInv;
    var io := Write(NotificationOut(4, 0), written);
    assert (s.trace + [io])[..|s.trace|] == s.trace;
    HoldIsSmaller(cfg, s.conn.peer);
    assert RanOut(cfg, s.trace, s.conn.peer, s.now);
    NoticeMore(cfg, s.conn, s.trace, when, io, Draining, s.now);
  }

  lemma ReannounceNotice(cfg: PeerConfig, s: State, e: Event, when: nat)
    requires NoticeInv(cfg, s.conn, s.trace, when) && (e.ReannounceRoute? || e.ReannounceRule?)
    ensures var s' := Step(cfg, s, e); NoticeInv(cfg, s'.conn, s'.trace, if WroteNotice(s, s') then s'.now else when)
  {
    hide Emit, NoticeInv;
    var s' := Step(cfg, s, e);
    match e
    case ReannounceRoute(p, written) =>
      if RouteDue(s, p) {
        var s1 := s.(conn := s.conn.(routes := s.conn.routes - {p}));
        SilentNotice(cfg, s, s1, when);
        EmitNotice(cfg, s1, AnnounceOut(s.desired.active[p]), written, when, s'.now);
      }
    case ReannounceRule(k, written) =>
      if RuleDue(s, k) {
        var s1 := s.(conn := s.conn.(rules := s.conn.rules - {k}));
        SilentNotice(cfg, s, s1, when);
        EmitNotice(cfg, s1, FlowAnnounceOut(s.desired.flows[k]), written, when, s'.now);
      }
  }

  lemma TakeCommandNotice(cfg: PeerConfig, s: State, written: bool, when: nat)
    requires NoticeInv(cfg, s.conn, s.trace, when)
    ensures var s' := DoTakeCommand(s, written);
            NoticeInv(cfg, s'.conn, s'.trace, if WroteNotice(s, s') then s'.now else when)
  {
    hide NextFrame, Emit, Apply, NoticeInv, SafiOf, AnnounceAllowed, CanBuild;
    NoticeAnywhere(cfg, s.conn, s.trace, when);
    if CommandDue(s) {
      SilentNotice(cfg, s, Dequeue(s), when);
      EmitNotice(cfg, Dequeue(s), UpdateFor(s.queue[0]), written, when, DoTakeCommand(s, written).now);
    }
  }

  lemma KeepaliveNotice(cfg: PeerConfig, s: State, written: bool, when: nat)
    requires NoticeInv(cfg, s.conn, s.trace, when)
    ensures var s' := DoKeepaliveTimer(cfg, s, written);
            NoticeInv(cfg, s'.conn, s'.trace, if WroteNotice(s, s') then s'.now else when)
  {
    hide NoticeInv, HoldSecs;
    var s' := DoKeepaliveTimer(cfg, s, written);
    if s'.trace != s.trace {
      NoticeMore(cfg, s.conn, s.trace, when, Write(KeepaliveOut, written), s'.conn, when);
    }
  }

  lemma ConnectNotice(cfg: PeerConfig, s: State, connected: bool, written: bool, when: nat)
    requires NoticeInv(cfg, s.conn, s.trace, when)
    ensures var s' := DoConnect(cfg, s, connected, written);
            NoticeInv(cfg, s'.conn, s'.trace, if WroteNotice(s, s') then s'.now else when)
  {
    hide NoticeInv;
    FreshNotice(cfg, when);
  }

  lemma StepNotice(cfg: PeerConfig, s: State, e: Event, when: nat)
    requires NoticeInv(cfg, s.conn, s.trace, when)
    requires WireInv(cfg, s.conn, s.trace) && HoldInv(cfg, s.conn, s.trace, s.now)
    ensures var s' := Step(cfg, s, e); NoticeInv(cfg, s'.conn, s'.trace, if WroteNotice(s, s') then s'.now else when)
  {
    hide NextFrame, Apply, NoticeInv, WireInv, HoldInv, BackoffDelay;
    hide DoConnect, DoRead, DoTakeFrame, DoKeepaliveTimer, DoTakeCommand;
    hide DoReannounceRoute, DoReannounceRule, DoReannounceDone;
    match e
    case Connect(connected, written) => ConnectNotice(cfg, s, connected, written, when);
    case TakeFrame(written) => TakeFrameNotice(cfg, s, written, when);
    case ReannounceRoute(_, _) => ReannounceNotice(cfg, s, e, when);
    case ReannounceRule(_, _) => ReannounceNotice(cfg, s, e, when);
    case TakeCommand(written) => TakeCommandNotice(cfg, s, written, when);
    case KeepaliveTimer(written) => KeepaliveNotice(cfg, s, written, when);
    case HoldTimer(written) =>
      if HoldExpired(s) {
        HoldNotice(cfg, s, written, when);
      }
    case _ => SilentNotice(cfg, s, Step(cfg, s, e), when);
  }

  lemma FreshNotice(cfg: PeerConfig, when: nat)
    ensures forall conn :: NoticeInv(cfg, conn, [], when)
    ensures forall conn, o :: NoticeInv(cfg, conn, [Io.Sent(OpenOut(o))], when)
    ensures forall conn, o :: NoticeInv(cfg, conn, [Io.Failed(OpenOut(o))], when)
  {
  }

  /** On every run, a NOTIFICATION is the last thing written on a connection and names its cause. */
  lemma {:induction false} NotificationsNameTheirCause(cfg: PeerConfig, events: seq<Event>)
    ensures var s := Run(cfg, events); NoticeInv(cfg, s.conn, s.trace, LastAt(cfg, events, WroteNotice))
  {
    hide Step, WroteNotice, WireInv, HoldInv, NoticeInv;
    if events == [] {
      FreshNotice(cfg, 0);
    } else {
      var before := events[..|events| - 1];
      NotificationsNameTheirCause(cfg, before);
      RunWire(cfg, before);
      RunHold(cfg, before);
      StepNotice(cfg, Run(cfg, before), events[|events| - 1], LastAt(cfg, before, WroteNotice));
    }
  }

  // ---- What ends a connection -------------------------------------------------------------------------

  /** A NOTIFICATION from the peer, or a write that failed. */
  predicate IsFinal(io: Io) {
    io.Failed? || (io.Got? && io.msg.Notification?)
  }

  ghost predicate FinalInv(conn: Conn, tr: seq<Io>) {
    forall i :: 0 <= i < |tr| && IsFinal(tr[i]) ==> i == |tr| - 1 && !InSession(conn)
  }

  lemma FinalMore(conn: Conn, tr: seq<Io>, io: Io, conn': Conn)
    requires FinalInv(conn, tr) && InSession(conn) && (IsFinal(io) ==> !InSession(conn'))
    ensures FinalInv(conn', tr + [io])
  {
  }

  lemma TakeFrameFinal(cfg: PeerConfig, s: State, written: bool)
    requires FinalInv(s.conn, s.trace)
    ensures var s' := DoTakeFrame(cfg, s, written); FinalInv(s'.conn, s'.trace)
  {
    hide NextFrame, HoldSecs, DoTakeFrame, FinalInv;
    var s' := DoTakeFrame(cfg, s, written);
    TakeFrameIs(cfg, s, written);
    if FrameDue(s) {
      var got, turn := Io.Got(NextFrame(s.buf).msg, s.now), TurnOf(cfg, s, NextFrame(s.buf).msg, written);
      FinalMore(s.conn, s.trace, got, s'.conn);
      if turn.reply.Some? {
        FinalMore(s.conn, s.trace, got, s.conn);
        FinalMore(s.conn, s.trace + [got], turn.reply.value, s'.conn);
      }
    } else if s' != s {
      FinalLeave(s.conn, s.trace, s'.conn);
    }
  }

  lemma FinalLeave(conn: Conn, tr: seq<Io>, conn': Conn)
    requires FinalInv(conn, tr) && (InSession(conn') ==> InSession(conn))
    ensures FinalInv(conn', tr)
  {
  }

  lemma SendFinal(cfg: PeerConfig, s: State, e: Event)
    requires FinalInv(s.conn, s.trace) && IsSend(e)
    ensures var s' := Step(cfg, s, e); FinalInv(s'.conn, s'.trace)
  {
    hide Step, FinalInv;
    var s' := Step(cfg, s, e);
    SendIs(cfg, s, e);
    if io :| Sends(s, s', io) {
      FinalMore(s.conn, s.trace, io, s'.conn);
    } else {
      FinalLeave(s.conn, s.trace, s'.conn);
    }
  }

  lemma StepFinal(cfg: PeerConfig, s: State, e: Event)
    requires FinalInv(s.conn, s.trace)
    ensures var s' := Step(cfg, s, e); FinalInv(s'.conn, s'.trace)
  {
    hide NextFrame, Apply, HoldSecs, BackoffDelay, FinalInv, LocalOpen;
    hide DoRead, DoTakeFrame, DoReannounceRoute, DoReannounceRule, DoTakeCommand, DoReannounceDone;
    match e
    case Connect(_, _) =>
      NothingFinal(cfg);
    case TakeFrame(written) => TakeFrameFinal(cfg, s, written);
    case ReannounceRoute(_, _) => SendFinal(cfg, s, e);
    case ReannounceRule(_, _) => SendFinal(cfg, s, e);
    case TakeCommand(_) => SendFinal(cfg, s, e);
    case KeepaliveTimer(written) =>
      if Step(cfg, s, e) != s {
        FinalMore(s.conn, s.trace, Write(KeepaliveOut, written), Step(cfg, s, e).conn);
      }
    case HoldTimer(written) =>
      if s.conn.Established? {
        FinalMore(s.conn, s.trace, Write(NotificationOut(4, 0), written), Draining);
      }
    case _ => FinalLeave(s.conn, s.trace, Step(cfg, s, e).conn);
  }

  lemma NothingFinal(cfg: PeerConfig)
    ensures forall conn :: FinalInv(conn, []) && FinalInv(conn, [Io.Sent(OpenOut(LocalOpen(cfg)))])
    ensures FinalInv(Draining, [Io.Failed(OpenOut(LocalOpen(cfg)))])
  {
  }

  /** On every run, a NOTIFICATION from the peer or a failed write is the last thing on its connection, which it ends. */
  lemma {:induction false} FinalEnds(cfg: PeerConfig, events: seq<Event>)
    ensures var s := Run(cfg, events); FinalInv(s.conn, s.trace)
  {
    hide Step;
    if events == [] {
    } else {
      FinalEnds(cfg, events[..|events| - 1]);
      StepFinal(cfg, Run(cfg, events[..|events| - 1]), events[|events| - 1]);
    }
  }

  /** And on every run, a read that fails where the session reads ends it too. */
  lemma DeadReadEnds(cfg: PeerConfig, events: seq<Event>)
    requires Reading(Run(cfg, events))
    ensures Run(cfg, events + [ReadFails]).conn.Draining?
  {
    hide Run, Reading;
    RunMore(cfg, events, ReadFails);
  }
}
