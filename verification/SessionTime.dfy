/** The hold timer, the retry delay, and how long each wait lasts. */
module SessionTime {
  import opened Arithmetic
  import opened Bytes
  import opened Wrappers
  import opened Message
  import opened Framing
  import opened Session
  import opened SessionWire

  // ---- The hold timer ---------------------------------------------------------------------------

  ghost predicate HeardBy(tr: seq<Io>, now: nat) {
    forall i :: 0 <= i < |tr| && tr[i].Got? ==> tr[i].at <= now
  }

  ghost predicate AliveBefore(tr: seq<Io>, hold: nat, limit: nat) {
    forall i :: 0 <= i < |tr| && IsAlive(tr[i]) ==> tr[i].at + hold <= limit
  }

  lemma HeardMore(tr: seq<Io>, io: Io, now: nat)
    requires HeardBy(tr, now) && (io.Got? ==> io.at <= now)
    ensures HeardBy(tr + [io], now)
  {
  }

  lemma AliveMore(tr: seq<Io>, io: Io, hold: nat, limit: nat)
    requires AliveBefore(tr, hold, limit) && !IsAlive(io)
    ensures AliveBefore(tr + [io], hold, limit)
  {
  }

  lemma AliveFromHeard(tr: seq<Io>, now: nat, hold: nat)
    requires HeardBy(tr, now)
    ensures AliveBefore(tr, hold, now + hold)
  {
  }

  lemma HeardLater(tr: seq<Io>, now: nat, later: nat)
    requires HeardBy(tr, now) && now <= later
    ensures HeardBy(tr, later)
  {
  }

  /** Everything heard came by now, and early enough not to outlast the hold deadline. */
  ghost predicate HoldInv(cfg: PeerConfig, conn: Conn, tr: seq<Io>, now: nat) {
    && HeardBy(tr, now)
    && (conn.AwaitConfirm? || conn.Reannouncing? || conn.Established? ==>
          conn.peer.holdTime != 1 && conn.peer.holdTime != 2)
    && (conn.Established? ==> conn.holdUntil.Some? == (HoldSecs(cfg, conn.peer) != 0))
    && (conn.Established? && conn.holdUntil.Some? ==>
          AliveBefore(tr, HoldSecs(cfg, conn.peer), conn.holdUntil.value))
  }

  /** One more message of ours, in a session or as it ends. */
  lemma WriteHold(cfg: PeerConfig, conn: Conn, tr: seq<Io>, now: nat, io: Io)
    requires HoldInv(cfg, conn, tr, now) && !io.Got?
    ensures HoldInv(cfg, conn, tr + [io], now)
    ensures HeardBy(tr + [io], now)
  {
    hide HeardBy, AliveBefore;
    HeardMore(tr, io, now);
    if conn.Established? && conn.holdUntil.Some? {
      AliveMore(tr, io, HoldSecs(cfg, conn.peer), conn.holdUntil.value);
    }
  }

  lemma SendHold(cfg: PeerConfig, s: State, e: Event)
    requires HoldInv(cfg, s.conn, s.trace, s.now) && IsSend(e)
    ensures var s' := Step(cfg, s, e); HoldInv(cfg, s'.conn, s'.trace, s'.now)
  {
    hide Step, HeardBy, AliveBefore, HoldSecs;
    SendIs(cfg, s, e);
    if io :| Sends(s, Step(cfg, s, e), io) {
      WriteHold(cfg, s.conn, s.trace, s.now, io);
    }
  }

  lemma KeepaliveHold(cfg: PeerConfig, s: State, written: bool)
    requires HoldInv(cfg, s.conn, s.trace, s.now)
    ensures var s' := DoKeepaliveTimer(cfg, s, written); HoldInv(cfg, s'.conn, s'.trace, s'.now)
  {
    hide HeardBy, AliveBefore, HoldSecs;
    WriteHold(cfg, s.conn, s.trace, s.now, Write(KeepaliveOut, written));
  }

  lemma ConnectHold(cfg: PeerConfig, s: State, connected: bool, written: bool)
    requires HoldInv(cfg, s.conn, s.trace, s.now)
    ensures var s' := DoConnect(cfg, s, connected, written); HoldInv(cfg, s'.conn, s'.trace, s'.now)
  {
    hide HeardBy, AliveBefore, HoldSecs;
    NothingHeard(cfg, s.now);
  }

  lemma DoneHold(cfg: PeerConfig, s: State)
    requires HoldInv(cfg, s.conn, s.trace, s.now)
    ensures var s' := DoReannounceDone(cfg, s); HoldInv(cfg, s'.conn, s'.trace, s'.now)
  {
    hide HeardBy, AliveBefore, HoldSecs;
    if s.conn.Reannouncing? {
      AliveFromHeard(s.trace, s.now, HoldSecs(cfg, s.conn.peer));
    }
  }

  lemma StepHold(cfg: PeerConfig, s: State, e: Event)
    requires HoldInv(cfg, s.conn, s.trace, s.now)
    ensures var s' := Step(cfg, s, e); HoldInv(cfg, s'.conn, s'.trace, s'.now)
  {
    hide NextFrame, Apply, HeardBy, AliveBefore, HoldSecs, BackoffDelay;
    hide DoConnect, DoRead, DoTakeFrame, DoKeepaliveTimer, DoTakeCommand;
    hide DoReannounceRoute, DoReannounceRule, DoReannounceDone;
    match e
    case Tick(secs) => HeardLater(s.trace, s.now, s.now + secs);
    case Connect(connected, written) => ConnectHold(cfg, s, connected, written);
    case TakeFrame(written) => TakeFrameHold(cfg, s, written);
    case ReannounceRoute(_, _) => SendHold(cfg, s, e);
    case ReannounceRule(_, _) => SendHold(cfg, s, e);
    case TakeCommand(_) => SendHold(cfg, s, e);
    case KeepaliveTimer(written) => KeepaliveHold(cfg, s, written);
    case HoldTimer(written) => WriteHold(cfg, s.conn, s.trace, s.now, Write(NotificationOut(4, 0), written));
    case ReannounceDone => DoneHold(cfg, s);
    case _ =>
  }

  lemma NothingHeard(cfg: PeerConfig, now: nat)
    ensures HeardBy([], now) && HeardBy([Io.Sent(OpenOut(LocalOpen(cfg)))], now)
    ensures HeardBy([Io.Failed(OpenOut(LocalOpen(cfg)))], now)
  {
  }

  lemma TakeFrameHold(cfg: PeerConfig, s: State, written: bool)
    requires HoldInv(cfg, s.conn, s.trace, s.now)
    ensures var s' := DoTakeFrame(cfg, s, written); HoldInv(cfg, s'.conn, s'.trace, s'.now)
  {
    hide NextFrame, HeardBy, AliveBefore, HoldSecs, DoTakeFrame;
    TakeFrameIs(cfg, s, written);
    if FrameDue(s) {
      var got, turn := Io.Got(NextFrame(s.buf).msg, s.now), TurnOf(cfg, s, NextFrame(s.buf).msg, written);
      HeardMore(s.trace, got, s.now);
      if turn.reply.Some? {
        HeardMore(s.trace + [got], turn.reply.value, s.now);
      }
      if s.conn.Established? && IsAlive(got) {
        AliveFromHeard(s.trace + [got], s.now, HoldSecs(cfg, s.conn.peer));
      } else if s.conn.Established? && s.conn.holdUntil.Some? {
        AliveMore(s.trace, got, HoldSecs(cfg, s.conn.peer), s.conn.holdUntil.value);
      }
    }
  }

  lemma {:induction false} RunHold(cfg: PeerConfig, events: seq<Event>)
    ensures var s := Run(cfg, events); HoldInv(cfg, s.conn, s.trace, s.now)
  {
    hide Step;
    if events == [] {
    } else {
      RunHold(cfg, events[..|events| - 1]);
      StepHold(cfg, Run(cfg, events[..|events| - 1]), events[|events| - 1]);
    }
  }

  /** The negotiated hold time is the smaller of the two. */
  lemma HoldIsSmaller(cfg: PeerConfig, peer: OpenMsg)
    ensures HoldSecs(cfg, peer) <= cfg.holdTime && HoldSecs(cfg, peer) <= peer.holdTime
    ensures HoldSecs(cfg, peer) == cfg.holdTime || HoldSecs(cfg, peer) == peer.holdTime
  {
  }

  /** Three KEEPALIVE periods fit the hold time, and a longer period would not. */
  lemma PeriodIsThird(hold: nat)
    ensures var k := KeepaliveSecs(hold);
            k >= 1 && (hold >= 3 ==> 3 * k <= hold < 3 * (k + 1)) && (hold < 3 ==> k == 1)
  {
  }

  /**
   The hold timer ends a session only when both sides asked for a hold time, of at least three seconds, and the
   shorter one has passed since every KEEPALIVE and UPDATE of the peer.
   */
  lemma HoldExpiryMeansSilence(cfg: PeerConfig, events: seq<Event>)
    requires Validate(cfg).Ok? && HoldExpired(Run(cfg, events))
    ensures var s := Run(cfg, events);
            var ours, theirs := cfg.holdTime as int, s.conn.peer.holdTime as int;
            && ours >= 3 && theirs >= 3
            && forall i :: 0 <= i < |s.trace| && IsAlive(s.trace[i]) ==>
                             s.trace[i].at + ours <= s.now || s.trace[i].at + theirs <= s.now
  {
    hide Run, HoldSecs;
    RunHold(cfg, events);
    HoldIsSmaller(cfg, Run(cfg, events).conn.peer);
  }

  // ---- What the deadlines are ---------------------------------------------------------------------

  /** The instant of the last step of a run that `mark` picks out. */
  function LastAt(cfg: PeerConfig, events: seq<Event>, mark: (State, State) -> bool): nat {
    if events == [] then 0
    else
      var before := events[..|events| - 1];
      if mark(Run(cfg, before), Run(cfg, events)) then Run(cfg, events).now else LastAt(cfg, before, mark)
  }

  predicate Appends(s: State, s': State) {
    |s'.trace| == |s.trace| + 1
  }

  /** The established loop starts, or a KEEPALIVE is written in it. */
  predicate KeptAlive(s: State, s': State) {
    && s'.conn.Established?
    && (!s.conn.Established? || (Appends(s, s') && s'.trace[|s.trace|] == Io.Sent(KeepaliveOut)))
  }

  /** The established loop starts, or a KEEPALIVE or UPDATE is taken in it. */
  predicate Heard(s: State, s': State) {
    s'.conn.Established? && (!s.conn.Established? || (Appends(s, s') && IsAlive(s'.trace[|s.trace|])))
  }

  predicate FellAsleep(s: State, s': State) {
    s'.conn.Sleeping? && !s.conn.Sleeping?
  }

  /** How long OpenConfirm may last. */
  function ConfirmSecs(cfg: PeerConfig, peer: OpenMsg): nat {
    if cfg.holdTime == 0 || peer.holdTime == 0 then 240
    else if cfg.holdTime < peer.holdTime then cfg.holdTime else peer.holdTime
  }

  /** `limit` counts from the receipt of the accepted OPEN. */
  ghost predicate OpenLimit(cfg: PeerConfig, tr: seq<Io>, peer: OpenMsg, limit: nat) {
    exists j: nat :: OpenedAt(cfg, tr, peer, j) && limit == tr[j].at + ConfirmSecs(cfg, peer)
  }

  ghost predicate OpenInv(cfg: PeerConfig, s: State) {
    s.conn.AwaitConfirm? ==> OpenLimit(cfg, s.trace, s.conn.peer, s.conn.confirmBy)
  }

  lemma OpenLimitLonger(cfg: PeerConfig, tr: seq<Io>, io: Io, peer: OpenMsg, limit: nat)
    requires OpenLimit(cfg, tr, peer, limit)
    ensures OpenLimit(cfg, tr + [io], peer, limit)
  {
    var j: nat :| OpenedAt(cfg, tr, peer, j) && limit == tr[j].at + ConfirmSecs(cfg, peer);
    assert OpenedAt(cfg, tr + [io], peer, j) && (tr + [io])[j] == tr[j];
  }

  lemma TakeFrameOpen(cfg: PeerConfig, s: State, written: bool)
    requires WireInv(cfg, s.conn, s.trace) && OpenInv(cfg, s)
    ensures OpenInv(cfg, DoTakeFrame(cfg, s, written))
  {
    hide NextFrame, Guarded, Confirmed, DoTakeFrame;
    var s' := DoTakeFrame(cfg, s, written);
    TakeFrameIs(cfg, s, written);
    if s'.conn.AwaitConfirm? && FrameDue(s) {
      var got := Got(NextFrame(s.buf).msg, s.now);
      if s.conn.AwaitOpen? {
        assert OpenedAt(cfg, s'.trace, s'.conn.peer, |s.trace|);
      } else {
        OpenLimitLonger(cfg, s.trace, got, s.conn.peer, s.conn.confirmBy);
      }
    }
  }

  /** Only a frame begins the wait for confirmation, and only a frame adds to the trace during it. */
  lemma ElsewhereOpen(cfg: PeerConfig, s: State, e: Event)
    requires !e.TakeFrame? && Step(cfg, s, e).conn.AwaitConfirm?
    ensures Step(cfg, s, e).conn == s.conn && Step(cfg, s, e).trace == s.trace
  {
    hide NextFrame, Apply, HoldSecs, BackoffDelay, DoReannounceRoute, DoReannounceRule, DoTakeCommand, DoRead;
    if IsSend(e) {
      SendIs(cfg, s, e);
    }
  }

  lemma StepOpen(cfg: PeerConfig, s: State, e: Event)
    requires WireInv(cfg, s.conn, s.trace) && OpenInv(cfg, s)
    ensures OpenInv(cfg, Step(cfg, s, e))
  {
    hide Step, DoTakeFrame, WireInv, OpenLimit;
    if e.TakeFrame? {
      TakingIs(cfg, s, e.written);
      TakeFrameOpen(cfg, s, e.written);
    } else if Step(cfg, s, e).conn.AwaitConfirm? {
      ElsewhereOpen(cfg, s, e);
    }
  }

  lemma TakingIs(cfg: PeerConfig, s: State, written: bool)
    ensures Step(cfg, s, TakeFrame(written)) == DoTakeFrame(cfg, s, written)
  {
  }

  lemma {:induction false} RunOpen(cfg: PeerConfig, events: seq<Event>)
    ensures OpenInv(cfg, Run(cfg, events))
  {
    hide Step, OpenLimit, WireInv;
    if events == [] {
    } else {
      RunOpen(cfg, events[..|events| - 1]);
      RunWire(cfg, events[..|events| - 1]);
      StepOpen(cfg, Run(cfg, events[..|events| - 1]), events[|events| - 1]);
    }
  }

  /** The timers of the established loop and of the sleep count from the instants named. */
  predicate Timed(cfg: PeerConfig, s: State, kept: nat, heard: nat, slept: nat) {
    match s.conn
    case Established(peer, keepaliveAt, holdUntil) =>
      var hold := HoldSecs(cfg, peer);
      keepaliveAt == After(kept, KeepaliveSecs(hold), hold) && holdUntil == After(heard, hold, hold)
    case Sleeping(until) => until == slept + BackoffDelay(s.failures)
    case _ => true
  }

  /** The same after a step, its own instants taken into account. */
  predicate StaysTimed(cfg: PeerConfig, s: State, s': State, kept: nat, heard: nat, slept: nat) {
    Timed(cfg, s', if KeptAlive(s, s') then s'.now else kept, if Heard(s, s') then s'.now else heard,
          if FellAsleep(s, s') then s'.now else slept)
  }

  lemma StepTimed(cfg: PeerConfig, s: State, e: Event, kept: nat, heard: nat, slept: nat)
    requires Timed(cfg, s, kept, heard, slept)
    ensures StaysTimed(cfg, s, Step(cfg, s, e), kept, heard, slept)
  {
    hide NextFrame, Apply, HoldSecs, BackoffDelay, KeepaliveSecs, After;
    hide DoConnect, DoRead, DoTakeFrame, DoKeepaliveTimer, DoTakeCommand;
    hide DoReannounceRoute, DoReannounceRule, DoReannounceDone;
    match e
    case Connect(connected, written) => ConnectTimed(cfg, s, connected, written, kept, heard, slept);
    case TakeFrame(written) => TakeFrameTimed(cfg, s, written, kept, heard, slept);
    case ReannounceRoute(_, _) => SendTimed(cfg, s, e, kept, heard, slept);
    case ReannounceRule(_, _) => SendTimed(cfg, s, e, kept, heard, slept);
    case TakeCommand(_) => SendTimed(cfg, s, e, kept, heard, slept);
    case ReannounceDone => DoneTimed(cfg, s, kept, heard, slept);
    case KeepaliveTimer(written) => KeepaliveTimed(cfg, s, written, kept, heard, slept);
    case _ =>
  }

  lemma ConnectTimed(cfg: PeerConfig, s: State, connected: bool, written: bool, kept: nat, heard: nat, slept: nat)
    requires Timed(cfg, s, kept, heard, slept)
    ensures StaysTimed(cfg, s, DoConnect(cfg, s, connected, written), kept, heard, slept)
  {
    hide HoldSecs, LocalOpen;
  }

  lemma TakeFrameTimed(cfg: PeerConfig, s: State, written: bool, kept: nat, heard: nat, slept: nat)
    requires Timed(cfg, s, kept, heard, slept)
    ensures StaysTimed(cfg, s, DoTakeFrame(cfg, s, written), kept, heard, slept)
  {
    hide NextFrame, HoldSecs, DoTakeFrame, BackoffDelay, KeepaliveSecs;
    TakeFrameIs(cfg, s, written);
  }

  lemma SendTimed(cfg: PeerConfig, s: State, e: Event, kept: nat, heard: nat, slept: nat)
    requires Timed(cfg, s, kept, heard, slept) && IsSend(e)
    ensures StaysTimed(cfg, s, Step(cfg, s, e), kept, heard, slept)
  {
    hide Step, HoldSecs, BackoffDelay, KeepaliveSecs;
    SendIs(cfg, s, e);
  }

  lemma DoneTimed(cfg: PeerConfig, s: State, kept: nat, heard: nat, slept: nat)
    requires Timed(cfg, s, kept, heard, slept)
    ensures StaysTimed(cfg, s, DoReannounceDone(cfg, s), kept, heard, slept)
  {
    hide HoldSecs, BackoffDelay, KeepaliveSecs;
  }

  lemma KeepaliveTimed(cfg: PeerConfig, s: State, written: bool, kept: nat, heard: nat, slept: nat)
    requires Timed(cfg, s, kept, heard, slept)
    ensures StaysTimed(cfg, s, DoKeepaliveTimer(cfg, s, written), kept, heard, slept)
  {
    hide HoldSecs, BackoffDelay, KeepaliveSecs;
  }

  lemma {:induction false} RunCounts(cfg: PeerConfig, events: seq<Event>)
    ensures Timed(cfg, Run(cfg, events), LastAt(cfg, events, KeptAlive), LastAt(cfg, events, Heard),
                  LastAt(cfg, events, FellAsleep))
  {
    hide Step, Timed, KeptAlive, Heard, FellAsleep;
    if events == [] {
      AtRest(cfg);
    } else {
      var before := events[..|events| - 1];
      RunCounts(cfg, before);
      StepTimed(cfg, Run(cfg, before), events[|events| - 1],
                LastAt(cfg, before, KeptAlive), LastAt(cfg, before, Heard), LastAt(cfg, before, FellAsleep));
    }
  }

  lemma AtRest(cfg: PeerConfig)
    ensures Timed(cfg, INITIAL, 0, 0, 0)
  {
  }

  function Smaller(x: nat, y: nat): nat {
    if x < y then x else y
  }

  /**
   No deadlines when either side asked for none. Otherwise silence is over the shorter hold time after `heard`,
   and the next KEEPALIVE is due a third of that, rounded down but at least a second, after `kept`.
   */
  predicate CountFrom(ours: nat, theirs: nat, keepaliveAt: Option<nat>, holdUntil: Option<nat>, kept: nat, heard: nat) {
    if ours == 0 || theirs == 0 then keepaliveAt.None? && holdUntil.None?
    else
      && keepaliveAt.Some? && holdUntil == Some(heard + Smaller(ours, theirs))
      && var period := keepaliveAt.value - kept;
         if Smaller(ours, theirs) < 3 then period == 1
         else 3 * period <= Smaller(ours, theirs) < 3 * (period + 1)
  }

  /** On every run, what the deadlines of the established loop count from, and for how long. */
  lemma RunTimed(cfg: PeerConfig, events: seq<Event>)
    ensures var conn := Run(cfg, events).conn;
            conn.Established? ==>
              CountFrom(cfg.holdTime, conn.peer.holdTime, conn.keepaliveAt, conn.holdUntil,
                        LastAt(cfg, events, KeptAlive), LastAt(cfg, events, Heard))
  {
    hide Run, LastAt, HoldSecs, KeepaliveSecs;
    RunCounts(cfg, events);
    var conn := Run(cfg, events).conn;
    if conn.Established? {
      HoldIsSmaller(cfg, conn.peer);
      PeriodIsThird(HoldSecs(cfg, conn.peer));
    }
  }

  // ---- How long the waits last when timers fire when due ---------------------------------------------

  /** No deadline of the state has been overrun. */
  predicate InTime(conn: Conn, now: nat) {
    match conn
    case AwaitConfirm(_, limit) => now <= limit
    case Established(_, keepaliveAt, holdUntil) =>
      (keepaliveAt.Some? ==> now <= keepaliveAt.value) && (holdUntil.Some? ==> now <= holdUntil.value)
    case Sleeping(until) => now <= until
    case _ => true
  }

  predicate MayFollow(cfg: PeerConfig, before: seq<Event>, e: Event) {
    e.Tick? ==> InTime(Run(cfg, before).conn, Run(cfg, before).now + e.secs)
  }

  /** A prompt run: time does not pass a deadline before the timer's own step has been taken. */
  ghost predicate Prompt(cfg: PeerConfig, events: seq<Event>) {
    forall i :: 0 <= i < |events| ==> MayFollow(cfg, events[..i], events[i])
  }

  lemma TakeFrameInTime(cfg: PeerConfig, s: State, written: bool)
    requires InTime(s.conn, s.now)
    ensures var s' := DoTakeFrame(cfg, s, written); InTime(s'.conn, s'.now)
  {
    hide NextFrame, HoldSecs, DoTakeFrame;
    TakeFrameIs(cfg, s, written);
  }

  lemma SendInTime(cfg: PeerConfig, s: State, e: Event)
    requires InTime(s.conn, s.now) && IsSend(e)
    ensures var s' := Step(cfg, s, e); InTime(s'.conn, s'.now)
  {
    hide Step;
    SendIs(cfg, s, e);
  }

  lemma StepInTime(cfg: PeerConfig, s: State, e: Event)
    requires InTime(s.conn, s.now) && (e.Tick? ==> InTime(s.conn, s.now + e.secs))
    ensures var s' := Step(cfg, s, e); InTime(s'.conn, s'.now)
  {
    hide NextFrame, Apply, HoldSecs, BackoffDelay, KeepaliveSecs;
    hide DoRead, DoTakeFrame, DoReannounceRoute, DoReannounceRule, DoTakeCommand;
    match e
    case TakeFrame(written) => TakeFrameInTime(cfg, s, written);
    case ReannounceRoute(_, _) => SendInTime(cfg, s, e);
    case ReannounceRule(_, _) => SendInTime(cfg, s, e);
    case TakeCommand(_) => SendInTime(cfg, s, e);
    case _ =>
  }

  lemma PromptBefore(cfg: PeerConfig, before: seq<Event>, e: Event)
    ensures Prompt(cfg, before + [e]) <==> Prompt(cfg, before) && MayFollow(cfg, before, e)
  {
    hide MayFollow;
    var events := before + [e];
    assert events[..|before|] == before;
    forall i | 0 <= i < |before|
      ensures events[..i] == before[..i] && events[i] == before[i]
    {
    }
    if Prompt(cfg, events) {
      forall i | 0 <= i < |before|
        ensures MayFollow(cfg, before[..i], before[i])
      {
        assert MayFollow(cfg, events[..i], events[i]);
      }
      assert MayFollow(cfg, events[..|before|], events[|before|]);
    }
  }

  lemma {:induction false} PromptIsInTime(cfg: PeerConfig, events: seq<Event>)
    requires Prompt(cfg, events)
    ensures var s := Run(cfg, events); InTime(s.conn, s.now)
  {
    hide Step, InTime;
    if events == [] {
      NothingDue();
    } else {
      var n := |events| - 1;
      assert events[..n] + [events[n]] == events;
      PromptBefore(cfg, events[..n], events[n]);
      PromptIsInTime(cfg, events[..n]);
      StepInTime(cfg, Run(cfg, events[..n]), events[n]);
    }
  }

  lemma NothingDue()
    ensures InTime(INITIAL.conn, INITIAL.now)
  {
  }

  /**
   On every prompt run: OpenConfirm has lasted no longer since the accepted OPEN than the shorter hold time (240 s
   without one); in the established loop the peer was heard within either hold time, and three times the span
   since a KEEPALIVE was written, or the loop started, fits either; and a sleep has lasted at most min(2^k, 30) s.
   */
  lemma WaitsAreBounded(cfg: PeerConfig, events: seq<Event>)
    requires Prompt(cfg, events)
    ensures var s := Run(cfg, events);
            match s.conn
            case AwaitConfirm(peer, _) =>
              exists j: nat :: OpenedAt(cfg, s.trace, peer, j) && s.now <= s.trace[j].at + ConfirmSecs(cfg, peer)
            case Established(peer, _, _) =>
              var ours, theirs := cfg.holdTime, peer.holdTime;
              ours > 0 && theirs > 0 ==>
                var heard, kept := LastAt(cfg, events, Heard), LastAt(cfg, events, KeptAlive);
                && s.now <= heard + ours as int && s.now <= heard + theirs as int
                && (ours >= 3 ==> 3 * (s.now - kept) <= ours && 3 * (s.now - kept) <= theirs)
            case Sleeping(_) => s.now <= LastAt(cfg, events, FellAsleep) + DelayAfter(FailuresIn(cfg, events))
            case _ => true
  {
    hide Run, LastAt, OpenedAt, DelayAfter, FailuresIn;
    PromptIsInTime(cfg, events);
    RunOpen(cfg, events);
    RunTimed(cfg, events);
    RunHold(cfg, events);
    if Run(cfg, events).conn.Sleeping? {
      BackoffDoubles(cfg, events);
    }
  }

  // ---- Waits that end, and one that need not ------------------------------------------------------------

  lemma RunMore(cfg: PeerConfig, events: seq<Event>, e: Event)
    ensures Run(cfg, events + [e]) == Step(cfg, Run(cfg, events), e)
  {
    hide Step;
    assert (events + [e])[..|events|] == events;
  }

  lemma PromptMore(cfg: PeerConfig, events: seq<Event>, e: Event)
    requires Prompt(cfg, events) && MayFollow(cfg, events, e)
    ensures Prompt(cfg, events + [e]) && Run(cfg, events + [e]) == Step(cfg, Run(cfg, events), e)
  {
    hide Run, Step, MayFollow, Prompt;
    RunMore(cfg, events, e);
    PromptBefore(cfg, events, e);
  }

  /** The event that ends a wait with a deadline, and the deadline. */
  function EndOf(conn: Conn): (Event, nat)
    requires conn.AwaitConfirm? || conn.Sleeping?
  {
    if conn.AwaitConfirm? then (ConfirmTimeout, conn.confirmBy) else (Wake, conn.until)
  }

  /** Every prompt run in OpenConfirm or asleep has a prompt continuation that leaves it, at the deadline. */
  lemma TimedWaitsEnd(cfg: PeerConfig, events: seq<Event>)
    requires Prompt(cfg, events) && (Run(cfg, events).conn.AwaitConfirm? || Run(cfg, events).conn.Sleeping?)
    ensures var s := Run(cfg, events);
            var (end, limit) := EndOf(s.conn);
            && s.now <= limit
            && var all := events + [Tick(limit - s.now)] + [end];
               && Prompt(cfg, all) && Run(cfg, all).now == limit
               && if s.conn.AwaitConfirm? then Run(cfg, all).conn.Draining? else Run(cfg, all).conn.Connecting?
  {
    hide Run, Prompt;
    PromptIsInTime(cfg, events);
    var s := Run(cfg, events);
    var (end, limit) := EndOf(s.conn);
    PromptMore(cfg, events, Tick(limit - s.now));
    PromptMore(cfg, events + [Tick(limit - s.now)], end);
  }

  /** The seconds from the next KEEPALIVE to the hold deadline. */
  function SlackOf(conn: Conn): nat
    requires conn.Established? && conn.holdUntil.Some?
  {
    if conn.keepaliveAt.Some? && conn.keepaliveAt.value < conn.holdUntil.value
    then conn.holdUntil.value - conn.keepaliveAt.value else 0
  }

  predicate IsTimer(e: Event) {
    e.Tick? || e.KeepaliveTimer? || e.HoldTimer?
  }

  /** A run that ends its session at `limit`, with the hold-timer NOTIFICATION as its last message. */
  ghost predicate EndsAt(cfg: PeerConfig, events: seq<Event>, limit: nat) {
    var s := Run(cfg, events);
    && Prompt(cfg, events) && s.conn.Draining? && s.now == limit
    && |s.trace| > 0 && s.trace[|s.trace| - 1] == Io.Sent(NotificationOut(4, 0))
  }

  lemma HoldFires(cfg: PeerConfig, events: seq<Event>)
    requires Prompt(cfg, events) && Run(cfg, events).conn.Established? && Run(cfg, events).conn.holdUntil.Some?
    requires SlackOf(Run(cfg, events).conn) == 0
    ensures var s := Run(cfg, events);
            && s.now <= s.conn.holdUntil.value
            && EndsAt(cfg, events + [Tick(s.conn.holdUntil.value - s.now)] + [HoldTimer(true)], s.conn.holdUntil.value)
  {
    hide Run, Prompt;
    PromptIsInTime(cfg, events);
    var s := Run(cfg, events);
    var wait := Tick(s.conn.holdUntil.value - s.now);
    PromptMore(cfg, events, wait);
    PromptMore(cfg, events + [wait], HoldTimer(true));
  }

  /** The KEEPALIVE due before the hold deadline goes out in time, and leaves less time to the next. */
  lemma KeepaliveFires(cfg: PeerConfig, events: seq<Event>)
    requires Prompt(cfg, events) && Run(cfg, events).conn.Established? && Run(cfg, events).conn.holdUntil.Some?
    requires SlackOf(Run(cfg, events).conn) > 0
    ensures var s := Run(cfg, events);
            && s.now <= s.conn.keepaliveAt.value
            && var all := events + [Tick(s.conn.keepaliveAt.value - s.now)] + [KeepaliveTimer(true)];
               var s' := Run(cfg, all);
               && Prompt(cfg, all) && s'.conn.Established? && s'.conn.holdUntil == s.conn.holdUntil
               && SlackOf(s'.conn) < SlackOf(s.conn)
  {
    hide Run, Prompt, HoldSecs;
    PromptIsInTime(cfg, events);
    var s := Run(cfg, events);
    var wait := Tick(s.conn.keepaliveAt.value - s.now);
    PromptMore(cfg, events, wait);
    PromptMore(cfg, events + [wait], KeepaliveTimer(true));
  }

  /** Every prompt run in the established loop, if the peer then falls silent, ends its session at the hold deadline. */
  lemma {:induction false} SilenceEndsSession(cfg: PeerConfig, events: seq<Event>) returns (more: seq<Event>)
    requires Prompt(cfg, events) && Run(cfg, events).conn.Established? && Run(cfg, events).conn.holdUntil.Some?
    ensures forall i :: 0 <= i < |more| ==> IsTimer(more[i])
    ensures EndsAt(cfg, events + more, Run(cfg, events).conn.holdUntil.value)
    decreases SlackOf(Run(cfg, events).conn)
  {
    hide Run, Prompt, EndsAt;
    var conn, now := Run(cfg, events).conn, Run(cfg, events).now;
    if SlackOf(conn) == 0 {
      HoldFires(cfg, events);
      more := [Tick(conn.holdUntil.value - now), HoldTimer(true)];
      assert events + more == events + [more[0]] + [more[1]];
    } else {
      KeepaliveFires(cfg, events);
      var turn := [Tick(conn.keepaliveAt.value - now), KeepaliveTimer(true)];
      var rest := SilenceEndsSession(cfg, events + [turn[0]] + [turn[1]]);
      more := turn + rest;
      assert events + more == events + [turn[0]] + [turn[1]] + rest;
    }
  }

  predicate OpenWentOut(s: State, s': State) {
    s'.conn.AwaitOpen? && !s.conn.AwaitOpen?
  }

  predicate OfTheStream(e: Event) {
    e.Read? || e.ReadFails? || e.TakeFrame?
  }

  lemma OpenWaitStep(cfg: PeerConfig, s: State, e: Event)
    requires s.conn.AwaitOpen? && !OfTheStream(e)
    ensures Step(cfg, s, e).conn.AwaitOpen?
  {
    hide NextFrame;
  }

  /** The wait for the peer's OPEN has no timer: whatever else happens, only the stream ends it. */
  lemma {:induction false} OpenWaitHasNoDeadline(cfg: PeerConfig, events: seq<Event>, more: seq<Event>)
    requires Run(cfg, events).conn.AwaitOpen? && forall i :: 0 <= i < |more| ==> !OfTheStream(more[i])
    ensures Run(cfg, events + more).conn.AwaitOpen?
  {
    hide Run, Step, OfTheStream;
    if more == [] {
      assert events + more == events;
    } else {
      var n := |more| - 1;
      OpenWaitHasNoDeadline(cfg, events, more[..n]);
      RunMore(cfg, events + more[..n], more[n]);
      OpenWaitStep(cfg, Run(cfg, events + more[..n]), more[n]);
      assert events + more == events + more[..n] + [more[n]];
    }
  }

  /** One connection made, our OPEN gone out. */
  lemma JustOpened(cfg: PeerConfig)
    ensures var s := Run(cfg, [Connect(true, true)]);
            s.conn.AwaitOpen? && s.now == 0 && LastAt(cfg, [Connect(true, true)], OpenWentOut) == 0
  {
    hide LocalOpen;
    assert [Connect(true, true)][..0] == [];
  }

  lemma LastAtMore(cfg: PeerConfig, events: seq<Event>, e: Event)
    requires !OpenWentOut(Run(cfg, events), Step(cfg, Run(cfg, events), e))
    ensures LastAt(cfg, events + [e], OpenWentOut) == LastAt(cfg, events, OpenWentOut)
  {
    hide Step, OpenWentOut, Run;
    RunMore(cfg, events, e);
    assert (events + [e])[..|events|] == events;
  }

  /** So for every n some prompt run still stands in it n seconds after our OPEN went out. */
  lemma OpenWaitIsUnbounded(cfg: PeerConfig, n: nat) returns (events: seq<Event>)
    ensures Prompt(cfg, events) && Run(cfg, events).conn.AwaitOpen?
    ensures Run(cfg, events).now == LastAt(cfg, events, OpenWentOut) + n
  {
    hide Run, Prompt, LastAt, DoConnect;
    var start := [Connect(true, true)];
    NothingPrompt(cfg);
    PromptMore(cfg, [], start[0]);
    assert [] + [start[0]] == start;
    JustOpened(cfg);
    PromptMore(cfg, start, Tick(n));
    LastAtMore(cfg, start, Tick(n));
    events := start + [Tick(n)];
  }

  lemma NothingPrompt(cfg: PeerConfig)
    ensures Prompt(cfg, [])
  {
  }

  // ---- The delay before a retry --------------------------------------------------------------------------

  /** The attempts ended since the peer last confirmed one. */
  function FailuresIn(cfg: PeerConfig, events: seq<Event>): nat {
    if events == [] then 0
    else
      var before := events[..|events| - 1];
      FailuresAfter(Run(cfg, before), Run(cfg, events), FailuresIn(cfg, before))
  }

  function FailuresAfter(s: State, s': State, n: nat): nat {
    if s'.conn.Reannouncing? && !s.conn.Reannouncing? then 0
    else if s'.conn.Draining? && !s.conn.Draining? then n + 1
    else n
  }

  /** The attempts ended in all. */
  function EndedIn(cfg: PeerConfig, events: seq<Event>): nat {
    if events == [] then 0
    else
      var before := events[..|events| - 1];
      EndedAfter(Run(cfg, before), Run(cfg, events), EndedIn(cfg, before))
  }

  function EndedAfter(s: State, s': State, n: nat): nat {
    if s'.conn.Draining? && !s.conn.Draining? then n + 1 else n
  }

  function Counted(n: nat): u32 {
    if n <= 0xFFFF_FFFF then n else 0xFFFF_FFFF
  }

  ghost predicate FailInv(s: State, n: nat, all: nat) {
    s.failures == Counted(n) && s.reconnects == all && (s.conn.Draining? || s.conn.Sleeping? ==> n > 0)
  }

  lemma TakeFrameFails(cfg: PeerConfig, s: State, written: bool, n: nat, all: nat)
    requires FailInv(s, n, all)
    ensures var s' := DoTakeFrame(cfg, s, written); FailInv(s', FailuresAfter(s, s', n), EndedAfter(s, s', all))
  {
    hide NextFrame, HoldSecs, DoTakeFrame;
    TakeFrameIs(cfg, s, written);
  }

  lemma SendFails(cfg: PeerConfig, s: State, e: Event, n: nat, all: nat)
    requires FailInv(s, n, all) && IsSend(e)
    ensures var s' := Step(cfg, s, e); FailInv(s', FailuresAfter(s, s', n), EndedAfter(s, s', all))
  {
    hide Step;
    SendIs(cfg, s, e);
  }

  lemma StepFails(cfg: PeerConfig, s: State, e: Event, n: nat, all: nat)
    requires FailInv(s, n, all)
    ensures var s' := Step(cfg, s, e); FailInv(s', FailuresAfter(s, s', n), EndedAfter(s, s', all))
  {
    hide NextFrame, Apply, HoldSecs, BackoffDelay, KeepaliveSecs;
    hide DoTakeFrame, DoReannounceRoute, DoReannounceRule, DoReannounceDone, DoTakeCommand;
    match e
    case TakeFrame(written) => TakeFrameFails(cfg, s, written, n, all);
    case ReannounceRoute(_, _) => SendFails(cfg, s, e, n, all);
    case ReannounceRule(_, _) => SendFails(cfg, s, e, n, all);
    case TakeCommand(_) => SendFails(cfg, s, e, n, all);
    case _ =>
  }

  lemma {:induction false} RunFails(cfg: PeerConfig, events: seq<Event>)
    ensures FailInv(Run(cfg, events), FailuresIn(cfg, events), EndedIn(cfg, events))
  {
    hide Step, FailuresAfter, EndedAfter;
    if events == [] {
    } else {
      var before := events[..|events| - 1];
      RunFails(cfg, before);
      StepFails(cfg, Run(cfg, before), events[|events| - 1], FailuresIn(cfg, before), EndedIn(cfg, before));
    }
  }

  /** min(2^k, 30). */
  function DelayAfter(k: nat): nat {
    if Pow2(k) < 30 then Pow2(k) else 30
  }

  lemma {:induction false} Pow2Grows(k: nat)
    requires k >= 5
    ensures Pow2(k) >= 32
  {
    if k == 5 {
      assert Pow2(1) == 2 && Pow2(2) == 4 && Pow2(3) == 8 && Pow2(4) == 16;
    } else {
      Pow2Grows(k - 1);
    }
  }

  lemma DelayIsPower(k: nat)
    ensures BackoffDelay(Counted(k)) == DelayAfter(k)
  {
    if k >= 5 {
      Pow2Grows(k);
    } else {
      assert Pow2(0) == 1 && Pow2(1) == 2 && Pow2(2) == 4 && Pow2(3) == 8 && Pow2(4) == 16;
    }
  }

  /**
   On every run, the sleep after the k-th attempt ended since the last confirmed one lasts min(2^k, 30)
   seconds. As k is never 0 there, the one-second delay never occurs.
   */
  lemma BackoffDoubles(cfg: PeerConfig, events: seq<Event>)
    requires Run(cfg, events).conn.Sleeping?
    ensures var k := FailuresIn(cfg, events);
            k > 0 && Run(cfg, events).conn.until == LastAt(cfg, events, FellAsleep) + DelayAfter(k)
  {
    hide Run, FailuresIn, LastAt, BackoffDelay, Pow2;
    RunFails(cfg, events);
    RunCounts(cfg, events);
    DelayIsPower(FailuresIn(cfg, events));
  }

  // ---- No timer is early ----------------------------------------------------------------------------------

  /** On every run, a retry comes no sooner than min(2^k, 30) seconds after the task fell asleep. */
  lemma RetriesAreNotEarly(cfg: PeerConfig, events: seq<Event>, e: Event)
    requires Run(cfg, events).conn.Sleeping? && !Run(cfg, events + [e]).conn.Sleeping?
    ensures Run(cfg, events).now >= LastAt(cfg, events, FellAsleep) + DelayAfter(FailuresIn(cfg, events))
  {
    hide Run, LastAt, FailuresIn, DelayAfter, Step;
    RunMore(cfg, events, e);
    BackoffDoubles(cfg, events);
    if Run(cfg, events).now < Run(cfg, events).conn.until {
      StaysAsleep(cfg, Run(cfg, events), e);
    }
  }

  lemma StaysAsleep(cfg: PeerConfig, s: State, e: Event)
    requires s.conn.Sleeping? && s.now < s.conn.until
    ensures Step(cfg, s, e).conn == s.conn
  {
    hide NextFrame, Apply, HoldSecs;
  }

  /** On every run, OpenConfirm times out no sooner than its bound after the accepted OPEN was received. */
  lemma ConfirmIsNotEarly(cfg: PeerConfig, events: seq<Event>)
    requires Run(cfg, events).conn.AwaitConfirm? && !Run(cfg, events + [ConfirmTimeout]).conn.AwaitConfirm?
    ensures var s := Run(cfg, events);
            exists j: nat ::
              OpenedAt(cfg, s.trace, s.conn.peer, j) && s.now >= s.trace[j].at + ConfirmSecs(cfg, s.conn.peer)
  {
    hide Run, OpenedAt, ConfirmSecs;
    RunMore(cfg, events, ConfirmTimeout);
    RunOpen(cfg, events);
  }

  /** On every run, a KEEPALIVE of the established loop comes no sooner than the period after the one before. */
  lemma KeepaliveIsNotEarly(cfg: PeerConfig, events: seq<Event>, written: bool)
    requires Run(cfg, events + [KeepaliveTimer(written)]).trace != Run(cfg, events).trace
    ensures var s := Run(cfg, events);
            && s.conn.Established? && cfg.holdTime > 0 && s.conn.peer.holdTime > 0
            && var span := s.now - LastAt(cfg, events, KeptAlive);
               span >= 1 && 3 * (span + 1) > Smaller(cfg.holdTime, s.conn.peer.holdTime)
  {
    hide Run, LastAt, HoldSecs, KeepaliveSecs;
    RunMore(cfg, events, KeepaliveTimer(written));
    RunTimed(cfg, events);
  }
}
