/** What a session has read depends on the octets that arrived, not on how they were cut or when they were framed. */
module SessionStream {
  import opened Bytes
  import opened Wrappers
  import opened Message
  import opened Framing
  import opened Session
  import opened SessionTable

  /** The messages taken off the stream, in order. */
  function Gots(tr: seq<Io>): seq<BgpMessage> {
    if tr == [] then []
    else Gots(tr[..|tr| - 1]) + if tr[|tr| - 1].Got? then [tr[|tr| - 1].msg] else []
  }

  /** The octets read on the present connection, all reads joined. */
  function InputOf(cfg: PeerConfig, events: seq<Event>): seq<byte> {
    if events == [] then []
    else
      var before := events[..|events| - 1];
      InputAfter(Run(cfg, before), Run(cfg, events), events[|events| - 1], InputOf(cfg, before))
  }

  function InputAfter(s: State, s': State, e: Event, input: seq<byte>): seq<byte> {
    if e.Connect? && s.conn.Connecting? then []
    else if e.Read? && s'.buf == s.buf + e.chunk then input + e.chunk
    else input
  }

  function ConnPhase(conn: Conn): (p: Phase)
    requires InSession(conn)
    ensures !p.Ended?
  {
    match conn
    case AwaitOpen => OpenSent
    case AwaitConfirm(o, _) => OpenConfirm(o)
    case Reannouncing(o, _, _) => Up(o)
    case Established(o, _, _) => Up(o)
  }

  function ReaderOf(s: State): Reader
    requires InSession(s.conn)
  {
    Reader(ConnPhase(s.conn), s.buf, Gots(s.trace))
  }

  /** What in the octets, if anything, ended the present connection. */
  function ReadEnd(cfg: PeerConfig, events: seq<Event>): Option<End> {
    if events == [] then None
    else
      var before := events[..|events| - 1];
      ReadEndAfter(cfg, Run(cfg, before), Run(cfg, events), events[|events| - 1], ReadEnd(cfg, before))
  }

  function ReadEndAfter(cfg: PeerConfig, s: State, s': State, e: Event, end: Option<End>): Option<End> {
    if e.Connect? && s.conn.Connecting? then None
    else if e.TakeFrame? && InSession(s.conn) && !InSession(s'.conn) then Refusal(cfg, s)
    else end
  }

  /** The fault of the first frame in the buffer. */
  function Refusal(cfg: PeerConfig, s: State): Option<End>
    requires InSession(s.conn)
  {
    match NextFrame(s.buf)
    case NeedMore => None
    case Bad(error) => Some(BadFrame(error))
    case Complete(msg, _) =>
      var phase := OnMessage(cfg.peerAsn, ConnPhase(s.conn), msg);
      if phase.Ended? then Some(phase.why) else None
  }

  /**
   In a session, framing the rest of the buffer would end where framing the whole input at once does. A
   connection its octets ended has read what the whole input says up to that fault, any other a part of it.
   */
  ghost predicate StreamInv(cfg: PeerConfig, s: State, input: seq<byte>, end: Option<End>) {
    var whole := Pump(cfg.peerAsn, FRESH.(buf := input));
    && (InSession(s.conn) ==> end.None? && Pump(cfg.peerAsn, ReaderOf(s)) == whole)
    && (end.Some? ==> whole == Reader(Ended(end.value), [], Gots(s.trace)))
    && Gots(s.trace) <= whole.frames
  }

  lemma GotsMore(tr: seq<Io>, io: Io)
    ensures Gots(tr + [io]) == Gots(tr) + if io.Got? then [io.msg] else []
  {
    assert (tr + [io])[..|tr|] == tr;
  }

  lemma GotsSame(tr: seq<Io>, io: Io)
    requires !io.Got?
    ensures Gots(tr + [io]) == Gots(tr)
  {
    GotsMore(tr, io);
    assert Gots(tr) + [] == Gots(tr);
  }

  lemma {:induction false} PumpKeepsFrames(peerAsn: u32, r: Reader)
    ensures r.frames <= Pump(peerAsn, r).frames
    decreases |r.buf|
  {
    hide NextFrame, OnMessage;
    if !r.phase.Ended? && NextFrame(r.buf).Complete? {
      var phase := OnMessage(peerAsn, r.phase, NextFrame(r.buf).msg);
      if !phase.Ended? {
        PumpKeepsFrames(peerAsn, Reader(phase, r.buf[NextFrame(r.buf).len..], r.frames + [NextFrame(r.buf).msg]));
      }
    }
  }

  /** Nothing was read, and the loop goes on or the session is over. */
  lemma StaysStream(cfg: PeerConfig, s: State, s': State, input: seq<byte>, end: Option<End>)
    requires StreamInv(cfg, s, input, end) && Gots(s'.trace) == Gots(s.trace)
    requires InSession(s'.conn) ==> InSession(s.conn) && s'.buf == s.buf && ConnPhase(s'.conn) == ConnPhase(s.conn)
    ensures StreamInv(cfg, s', input, end)
  {
    hide Pump, Gots, ConnPhase;
  }

  lemma ConnectStream(cfg: PeerConfig, s: State, connected: bool, written: bool)
    requires s.conn.Connecting?
    ensures StreamInv(cfg, DoConnect(cfg, s, connected, written), [], None)
  {
    hide LocalOpen, Pump, Gots;
    var io := Write(OpenOut(LocalOpen(cfg)), written);
    NothingPumped(cfg.peerAsn);
    GotsSame([], io);
    assert [] + [io] == [io];
  }

  lemma NothingPumped(peerAsn: u32)
    ensures Pump(peerAsn, FRESH.(buf := [])) == FRESH && Gots([]) == []
  {
    hide DecodeMessage, ParseHeader;
  }

  lemma ReadStream(cfg: PeerConfig, s: State, chunk: seq<byte>, input: seq<byte>, end: Option<End>)
    requires StreamInv(cfg, s, input, end)
    ensures var s' := DoRead(s, chunk); StreamInv(cfg, s', InputAfter(s, s', Read(chunk), input), end)
  {
    hide NextFrame, Gots, Pump, ConnPhase;
    var s' := DoRead(s, chunk);
    if s'.buf == s.buf + chunk && chunk != [] {
      assert s' == s.(buf := s.buf + chunk) && Reading(s);
      AppendStream(cfg, s, chunk, input);
    } else {
      assert s'.buf == s.buf + chunk ==> input + chunk == input;
      StaysStream(cfg, s, s', input, end);
    }
  }

  lemma AppendStream(cfg: PeerConfig, s: State, chunk: seq<byte>, input: seq<byte>)
    requires StreamInv(cfg, s, input, None) && Reading(s)
    ensures StreamInv(cfg, s.(buf := s.buf + chunk), input + chunk, None)
  {
    hide NextFrame, Gots, ConnPhase, OnMessage;
    var s' := s.(buf := s.buf + chunk);
    PumpAppend(cfg.peerAsn, FRESH.(buf := input), chunk);
    assert Pump(cfg.peerAsn, ReaderOf(s)) == ReaderOf(s);
    PumpKeepsFrames(cfg.peerAsn, ReaderOf(s'));
  }

  /** The session's own dispatch is the reader's; it also ends when the reply cannot be written. */
  lemma TurnIsOnMessage(cfg: PeerConfig, s: State, msg: BgpMessage, written: bool)
    requires s.conn.AwaitOpen? || s.conn.AwaitConfirm? || s.conn.Established?
    ensures var turn, phase := TurnOf(cfg, s, msg, written), OnMessage(cfg.peerAsn, ConnPhase(s.conn), msg);
            && (turn.reply.Some? ==> !turn.reply.value.Got?)
            && (InSession(turn.conn) ==> ConnPhase(turn.conn) == phase)
            && (phase.Ended? ==> !InSession(turn.conn))
  {
    hide HoldSecs;
  }

  /** The frame taken is the next one of the whole input, and the last one when it is refused. */
  lemma FrameStream(cfg: PeerConfig, s: State, input: seq<byte>)
    requires StreamInv(cfg, s, input, None) && InSession(s.conn) && NextFrame(s.buf).Complete?
    ensures var msg, len := NextFrame(s.buf).msg, NextFrame(s.buf).len;
            var phase, whole := OnMessage(cfg.peerAsn, ConnPhase(s.conn), msg), Pump(cfg.peerAsn, FRESH.(buf := input));
            && Gots(s.trace) + [msg] <= whole.frames
            && whole == if phase.Ended? then Reader(phase, [], Gots(s.trace) + [msg])
                        else Pump(cfg.peerAsn, Reader(phase, s.buf[len..], Gots(s.trace) + [msg]))
  {
    hide NextFrame, Gots, ConnPhase, OnMessage;
    var msg, len := NextFrame(s.buf).msg, NextFrame(s.buf).len;
    var phase := OnMessage(cfg.peerAsn, ConnPhase(s.conn), msg);
    PumpKeepsFrames(cfg.peerAsn, Reader(phase, s.buf[len..], Gots(s.trace) + [msg]));
  }

  /** A malformed frame ends the whole input at the same point. */
  lemma BadStream(cfg: PeerConfig, s: State, input: seq<byte>)
    requires StreamInv(cfg, s, input, None) && InSession(s.conn) && NextFrame(s.buf).Bad?
    ensures Pump(cfg.peerAsn, FRESH.(buf := input)) ==
            Reader(Ended(BadFrame(NextFrame(s.buf).error)), [], Gots(s.trace))
  {
    hide NextFrame, Gots, ConnPhase, OnMessage;
  }

  lemma TakeFrameStream(cfg: PeerConfig, s: State, written: bool, input: seq<byte>, end: Option<End>)
    requires StreamInv(cfg, s, input, end)
    ensures var s' := DoTakeFrame(cfg, s, written);
            StreamInv(cfg, s', input, ReadEndAfter(cfg, s, s', TakeFrame(written), end))
  {
    hide NextFrame, Gots, Pump, ConnPhase, OnMessage, DoTakeFrame, TurnOf;
    var s' := DoTakeFrame(cfg, s, written);
    TakeFrameIs(cfg, s, written);
    if FrameDue(s) {
      var msg := NextFrame(s.buf).msg;
      TurnIsOnMessage(cfg, s, msg, written);
      FrameStream(cfg, s, input);
      LogGots(s.trace, msg, s.now, TurnOf(cfg, s, msg, written).reply);
    } else if s' != s {
      BadStream(cfg, s, input);
    }
  }

  lemma LogGots(tr: seq<Io>, msg: BgpMessage, now: nat, reply: Option<Io>)
    requires reply.Some? ==> !reply.value.Got?
    ensures Gots(Log(tr + [Got(msg, now)], reply)) == Gots(tr) + [msg]
  {
    hide Gots;
    GotsMore(tr, Got(msg, now));
    if reply.Some? {
      GotsSame(tr + [Got(msg, now)], reply.value);
    }
  }

  lemma SendStream(cfg: PeerConfig, s: State, e: Event, input: seq<byte>, end: Option<End>)
    requires StreamInv(cfg, s, input, end) && IsSend(e)
    ensures StreamInv(cfg, Step(cfg, s, e), input, end)
  {
    hide Step, Gots, StreamInv;
    SendIs(cfg, s, e);
    if io :| Sends(s, Step(cfg, s, e), io) {
      GotsSame(s.trace, io);
    }
    StaysStream(cfg, s, Step(cfg, s, e), input, end);
  }

  lemma KeepaliveStream(cfg: PeerConfig, s: State, written: bool, input: seq<byte>, end: Option<End>)
    requires StreamInv(cfg, s, input, end)
    ensures StreamInv(cfg, DoKeepaliveTimer(cfg, s, written), input, end)
  {
    hide Gots, StreamInv, HoldSecs;
    GotsSame(s.trace, Write(KeepaliveOut, written));
    StaysStream(cfg, s, DoKeepaliveTimer(cfg, s, written), input, end);
  }

  lemma StepStream(cfg: PeerConfig, s: State, e: Event, input: seq<byte>, end: Option<End>)
    requires StreamInv(cfg, s, input, end)
    ensures var s' := Step(cfg, s, e);
            StreamInv(cfg, s', InputAfter(s, s', e, input), ReadEndAfter(cfg, s, s', e, end))
  {
    hide NextFrame, Apply, BackoffDelay, StreamInv, Gots, Refusal;
    hide DoConnect, DoRead, DoTakeFrame, DoKeepaliveTimer, DoTakeCommand;
    hide DoReannounceRoute, DoReannounceRule, DoReannounceDone;
    match e
    case Connect(connected, written) =>
      if s.conn.Connecting? {
        ConnectStream(cfg, s, connected, written);
      } else {
        ConnectLate(cfg, s, connected, written);
      }
    case Read(chunk) => ReadStream(cfg, s, chunk, input, end);
    case TakeFrame(written) => TakeFrameStream(cfg, s, written, input, end);
    case ReannounceRoute(_, _) => SendStream(cfg, s, e, input, end);
    case ReannounceRule(_, _) => SendStream(cfg, s, e, input, end);
    case TakeCommand(_) => SendStream(cfg, s, e, input, end);
    case KeepaliveTimer(written) => KeepaliveStream(cfg, s, written, input, end);
    case HoldTimer(written) =>
      GotsSame(s.trace, Write(NotificationOut(4, 0), written));
      StaysStream(cfg, s, Step(cfg, s, e), input, end);
    case _ => StaysStream(cfg, s, Step(cfg, s, e), input, end);
  }

  lemma ConnectLate(cfg: PeerConfig, s: State, connected: bool, written: bool)
    requires !s.conn.Connecting?
    ensures DoConnect(cfg, s, connected, written) == s
  {
  }

  lemma {:induction false} RunStream(cfg: PeerConfig, events: seq<Event>)
    ensures StreamInv(cfg, Run(cfg, events), InputOf(cfg, events), ReadEnd(cfg, events))
  {
    hide Step, StreamInv, InputAfter, ReadEndAfter;
    if events == [] {
      NothingRead(cfg);
    } else {
      var before := events[..|events| - 1];
      RunStream(cfg, before);
      StepStream(cfg, Run(cfg, before), events[|events| - 1], InputOf(cfg, before), ReadEnd(cfg, before));
    }
  }

  lemma NothingRead(cfg: PeerConfig)
    ensures StreamInv(cfg, INITIAL, [], None)
  {
  }

  /** On every run, once no complete frame waits, phase, residue and messages are those of the uncut input. */
  lemma SessionReadsTheStream(cfg: PeerConfig, events: seq<Event>)
    requires var s := Run(cfg, events); InSession(s.conn) && NextFrame(s.buf).NeedMore?
    ensures ReaderOf(Run(cfg, events)) == Pump(cfg.peerAsn, FRESH.(buf := InputOf(cfg, events)))
  {
    hide Run, NextFrame, InputOf, Gots, ReadEnd, OnMessage;
    RunStream(cfg, events);
  }

  /**
   On every run, in every state: a connection ended by what it read found the fault the uncut input has, and
   took exactly the messages before it; a connection ended otherwise, or still up, took a part of them.
   */
  lemma SessionFindsTheFault(cfg: PeerConfig, events: seq<Event>)
    ensures var took, whole := Gots(Run(cfg, events).trace), Pump(cfg.peerAsn, FRESH.(buf := InputOf(cfg, events)));
            match ReadEnd(cfg, events)
            case Some(why) => whole.phase == Ended(why) && whole.frames == took
            case None => took <= whole.frames
  {
    hide Run, InputOf, Gots, ReadEnd, Pump;
    RunStream(cfg, events);
  }

  /** So two runs whose connections received the same octets, cut as they may be, stand at the same point. */
  lemma SessionsIgnoreCuts(cfg: PeerConfig, events: seq<Event>, events': seq<Event>)
    requires var s := Run(cfg, events); InSession(s.conn) && NextFrame(s.buf).NeedMore?
    requires var s := Run(cfg, events'); InSession(s.conn) && NextFrame(s.buf).NeedMore?
    requires InputOf(cfg, events) == InputOf(cfg, events')
    ensures ReaderOf(Run(cfg, events)) == ReaderOf(Run(cfg, events'))
  {
    hide Run, NextFrame, InputOf, ReaderOf, Pump;
    SessionReadsTheStream(cfg, events);
    SessionReadsTheStream(cfg, events');
  }

  /**
   And two runs whose connections received the same octets never disagree, up or ended: of the messages taken
   one is the beginning of the other, and if both connections found a fault it is the same one, at the same point.
   */
  lemma SessionsAgreeOnFaults(cfg: PeerConfig, events: seq<Event>, events': seq<Event>)
    requires InputOf(cfg, events) == InputOf(cfg, events')
    ensures var took, took' := Gots(Run(cfg, events).trace), Gots(Run(cfg, events').trace);
            && (took <= took' || took' <= took)
            && (ReadEnd(cfg, events).Some? && ReadEnd(cfg, events').Some? ==>
                  ReadEnd(cfg, events) == ReadEnd(cfg, events') && took == took')
            && (ReadEnd(cfg, events).Some? ==> took' <= took)
  {
    hide Run, InputOf, Gots, ReadEnd, Pump;
    SessionFindsTheFault(cfg, events);
    SessionFindsTheFault(cfg, events');
  }

  lemma StepBuffer(cfg: PeerConfig, s: State, e: Event)
    requires |s.buf| <= 65536
    ensures |Step(cfg, s, e).buf| <= 65536
  {
    hide NextFrame, Apply, HoldSecs, DoTakeFrame, DoReannounceRoute, DoReannounceRule, DoTakeCommand, BackoffDelay;
    if e.TakeFrame? {
      TakeFrameIs(cfg, s, e.written);
    } else if IsSend(e) {
      SendIs(cfg, s, e);
    }
  }

  /** On every run the buffer holds at most 64 KiB. */
  lemma {:induction false} BufferIsBounded(cfg: PeerConfig, events: seq<Event>)
    ensures |Run(cfg, events).buf| <= 65536
  {
    hide Step;
    if events == [] {
    } else {
      BufferIsBounded(cfg, events[..|events| - 1]);
      StepBuffer(cfg, Run(cfg, events[..|events| - 1]), events[|events| - 1]);
    }
  }

  /** Wherever the session reads, up to 4096 octets are taken as they come. */
  lemma ReadsAreTaken(s: State, chunk: seq<byte>)
    requires Reading(s) && 1 <= |chunk| <= 4096
    ensures DoRead(s, chunk) == s.(buf := s.buf + chunk)
  {
    hide DecodeMessage, ParseHeader;
  }

  // ---- The end of the task ------------------------------------------------------------------------

  ghost predicate ExitInv(s: State) {
    s.conn.Exited? ==> s.closed && s.queue == [] && NextFrame(s.buf).NeedMore?
  }

  lemma StepExit(cfg: PeerConfig, s: State, e: Event)
    requires ExitInv(s)
    ensures ExitInv(Step(cfg, s, e))
  {
    hide NextFrame, Apply, HoldSecs, BackoffDelay, DoTakeFrame, DoReannounceRoute, DoReannounceRule, DoReannounceDone;
    hide Emit;
    if e.TakeFrame? {
      TakeFrameIs(cfg, s, e.written);
    } else if e.ReannounceRoute? || e.ReannounceRule? {
      ReannounceStays(cfg, s, e);
    } else if e.TakeCommand? {
      TakeCommandExits(s, e.written);
    }
  }

  lemma ReannounceStays(cfg: PeerConfig, s: State, e: Event)
    requires e.ReannounceRoute? || e.ReannounceRule?
    ensures Step(cfg, s, e) == s || !Step(cfg, s, e).conn.Exited?
  {
    hide SafiOf, AnnounceAllowed, CanBuild;
  }

  lemma TakeCommandExits(s: State, written: bool)
    ensures var s' := DoTakeCommand(s, written);
            s'.conn.Exited? ==>
              || s' == s
              || (s' == s.(conn := Exited) && s.closed && s.queue == [] && NextFrame(s.buf).NeedMore?)
  {
    hide NextFrame, Apply, SafiOf, AnnounceAllowed, CanBuild;
  }

  lemma {:induction false} RunExit(cfg: PeerConfig, events: seq<Event>)
    ensures ExitInv(Run(cfg, events))
  {
    hide Step, ExitInv;
    if events == [] {
      NotExited();
    } else {
      RunExit(cfg, events[..|events| - 1]);
      StepExit(cfg, Run(cfg, events[..|events| - 1]), events[|events| - 1]);
    }
  }

  /** On every run the task exits only when the channel is closed, all commands are applied and all frames handled. */
  lemma ExitsClean(cfg: PeerConfig, events: seq<Event>)
    requires Run(cfg, events).conn.Exited?
    ensures var s := Run(cfg, events);
            s.closed && s.consumed == Accepted(events) && NextFrame(s.buf).NeedMore?
  {
    hide Run, Accepted, NextFrame;
    RunExit(cfg, events);
    DesiredIsReplay(cfg, events);
    assert Run(cfg, events).consumed + [] == Run(cfg, events).consumed;
  }

  lemma NotExited()
    ensures ExitInv(INITIAL)
  {
  }

  /**
   Complete frames come first: no octets are read, and no live command is taken, while one is buffered, and
   none are read during re-announcement.
   */
  lemma FramesFirst(cfg: PeerConfig, s: State, e: Event)
    requires InSession(s.conn)
    ensures var s' := Step(cfg, s, e);
            && (|s'.buf| > |s.buf| ==> NextFrame(s.buf).NeedMore? && !s.conn.Reannouncing?)
            && (s'.consumed != s.consumed || |s'.queue| < |s.queue| ==>
                  NextFrame(s.buf).NeedMore? && s.conn.Established?)
  {
    hide NextFrame, Apply, HoldSecs, BackoffDelay, DoTakeFrame, Emit, DoReannounceDone;
    if e.TakeFrame? {
      TakeFrameIs(cfg, s, e.written);
    } else if IsSend(e) {
      SendIs(cfg, s, e);
    }
  }
}
