/** The condition under which every run is right is not only sufficient but necessary. */
module SessionExact {
  import opened Bytes
  import opened Wrappers
  import opened Net
  import opened Message
  import opened Framing
  import opened Update
  import opened FlowSpec
  import opened Rib
  import opened Session
  import opened SessionAccount
  import opened SessionTable

  /** A peer that takes every family. */
  function FullPeer(cfg: PeerConfig): OpenMsg {
    OpenMsg(cfg.peerAsn, 90, 1, true, true, true, true)
  }

  function Handshake(cfg: PeerConfig): seq<Event> {
    [Connect(true, true)] + [Read(OpenBytes(FullPeer(cfg)))] + [TakeFrame(true)] + [Read(KeepaliveBytes())]
    + [TakeFrame(true)] + [ReannounceDone]
  }

  /** Established with a full peer, nothing buffered and the channel open. */
  ghost predicate Ready(cfg: PeerConfig, s: State) {
    s.conn.Established? && s.conn.peer == FullPeer(cfg) && s.buf == [] && !s.closed
  }

  lemma EmptyBuffer()
    ensures NextFrame([]).NeedMore?
  {
  }

  /** The peer's OPEN arrives in one read and is taken. */
  lemma {:induction false} OpenIsTaken(cfg: PeerConfig, s: State)
    requires s.conn.AwaitOpen? && s.buf == []
    ensures var s' := Step(cfg, Step(cfg, s, Read(OpenBytes(FullPeer(cfg)))), TakeFrame(true));
            && s'.conn.AwaitConfirm? && s'.conn.peer == FullPeer(cfg) && s'.buf == []
            && SameCommands(s, s') && s'.updates == s.updates
  {
    hide NextFrame, OpenBytes;
    var o := FullPeer(cfg);
    EmptyBuffer();
    OpenIsShort(o);
    OpenArrives(o, []);
    assert OpenBytes(o) + [] == OpenBytes(o) && [] + OpenBytes(o) == OpenBytes(o);
    var s1 := DoRead(s, OpenBytes(o));
    assert s1 == s.(buf := OpenBytes(o));
    assert s1.buf[|OpenBytes(o)|..] == [];
  }

  lemma OpenIsShort(o: OpenMsg)
    ensures HEADER_LEN < |OpenBytes(o)| <= 100
  {
  }

  /** The peer's KEEPALIVE arrives and, with nothing to re-announce, the session is up. */
  lemma {:induction false} KeepaliveIsTaken(cfg: PeerConfig, s: State)
    requires s.conn.AwaitConfirm? && s.conn.peer == FullPeer(cfg) && s.buf == [] && s.desired == NOTHING && !s.closed
    ensures var s' := Step(cfg, Step(cfg, Step(cfg, s, Read(KeepaliveBytes())), TakeFrame(true)), ReannounceDone);
            Ready(cfg, s') && SameCommands(s, s') && s'.updates == s.updates
  {
    hide NextFrame, KeepaliveBytes;
    EmptyBuffer();
    KeepaliveArrives([]);
    KeepaliveIsShort();
    assert KeepaliveBytes() + [] == KeepaliveBytes() && [] + KeepaliveBytes() == KeepaliveBytes();
    var s1 := DoRead(s, KeepaliveBytes());
    assert s1 == s.(buf := KeepaliveBytes());
    assert s1.buf[HEADER_LEN..] == [];
    var s2 := DoTakeFrame(cfg, s1, true);
    assert s2.conn == Reannouncing(FullPeer(cfg), {}, {}) && s2.buf == [];
  }

  lemma KeepaliveIsShort()
    ensures |KeepaliveBytes()| == HEADER_LEN
  {
  }

  lemma RunNothing(cfg: PeerConfig)
    ensures Run(cfg, []) == INITIAL && Accepted([]) == []
  {
  }

  lemma OpenGoesOut(cfg: PeerConfig)
    ensures var s := Step(cfg, INITIAL, Connect(true, true));
            s.conn.AwaitOpen? && s.buf == [] && SameCommands(INITIAL, s) && s.updates == []
  {
  }

  /** A handshake that goes well ends Established with no command taken and no UPDATE sent yet. */
  lemma {:induction false} HandshakeSucceeds(cfg: PeerConfig)
    ensures var s := Run(cfg, Handshake(cfg));
            Ready(cfg, s) && s.queue == [] && s.consumed == [] && s.updates == []
  {
    hide OpenBytes, KeepaliveBytes, Step, Run, Ready;
    var a, b, c, d := Connect(true, true), Read(OpenBytes(FullPeer(cfg))), TakeFrame(true), Read(KeepaliveBytes());
    OpenGoesOut(cfg);
    var s0 := Step(cfg, INITIAL, a);
    OpenIsTaken(cfg, s0);
    KeepaliveIsTaken(cfg, Step(cfg, Step(cfg, s0, b), c));
    RunNothing(cfg);
    assert [] + [a] == [a];
    RunMore(cfg, [], a);
    RunMore(cfg, [a], b);
    RunMore(cfg, [a] + [b], c);
    RunMore(cfg, [a] + [b] + [c], d);
    RunMore(cfg, [a] + [b] + [c] + [d], c);
    RunMore(cfg, [a] + [b] + [c] + [d] + [c], ReannounceDone);
  }

  lemma {:induction false} AcceptedMore(events: seq<Event>, e: Event)
    ensures Accepted(events + [e]) ==
            Accepted(events) + if e.Enqueue? && CloseChannel !in events then [e.c] else []
  {
    assert (events + [e])[..|events|] == events;
  }

  lemma {:induction false} HandshakeAcceptsNothing(cfg: PeerConfig)
    ensures Accepted(Handshake(cfg)) == [] && CloseChannel !in Handshake(cfg)
  {
    hide Accepted, OpenBytes, KeepaliveBytes;
    var a, b, c, d := Connect(true, true), Read(OpenBytes(FullPeer(cfg))), TakeFrame(true), Read(KeepaliveBytes());
    RunNothing(cfg);
    assert [] + [a] == [a];
    AcceptedMore([], a);
    AcceptedMore([a], b);
    AcceptedMore([a] + [b], c);
    AcceptedMore([a] + [b] + [c], d);
    AcceptedMore([a] + [b] + [c] + [d], c);
    AcceptedMore([a] + [b] + [c] + [d] + [c], ReannounceDone);
  }

  function Enqueues(cs: seq<Command>): (es: seq<Event>)
    ensures |es| == |cs|
  {
    if cs == [] then [] else Enqueues(cs[..|cs| - 1]) + [Enqueue(cs[|cs| - 1])]
  }

  /** Enqueuing the commands after the handshake. */
  lemma {:induction false} EnqueuesArrive(cfg: PeerConfig, cs: seq<Command>)
    ensures var events := Handshake(cfg) + Enqueues(cs);
            var s := Run(cfg, events);
            && Ready(cfg, s) && s.queue == cs && s.consumed == [] && TableInv(s)
            && Accepted(events) == cs && CloseChannel !in events
  {
    hide TableInv, Handshake, Run, Accepted;
    if cs == [] {
      assert Handshake(cfg) + Enqueues(cs) == Handshake(cfg);
      HandshakeSucceeds(cfg);
      HandshakeAcceptsNothing(cfg);
      RunInv(cfg, Handshake(cfg));
    } else {
      var some, c := cs[..|cs| - 1], cs[|cs| - 1];
      EnqueuesArrive(cfg, some);
      var events := Handshake(cfg) + Enqueues(some);
      assert Handshake(cfg) + Enqueues(cs) == events + [Enqueue(c)];
      RunMore(cfg, events, Enqueue(c));
      AcceptedMore(events, Enqueue(c));
      EnqueueKeeps(Run(cfg, events), c);
      assert some + [c] == cs;
    }
  }

  lemma EnqueueKeeps(s: State, c: Command)
    requires TableInv(s)
    ensures TableInv(s.(queue := s.queue + [c]))
  {
  }

  function Takings(n: nat): (es: seq<Event>)
    ensures |es| == n && forall i :: 0 <= i < n ==> es[i] == TakeCommand(true)
  {
    seq(n, _ => TakeCommand(true))
  }

  /** Every announce can be built: the next hop has the prefix's family and the lengths fit their fields. */
  predicate AllBuildable(cs: seq<Command>) {
    forall i :: 0 <= i < |cs| && cs[i].Announce? ==> Buildable(cs[i].route)
  }

  /** Taking the first `n` commands live, each of which can be built. */
  lemma {:induction false} TakingsGoOut(cfg: PeerConfig, cs: seq<Command>, n: nat)
    requires n <= |cs| && AllBuildable(cs[..n])
    ensures var events := Handshake(cfg) + Enqueues(cs) + Takings(n);
            var s := Run(cfg, events);
            && Ready(cfg, s) && s.queue == cs[n..] && s.consumed == cs[..n]
            && Accepted(events) == cs && CloseChannel !in events
  {
    hide Handshake, Run, Accepted, Enqueues, Ready, DoTakeCommand;
    var base := Handshake(cfg) + Enqueues(cs);
    if n == 0 {
      assert base + Takings(0) == base;
      EnqueuesArrive(cfg, cs);
    } else {
      assert cs[..n - 1] + [cs[n - 1]] == cs[..n];
      TakingsGoOut(cfg, cs, n - 1);
      var events := base + Takings(n - 1);
      assert base + Takings(n) == events + [TakeCommand(true)];
      RunMore(cfg, events, TakeCommand(true));
      AcceptedMore(events, TakeCommand(true));
      assert cs[..n][n - 1] == cs[n - 1];
      OneTaking(cfg, Run(cfg, events));
      assert cs[n - 1..][1..] == cs[n..] && cs[..n - 1] + [cs[n - 1]] == cs[..n];
    }
  }

  lemma OneTaking(cfg: PeerConfig, s: State)
    requires Ready(cfg, s) && s.queue != [] && CanBuild(UpdateFor(s.queue[0]))
    ensures var s' := DoTakeCommand(s, true);
            Ready(cfg, s') && s'.queue == s.queue[1..] && s'.consumed == s.consumed + [s.queue[0]]
  {
    hide NextFrame, Apply, FlowNlriBytes;
    EmptyBuffer();
  }

  /** When they are also safe, the peer is right afterwards. */
  lemma {:induction false} TakingsSucceed(cfg: PeerConfig, cs: seq<Command>, n: nat)
    requires n <= |cs| && AllSafe(cs[..n])
    ensures AllBuildable(cs[..n]) && TableInv(Run(cfg, Handshake(cfg) + Enqueues(cs) + Takings(n)))
  {
    hide TableInv, Handshake, Run, Accepted, AllSafe, Safe, Enqueues, DoTakeCommand, AllBuildable, Step, Ready, Replay;
    hide Takings;
    SafeIsBuildable(cs[..n]);
    var base := Handshake(cfg) + Enqueues(cs);
    if n == 0 {
      assert base + Takings(0) == base;
      EnqueuesArrive(cfg, cs);
    } else {
      SafePrefix(cs, n);
      TakingsSucceed(cfg, cs, n - 1);
      TakingsGoOut(cfg, cs, n - 1);
      var events := base + Takings(n - 1);
      assert base + Takings(n) == events + [TakeCommand(true)];
      RunMore(cfg, events, TakeCommand(true));
      var s := Run(cfg, events);
      DesiredIsReplay(cfg, events);
      assert s.queue[0] == cs[n - 1];
      TakeCommandKeeps(s, true);
      TakingIsAStep(cfg, s);
    }
  }

  lemma TakingIsAStep(cfg: PeerConfig, s: State)
    ensures Step(cfg, s, TakeCommand(true)) == DoTakeCommand(s, true)
  {
  }

  lemma SafeIsBuildable(cs: seq<Command>)
    ensures AllSafe(cs) ==> AllBuildable(cs)
  {
    hide NoConflict, Buildable;
  }

  lemma SafePrefix(cs: seq<Command>, n: nat)
    requires 0 < n <= |cs| && AllSafe(cs[..n])
    ensures AllSafe(cs[..n - 1]) && Safe(Replay(cs[..n - 1]), cs[n - 1])
  {
    hide Safe;
    var some := cs[..n];
    assert some[n - 1] == cs[n - 1] && some[..n - 1] == cs[..n - 1];
    assert forall i :: 0 <= i < n ==> some[..i] == cs[..n - 1][..i];
  }

  /** The first command that is not safe, if any is not. */
  lemma {:induction false} FirstUnsafe(cs: seq<Command>) returns (i: nat)
    requires cs != [] && !AllSafe(cs)
    ensures i < |cs| && AllSafe(cs[..i]) && !Safe(Replay(cs[..i]), cs[i])
  {
    hide Safe, AllSafe;
    var n := |cs| - 1;
    SafeLonger(cs);
    if AllSafe(cs[..n]) {
      i := n;
    } else {
      NothingIsSafe();
      i := FirstUnsafe(cs[..n]);
      assert cs[..n][..i] == cs[..i];
    }
  }

  lemma NothingIsSafe()
    ensures AllSafe([])
  {
  }

  lemma SafeLonger(cs: seq<Command>)
    requires cs != []
    ensures AllSafe(cs[..|cs| - 1]) && Safe(Replay(cs[..|cs| - 1]), cs[|cs| - 1]) ==> AllSafe(cs)
  {
    hide Safe, Replay;
    var n := |cs| - 1;
    if AllSafe(cs[..n]) && Safe(Replay(cs[..n]), cs[n]) {
      forall i | 0 <= i < |cs|
        ensures Safe(Replay(cs[..i]), cs[i])
      {
        if i < n {
          assert cs[..n][..i] == cs[..i] && cs[..n][i] == cs[i];
        }
      }
    }
  }

  /** Taking an unsafe command live goes wrong. */
  lemma OneBadTaking(cfg: PeerConfig, s: State)
    requires Ready(cfg, s) && s.queue != [] && TableInv(s) && !Safe(s.desired, s.queue[0])
    ensures !Right(DoTakeCommand(s, true))
  {
    EmptyBuffer();
    hide NextFrame, NoConflict, Apply, ViewOf, Agrees, WireTable, TraceTable, TableAfter;
    var c, t := s.queue[0], TraceTable(s.trace);
    var m := UpdateFor(c);
    if CanBuild(m) {
      LiveCommandExactly(t, s.desired, c, s.conn.peer);
      TraceTableMore(s.trace, Io.Sent(m));
      WireIsTrace(s.trace + [Io.Sent(m)]);
    }
  }

  /** Past the first unsafe command there is a run that goes wrong. */
  lemma {:induction false} SomeRunGoesWrong(cfg: PeerConfig, cs: seq<Command>) returns (events: seq<Event>)
    requires !AllSafe(cs)
    ensures Accepted(events) == cs && !Right(Run(cfg, events))
  {
    hide Safe, AllSafe, Right, Handshake, Enqueues, Takings, Accepted, Run, Replay;
    NothingIsSafe();
    var i := FirstUnsafe(cs);
    UnsafeGoesWrong(cfg, cs, i);
    events := Handshake(cfg) + Enqueues(cs) + Takings(i);
    AcceptedMore(events, TakeCommand(true));
    events := events + [TakeCommand(true)];
  }

  lemma UnsafeGoesWrong(cfg: PeerConfig, cs: seq<Command>, i: nat)
    requires i < |cs| && AllSafe(cs[..i]) && !Safe(Replay(cs[..i]), cs[i])
    ensures var events := Handshake(cfg) + Enqueues(cs) + Takings(i);
            && Accepted(events) == cs && CloseChannel !in events
            && !Right(Run(cfg, events + [TakeCommand(true)]))
  {
    hide Safe, AllSafe, AllBuildable, Ready, TableInv, Right, Step, DoTakeCommand, Handshake, Enqueues, Takings, Accepted;
    hide Run, Replay, Held;
    TakingsSucceed(cfg, cs, i);
    TakingsGoOut(cfg, cs, i);
    var events := Handshake(cfg) + Enqueues(cs) + Takings(i);
    DesiredIsReplay(cfg, events);
    assert Run(cfg, events).queue[0] == cs[i];
    OneBadTaking(cfg, Run(cfg, events));
    RunMore(cfg, events, TakeCommand(true));
    TakingIsAStep(cfg, Run(cfg, events));
  }

  /**
   The session task survives and the peer's table is right on every run over a list of commands exactly when
   every command is safe after those before it.
   */
  lemma RunsAreRightExactlyWhenSafe(cfg: PeerConfig, cs: seq<Command>)
    ensures (forall events :: Accepted(events) == cs ==> Right(Run(cfg, events))) <==> AllSafe(cs)
  {
    hide Safe, Right, Accepted, Run;
    if AllSafe(cs) {
      forall events | Accepted(events) == cs
        ensures Right(Run(cfg, events))
      {
        PeerHoldsWhatIsWanted(cfg, events);
      }
    } else {
      var events := SomeRunGoesWrong(cfg, cs);
    }
  }

  // ---- Two prefixes, one network ------------------------------------------------------------------

  /** Two prefixes with the same network bits: different paths cannot both stand, and neither can be withdrawn alone. */
  lemma SharedNetworkIsUnsafe(r: Route, r': Route)
    requires r.prefix != r'.prefix && Trunc(r.prefix) == Trunc(r'.prefix)
    ensures PathOfRoute(r) != PathOfRoute(r') ==> !AllSafe([Announce(r), Announce(r')])
    ensures !AllSafe([Announce(r), Announce(r'), Withdraw(r.prefix)])
  {
    hide Trunc, PathOfRoute, Sendable;
    var two, three := [Announce(r), Announce(r')], [Announce(r), Announce(r'), Withdraw(r.prefix)];
    assert Replay([]) == NOTHING;
    ReplayMore([], Announce(r));
    ReplayMore([Announce(r)], Announce(r'));
    assert [] + [Announce(r)] == [Announce(r)] && [Announce(r)] + [Announce(r')] == two;
    hide Replay;
    var d := Replay([Announce(r)]);
    assert r.prefix in d.active && d.active[r.prefix] == r;
    assert r'.prefix in Replay(two).active;
    assert two[..1] == [Announce(r)] && three[..2] == two;
    if PathOfRoute(r) != PathOfRoute(r') {
      assert !NoConflict(d, two[1]);
      assert !Safe(Replay(two[..1]), two[1]);
    }
    assert !NoConflict(Replay(two), three[2]);
    assert !Safe(Replay(three[..2]), three[2]);
  }

  function Slash24(host: byte, hop: Octets4): Route {
    Route(Net(V4([192, 0, 2, host]), 24), V4(hop), Igp, [], [])
  }

  lemma OneNetwork(host: byte, hop: Octets4)
    ensures Trunc(Slash24(host, hop).prefix) == Net(V4([192, 0, 2, 0]), 24)
    ensures Sendable(Announce(Slash24(host, hop))) && PathOfRoute(Slash24(host, hop)).nextHop == Some(V4(hop))
  {
    assert TruncOctets([192, 0, 2, host], 24) == [192, 0, 2, 0];
  }

  /** 192.0.2.1/24 and 192.0.2.2/24 by different next hops, each in order by itself: some run ends with the peer wrong. */
  lemma HostBitsGoWrong(cfg: PeerConfig, hop: Octets4, hop': Octets4) returns (events: seq<Event>)
    requires hop != hop'
    ensures var c, c' := Announce(Slash24(1, hop)), Announce(Slash24(2, hop'));
            Sendable(c) && Sendable(c') && Accepted(events) == [c, c'] && !Right(Run(cfg, events))
  {
    hide Sendable, Right, Run, Accepted, AllSafe, PathOfRoute, Trunc;
    OneNetwork(1, hop);
    OneNetwork(2, hop');
    SharedNetworkIsUnsafe(Slash24(1, hop), Slash24(2, hop'));
    events := SomeRunGoesWrong(cfg, [Announce(Slash24(1, hop)), Announce(Slash24(2, hop'))]);
  }

  /** The same prefixes by one next hop: withdrawing either takes the other from the peer too. */
  lemma HostBitsWithdrawTooMuch(cfg: PeerConfig, hop: Octets4) returns (events: seq<Event>)
    ensures var c, c' := Announce(Slash24(1, hop)), Announce(Slash24(2, hop));
            && Sendable(c) && Sendable(c') && Accepted(events) == [c, c', Withdraw(c.route.prefix)]
            && !Right(Run(cfg, events))
  {
    hide Sendable, Right, Run, Accepted, AllSafe, PathOfRoute, Trunc;
    OneNetwork(1, hop);
    OneNetwork(2, hop);
    var c, c' := Announce(Slash24(1, hop)), Announce(Slash24(2, hop));
    SharedNetworkIsUnsafe(c.route, c'.route);
    events := SomeRunGoesWrong(cfg, [c, c', Withdraw(c.route.prefix)]);
  }

  // ---- Panics ----------------------------------------------------------------------------------------

  lemma {:induction false} ReplayedAreBuildable(cs: seq<Command>, p: IpNet)
    requires AllBuildable(cs) && p in Replay(cs).active
    ensures Buildable(Replay(cs).active[p])
  {
    hide Buildable, FlowNlriBytes;
    var some, c := cs[..|cs| - 1], cs[|cs| - 1];
    if c.Announce? && c.route.prefix == p {
      assert cs[|cs| - 1] == c;
    } else {
      assert forall i :: 0 <= i < |some| ==> some[i] == cs[i];
      ReplayedAreBuildable(some, p);
    }
  }

  lemma StepSurvives(cfg: PeerConfig, s: State, e: Event)
    requires !s.conn.Panicked?
    requires forall p :: p in s.desired.active ==> Buildable(s.desired.active[p])
    requires s.queue != [] ==> CanBuild(UpdateFor(s.queue[0]))
    ensures !Step(cfg, s, e).conn.Panicked?
  {
    hide NextFrame, Apply, SafiOf, AnnounceAllowed, OnMessage, HoldSecs, Buildable;
  }

  lemma {:induction false} BuildableRunsSurvive(cfg: PeerConfig, events: seq<Event>)
    requires AllBuildable(Accepted(events))
    ensures !Run(cfg, events).conn.Panicked?
  {
    hide Step, Buildable;
    if events == [] {
    } else {
      var before, e := events[..|events| - 1], events[|events| - 1];
      var s := Run(cfg, before);
      assert AllBuildable(Accepted(before)) by {
        assert forall i :: 0 <= i < |Accepted(before)| ==> Accepted(before)[i] == Accepted(events)[i];
      }
      BuildableRunsSurvive(cfg, before);
      DesiredIsReplay(cfg, before);
      hide Accepted, Replay, Run;
      assert AllBuildable(s.consumed) && (s.queue != [] ==> CanBuild(UpdateFor(s.queue[0]))) by {
        assert forall i :: 0 <= i < |s.consumed| ==> Accepted(before)[i] == s.consumed[i];
        assert s.queue != [] ==> Accepted(before)[|s.consumed|] == s.queue[0];
      }
      forall p | p in s.desired.active
        ensures Buildable(s.desired.active[p])
      {
        ReplayedAreBuildable(s.consumed, p);
      }
      StepSurvives(cfg, s, e);
    }
  }

  lemma {:induction false} FirstUnbuildable(cs: seq<Command>) returns (i: nat)
    requires !AllBuildable(cs)
    ensures i < |cs| && AllBuildable(cs[..i]) && !CanBuild(UpdateFor(cs[i]))
  {
    hide Buildable;
    i := 0;
    while CanBuild(UpdateFor(cs[i]))
      invariant i < |cs| && forall j :: 0 <= j < i && cs[j].Announce? ==> Buildable(cs[j].route)
      decreases |cs| - i
    {
      i := i + 1;
    }
  }

  /** No run over a list of commands panics exactly when every announce in it can be built. */
  lemma NoPanicExactly(cfg: PeerConfig, cs: seq<Command>)
    ensures (forall events :: Accepted(events) == cs ==> !Run(cfg, events).conn.Panicked?) <==> AllBuildable(cs)
  {
    hide Accepted, Run, AllBuildable, Step, Handshake, Enqueues, Takings, Ready;
    if AllBuildable(cs) {
      forall events | Accepted(events) == cs
        ensures !Run(cfg, events).conn.Panicked?
      {
        BuildableRunsSurvive(cfg, events);
      }
    } else {
      var i := FirstUnbuildable(cs);
      TakingsGoOut(cfg, cs, i);
      var events := Handshake(cfg) + Enqueues(cs) + Takings(i);
      OneFatalTaking(cfg, Run(cfg, events));
      RunMore(cfg, events, TakeCommand(true));
      AcceptedMore(events, TakeCommand(true));
    }
  }

  lemma OneFatalTaking(cfg: PeerConfig, s: State)
    requires Ready(cfg, s) && s.queue != [] && !CanBuild(UpdateFor(s.queue[0]))
    ensures Step(cfg, s, TakeCommand(true)).conn.Panicked?
  {
    hide NextFrame, Apply;
    EmptyBuffer();
  }

  /** So over commands that can all be built, every gate is one write or one count, in every family. */
  lemma BuildableIsWrittenOrCounted(cfg: PeerConfig, events: seq<Event>, safi: AnnounceSafi)
    requires AllBuildable(Accepted(events))
    ensures var s := Run(cfg, events);
            multiset(Gates(cfg, events))[safi] == SkipsOf(s.skips, safi) + Safis(s.updates)[safi]
  {
    hide Run, Gates, Safis, SkipsOf, AllBuildable, Accepted;
    BuildableRunsSurvive(cfg, events);
    EveryGateIsAccountedFor(cfg, events, safi);
  }
}
