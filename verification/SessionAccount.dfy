/** Every UPDATE the speaker means to send is written, counted as skipped, or the one it dies on. */
module SessionAccount {
  import opened Bytes
  import opened Framing
  import opened Net
  import opened Session

  /** The gate an event reaches, if it reaches one. */
  function GateOf(s: State, e: Event): seq<AnnounceSafi> {
    match e
    case ReannounceRoute(p, _) => if RouteDue(s, p) then [ForRoute(s.desired.active[p].prefix)] else []
    case ReannounceRule(k, _) => if RuleDue(s, k) then [ForFlowSpec(s.desired.flows[k].dst)] else []
    case TakeCommand(_) => if CommandDue(s) then [SafiOf(UpdateFor(s.queue[0]))] else []
    case _ => []
  }

  function Gates(cfg: PeerConfig, events: seq<Event>): seq<AnnounceSafi> {
    if events == [] then []
    else
      var before := events[..|events| - 1];
      Gates(cfg, before) + GateOf(Run(cfg, before), events[|events| - 1])
  }

  function SkipsOf(c: SkipCounts, safi: AnnounceSafi): nat {
    match safi
    case FlowSpecV4 => c.flowspecV4
    case FlowSpecV6 => c.flowspecV6
    case Ipv6Unicast => c.ipv6Unicast
    case Ipv4Unicast => 0
  }

  function Safis(ms: seq<OutMsg>): multiset<AnnounceSafi> {
    if ms == [] then multiset{}
    else
      var m := ms[|ms| - 1];
      Safis(ms[..|ms| - 1]) + if IsUpdate(m) then multiset{SafiOf(m)} else multiset{}
  }

  /** A gate passed: one count, one write or the panic, and only one of them. */
  ghost predicate OneOfThree(s: State, s': State, safi: AnnounceSafi) {
    || (safi != Ipv4Unicast && s'.skips == Record(s.skips, safi) && s'.updates == s.updates && !s'.conn.Panicked?)
    || (&& s'.skips == s.skips && |s'.updates| == |s.updates| + 1 && s'.updates[..|s.updates|] == s.updates
        && !s'.conn.Panicked?
        && var m := s'.updates[|s.updates|];
           && IsUpdate(m) && SafiOf(m) == safi
           && (s'.trace == s.trace + [Io.Sent(m)] || s'.trace == s.trace + [Io.Failed(m)]))
    || (s'.skips == s.skips && s'.updates == s.updates && s'.trace == s.trace && s'.conn.Panicked?)
  }

  lemma EmitIsOneOfThree(s: State, m: RawOut, written: bool)
    requires IsUpdate(m) && (s.conn.Reannouncing? || s.conn.Established?)
    ensures OneOfThree(s, Emit(s, s.conn.peer, m, written), SafiOf(m))
  {
  }

  lemma TakeCommandIsOneOfThree(s: State, written: bool)
    requires CommandDue(s)
    ensures OneOfThree(s, DoTakeCommand(s, written), SafiOf(UpdateFor(s.queue[0])))
  {
    hide NextFrame, Apply, Emit;
    EmitIsOneOfThree(Dequeue(s), UpdateFor(s.queue[0]), written);
  }

  lemma RouteIsOneOfThree(s: State, p: IpNet, written: bool)
    requires RouteDue(s, p)
    ensures OneOfThree(s, DoReannounceRoute(s, p, written), ForRoute(s.desired.active[p].prefix))
  {
    hide Emit;
    EmitIsOneOfThree(s.(conn := s.conn.(routes := s.conn.routes - {p})), AnnounceOut(s.desired.active[p]), written);
  }

  lemma RuleIsOneOfThree(s: State, k: seq<byte>, written: bool)
    requires RuleDue(s, k)
    ensures OneOfThree(s, DoReannounceRule(s, k, written), ForFlowSpec(s.desired.flows[k].dst))
  {
    hide Emit;
    EmitIsOneOfThree(s.(conn := s.conn.(rules := s.conn.rules - {k})), FlowAnnounceOut(s.desired.flows[k]), written);
  }

  /** A step that reaches no gate neither counts, writes an UPDATE nor panics. */
  lemma NoGateNothing(cfg: PeerConfig, s: State, e: Event)
    requires GateOf(s, e) == []
    ensures var s' := Step(cfg, s, e);
            s'.skips == s.skips && s'.updates == s.updates && s'.conn.Panicked? == s.conn.Panicked?
  {
    hide NextFrame, Apply, DoRead, DoTakeFrame, DoReannounceDone, Emit, HoldSecs, BackoffDelay;
    if e.TakeFrame? {
      TakeFrameIs(cfg, s, e.written);
    }
  }

  /** Reaching a gate is one write, one count or the panic; no gate, none. */
  lemma StepIsOneOfThree(cfg: PeerConfig, s: State, e: Event)
    ensures var s', gate := Step(cfg, s, e), GateOf(s, e);
            if gate == [] then
              s'.skips == s.skips && s'.updates == s.updates && s'.conn.Panicked? == s.conn.Panicked?
            else |gate| == 1 && !s.conn.Panicked? && OneOfThree(s, s', gate[0])
  {
    hide NextFrame, OneOfThree, DoReannounceRoute, DoReannounceRule, DoTakeCommand;
    if GateOf(s, e) == [] {
      NoGateNothing(cfg, s, e);
    } else {
      match e
      case ReannounceRoute(p, written) => RouteIsOneOfThree(s, p, written);
      case ReannounceRule(k, written) => RuleIsOneOfThree(s, k, written);
      case TakeCommand(written) => TakeCommandIsOneOfThree(s, written);
      case _ =>
    }
  }

  lemma StepSums(cfg: PeerConfig, s: State, e: Event, safi: AnnounceSafi)
    ensures var s', gate := Step(cfg, s, e), GateOf(s, e);
            SkipsOf(s'.skips, safi) + Safis(s'.updates)[safi] + (if gate == [safi] && s'.conn.Panicked? then 1 else 0) ==
            SkipsOf(s.skips, safi) + Safis(s.updates)[safi] + multiset(gate)[safi]
  {
    hide Step, Safis, IsUpdate, SafiOf;
    StepIsOneOfThree(cfg, s, e);
    var gate, s' := GateOf(s, e), Step(cfg, s, e);
    hide GateOf;
    if gate != [] {
      assert gate == [gate[0]] && multiset(gate) == multiset{gate[0]};
      if |s'.updates| > |s.updates| {
        SafisMore(s'.updates);
      }
    }
  }

  lemma SafisMore(ms: seq<OutMsg>)
    requires ms != [] && IsUpdate(ms[|ms| - 1])
    ensures Safis(ms) == Safis(ms[..|ms| - 1]) + multiset{SafiOf(ms[|ms| - 1])}
  {
  }

  function FatalIn(gates: seq<AnnounceSafi>, conn: Conn, safi: AnnounceSafi): nat {
    if conn.Panicked? && gates != [] && gates[|gates| - 1] == safi then 1 else 0
  }

  /** The gates of a family that ended in a panic: the last of the run, if the run panicked there. */
  function Fatal(cfg: PeerConfig, events: seq<Event>, safi: AnnounceSafi): nat {
    FatalIn(Gates(cfg, events), Run(cfg, events).conn, safi)
  }

  ghost predicate Balanced(gates: seq<AnnounceSafi>, s: State, safi: AnnounceSafi) {
    && multiset(gates)[safi] == SkipsOf(s.skips, safi) + Safis(s.updates)[safi] + FatalIn(gates, s.conn, safi)
    && (s.conn.Panicked? ==> gates != [])
  }

  lemma StepBalances(cfg: PeerConfig, s: State, e: Event, gates: seq<AnnounceSafi>, safi: AnnounceSafi)
    requires Balanced(gates, s, safi)
    ensures Balanced(gates + GateOf(s, e), Step(cfg, s, e), safi)
  {
    hide Step, GateOf, Safis, SkipsOf;
    var gate := GateOf(s, e);
    StepSums(cfg, s, e, safi);
    GateOrNot(cfg, s, e);
    if gate == [] {
      assert gates + gate == gates;
    } else {
      assert gate == [gate[0]] && (gates + gate)[|gates|] == gate[0];
    }
  }

  lemma {:induction false} RunBalances(cfg: PeerConfig, events: seq<Event>, safi: AnnounceSafi)
    ensures Balanced(Gates(cfg, events), Run(cfg, events), safi)
  {
    hide Step, GateOf, Balanced;
    if events == [] {
      NothingYet(cfg, safi);
    } else {
      var before, e := events[..|events| - 1], events[|events| - 1];
      RunBalances(cfg, before, safi);
      StepBalances(cfg, Run(cfg, before), e, Gates(cfg, before), safi);
    }
  }

  /**
   Over any run, per family, the gates reached are the skips counted, the writes attempted and, if the
   run panicked, the gate it panicked at. A run that panicked did so at a gate.
   */
  lemma EveryGateIsAccountedFor(cfg: PeerConfig, events: seq<Event>, safi: AnnounceSafi)
    ensures var s := Run(cfg, events);
            && multiset(Gates(cfg, events))[safi] ==
               SkipsOf(s.skips, safi) + Safis(s.updates)[safi] + Fatal(cfg, events, safi)
            && (s.conn.Panicked? ==> Gates(cfg, events) != [])
  {
    hide Run, Gates, Safis, SkipsOf;
    RunBalances(cfg, events, safi);
  }

  lemma NothingYet(cfg: PeerConfig, safi: AnnounceSafi)
    ensures Balanced(Gates(cfg, []), Run(cfg, []), safi)
  {
  }

  lemma GateOrNot(cfg: PeerConfig, s: State, e: Event)
    ensures GateOf(s, e) == [] ==> Step(cfg, s, e).conn.Panicked? == s.conn.Panicked?
    ensures GateOf(s, e) != [] ==> |GateOf(s, e)| == 1 && !s.conn.Panicked?
  {
    hide Step, GateOf;
    StepIsOneOfThree(cfg, s, e);
  }

  /** IPv4 unicast is never skipped: every gate is a write, or the panic. */
  lemma Ipv4IsNeverSkipped(cfg: PeerConfig, events: seq<Event>)
    ensures multiset(Gates(cfg, events))[Ipv4Unicast] ==
            Safis(Run(cfg, events).updates)[Ipv4Unicast] + Fatal(cfg, events, Ipv4Unicast)
  {
    hide Gates, Run, Safis, Fatal;
    EveryGateIsAccountedFor(cfg, events, Ipv4Unicast);
  }

  // ---- The order of re-announcement -----------------------------------------------------------------

  ghost predicate OrderInv(s: State) {
    s.conn.Reannouncing? ==> s.conn.routes == {} || s.conn.rules == s.desired.flows.Keys
  }

  lemma TakeFrameOrder(cfg: PeerConfig, s: State, written: bool)
    requires OrderInv(s)
    ensures OrderInv(DoTakeFrame(cfg, s, written))
  {
    hide NextFrame, HoldSecs, DoTakeFrame;
    TakeFrameIs(cfg, s, written);
  }

  lemma StepOrder(cfg: PeerConfig, s: State, e: Event)
    requires OrderInv(s)
    ensures OrderInv(Step(cfg, s, e))
  {
    hide NextFrame, Apply, HoldSecs, BackoffDelay, SafiOf, AnnounceAllowed, CanBuild, DoTakeFrame, DoReannounceDone;
    if e.TakeFrame? {
      TakeFrameOrder(cfg, s, e.written);
    }
  }

  /** On every run, no rule is taken up before every route has been. */
  lemma {:induction false} RoutesBeforeRules(cfg: PeerConfig, events: seq<Event>)
    ensures OrderInv(Run(cfg, events))
  {
    hide Step;
    if events == [] {
    } else {
      RoutesBeforeRules(cfg, events[..|events| - 1]);
      StepOrder(cfg, Run(cfg, events[..|events| - 1]), events[|events| - 1]);
    }
  }
}
