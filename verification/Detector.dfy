/** The threshold detector: observations in, detection events out, over all destinations. */
module Detector {
  import opened Arithmetic
  import opened Bytes
  import opened Wrappers
  import opened Net
  import opened Samples
  import opened Report
  import opened Window

  datatype Config = Config(prefixes: seq<IpNet>, th: Thresholds, factor: u32, agents: Registry)

  datatype Observation = Observation(
    src: IpAddr, dst: IpAddr, proto: byte, dstPort: u16, frameLen: u32, rate: u32, agent: IpAddr)

  datatype Event = Opened(d: Detection) | Updated(d: Detection) | Cleared(target: IpAddr, at: u64)

  type States = map<IpAddr, DstState>

  // ---- The sampling-rate clamp ---------------------------------------------------------------------

  function Floored(factor: u32): u32 {
    if factor < 4 then 4 else factor
  }

  function SatMul(x: u32, y: u32): u32 {
    if x * y <= U32_MAX then x * y else U32_MAX
  }

  predicate TooLow(expected: u32, rate: u32) {
    rate < expected / 4
  }

  predicate TooHigh(expected: u32, rate: u32) {
    !TooLow(expected, rate) && rate > SatMul(expected, 4)
  }

  function Trusted(expected: u32, factor: u32, rate: u32): u32 {
    if rate < SatMul(expected, factor) then rate else SatMul(expected, factor)
  }

  function EffectiveRate(agents: Registry, factor: u32, agent: IpAddr, rate: u32): u32 {
    if agent !in agents then rate
    else
      var expected := agents[agent].expected;
      if TooLow(expected, rate) then expected
      else if TooHigh(expected, rate) then Trusted(expected, factor, rate)
      else rate
  }

  lemma SatMulMono(expected: u32, factor: u32)
    requires expected * 4 <= expected * factor
    ensures expected <= SatMul(expected, 4) <= SatMul(expected, factor)
  {
  }

  /** A number, or the largest of 32 bits. */
  function In32(n: nat): u32 {
    if n <= 0xFFFF_FFFF then n else 0xFFFF_FFFF
  }

  /**
   A known agent's rate stays between a quarter of what is expected and a ceiling of `factor`, or 4 if that is
   more, times it; only outliers move.
   */
  lemma RateIsBounded(agents: Registry, factor: u32, agent: IpAddr, rate: u32)
    requires agent in agents
    ensures var expected, r := agents[agent].expected, EffectiveRate(agents, Floored(factor), agent, rate);
            var most := In32(expected * if factor > 4 then factor else 4);
            && expected / 4 <= r <= most
            && r == (if rate < expected / 4 then expected else if rate > most then most else rate)
  {
    var expected := agents[agent].expected;
    MulMono(expected, 4, Floored(factor));
    MulMono(expected, 1, 4);
    SatMulIs(expected, Floored(factor));
    hide SatMul;
    SatMulMono(expected, Floored(factor));
  }

  lemma SatMulIs(x: u32, y: u32)
    ensures x * y >= 0 && SatMul(x, y) == In32(x * y)
  {
    MulMono(x, 0, y);
  }

  /** The rate taken: a stranger's as it is, a known agent's replaced when far too low and capped when far too high. */
  function TakenRate(cfg: Config, obs: Observation): u32 {
    if obs.agent !in cfg.agents then obs.rate
    else
      var expected := cfg.agents[obs.agent].expected;
      MulMono(expected, 0, cfg.factor);
      if obs.rate < expected / 4 then expected
      else if obs.rate > In32(expected * 4) && obs.rate > In32(expected * cfg.factor) then In32(expected * cfg.factor)
      else obs.rate
  }

  /** What is recorded of an observation: packets by the rate, octets by the rate times a frame's length. */
  function Recorded(cfg: Config, obs: Observation, now: u64): Sample {
    var rate := TakenRate(cfg, obs);
    BytesFit(rate, obs.frameLen);
    Sample(now, obs.src, obs.dstPort, obs.proto, rate, rate * obs.frameLen, obs.agent)
  }

  lemma SampleIsRecorded(cfg: Config, obs: Observation, now: u64)
    ensures SampleOf(cfg, obs, now) == Recorded(cfg, obs, now)
  {
    if obs.agent in cfg.agents {
      var expected := cfg.agents[obs.agent].expected;
      SatMulIs(expected, 4);
      SatMulIs(expected, cfg.factor);
      hide SatMul;
    }
  }

  // ---- Specification of the two operations ----------------------------------------------------------

  function SampleOf(cfg: Config, obs: Observation, now: u64): Sample {
    var rate := EffectiveRate(cfg.agents, cfg.factor, obs.agent, obs.rate);
    BytesFit(rate, obs.frameLen);
    Sample(now, obs.src, obs.dstPort, obs.proto, rate, rate * obs.frameLen, obs.agent)
  }

  /** Packets times frame length fits 64 bits. */
  lemma BytesFit(rate: u32, len: u32)
    ensures 0 <= rate * len <= U64_MAX
  {
    MulMono(rate, len, U32_MAX);
  }

  function Observed(cfg: Config, st: States, obs: Observation, now: u64): States {
    if !Inside(cfg.prefixes, obs.dst) then st
    else
      var dst := if obs.dst in st then st[obs.dst] else NEW_DST;
      st[obs.dst := dst.(samples := dst.samples + [SampleOf(cfg, obs, now)])]
  }

  function TickedStates(cfg: Config, st: States, now: u64): States {
    map a | a in st && !EmitOf(cfg.th, st[a], now).Clears? :: After(cfg.th, st[a], now)
  }

  /** The destinations, among some, at which a tick opens a detection. */
  function Opening(cfg: Config, st: States, among: set<IpAddr>, now: u64): set<IpAddr> {
    set a | a in among && a in st && EmitOf(cfg.th, st[a], now).Opens?
  }

  function Clearing(cfg: Config, st: States, among: set<IpAddr>, now: u64): set<IpAddr> {
    set a | a in among && a in st && EmitOf(cfg.th, st[a], now).Clears?
  }

  function Suppressing(cfg: Config, st: States, among: set<IpAddr>, now: u64): set<IpAddr> {
    set a | a in among && a in st && Suppressed(cfg.th, Kept(st[a].samples, cfg.th.window, now))
  }

  function Target(e: Event): IpAddr {
    match e
    case Opened(d) => d.target
    case Updated(d) => d.target
    case Cleared(a, _) => a
  }

  ghost predicate Detects(cfg: Config, st: DstState, now: u64, a: IpAddr, first: u64, d: Detection) {
    var kept := Kept(st.samples, cfg.th.window, now);
    && d.target == a && d.firstSeen == first && d.lastSeen == now
    && Describes(cfg.agents, kept, Secs(cfg.th), d)
    && d.severity == SeverityOf(d.pps, d.bps, cfg.th.pps, cfg.th.bps)
  }

  /** The event a destination's state calls for. */
  ghost predicate Reports(cfg: Config, st: DstState, now: u64, a: IpAddr, e: Event) {
    match EmitOf(cfg.th, st, now)
    case Quiet => false
    case Opens(first) => e.Opened? && Detects(cfg, st, now, a, first, e.d)
    case Updates(first) => e.Updated? && Detects(cfg, st, now, a, first, e.d)
    case Clears => e == Cleared(a, now)
  }

  ghost predicate Mentioned(events: seq<Event>, a: IpAddr) {
    exists i :: 0 <= i < |events| && Target(events[i]) == a
  }

  /** One right event for every destination that calls for one, in any order, and no other event. */
  ghost predicate Reported(cfg: Config, st: States, done: set<IpAddr>, now: u64, events: seq<Event>) {
    && done <= st.Keys
    && (forall i :: 0 <= i < |events| ==> Target(events[i]) in done)
    && (forall i :: 0 <= i < |events| ==> Reports(cfg, st[Target(events[i])], now, Target(events[i]), events[i]))
    && (forall i, j :: 0 <= i < j < |events| ==> Target(events[i]) != Target(events[j]))
    && (forall a :: a in done && !EmitOf(cfg.th, st[a], now).Quiet? ==> Mentioned(events, a))
  }

  // ---- One destination --------------------------------------------------------------------------------

  method Detect(cfg: Config, a: IpAddr, kept: seq<Sample>, first: u64, now: u64, pps: real, bps: real) returns (d: Detection)
    requires pps == Pps(cfg.th, kept) && bps == Bps(cfg.th, kept)
    ensures d.target == a && d.firstSeen == first && d.lastSeen == now && Describes(cfg.agents, kept, Secs(cfg.th), d)
    ensures d.severity == SeverityOf(d.pps, d.bps, cfg.th.pps, cfg.th.bps)
  {
    d := BuildDetection(cfg.agents, kept, Secs(cfg.th), a, pps, bps, cfg.th.pps, cfg.th.bps, first, now);
  }

  /** The body of the tick's loop. */
  method TickOne(cfg: Config, a: IpAddr, st: DstState, now: u64)
    returns (st': DstState, event: Option<Event>, suppressed: bool)
    ensures st' == After(cfg.th, st, now)
    ensures CalledFor(cfg, st, now, a, event)
    ensures suppressed <==> Suppressed(cfg.th, Kept(st.samples, cfg.th.window, now))
  {
    hide Describes, Kept;
    var th := cfg.th;
    var kept := Kept(st.samples, th.window, now);
    st', event, suppressed := st.(samples := kept), None, false;
    if kept == [] {
      if st.open && HeldDown(th, st.lastOver, now) {
        event := Some(Cleared(a, now));
      }
      return;
    }
    var packets := Total(kept, PacketsOf);
    var bytes := Total(kept, BytesOf);
    var pps := packets as real / Secs(th);
    var bps := bytes as real * 8.0 / Secs(th);
    var rateOver := pps > th.pps || bps > th.bps;
    var over := rateOver && |kept| >= th.minSamples;
    suppressed := rateOver && !over;
    if over {
      st' := st'.(lastOver := now);
      if st.open {
        var d := Detect(cfg, a, kept, st.firstSeen, now, pps, bps);
        event := Some(Updated(d));
      } else {
        st' := st'.(open := true, firstSeen := now);
        var d := Detect(cfg, a, kept, now, now, pps, bps);
        event := Some(Opened(d));
      }
    } else if st.open && HeldDown(th, st.lastOver, now) {
      event := Some(Cleared(a, now));
    }
  }

  // ---- All destinations --------------------------------------------------------------------------------

  function SatCount(n: nat): u64 {
    if n <= U64_MAX then n else U64_MAX
  }

  /** A saturating counter. */
  function CountIf(n: u64, b: bool): u64 {
    if b then SatCount(n + 1) else n
  }

  predicate IsOpened(event: Option<Event>) {
    event.Some? && event.value.Opened?
  }

  predicate IsCleared(event: Option<Event>) {
    event.Some? && event.value.Cleared?
  }

  function Append(events: seq<Event>, event: Option<Event>): seq<Event> {
    if event.Some? then events + [event.value] else events
  }

  /** The event, if any, that a destination's state calls for. */
  ghost predicate CalledFor(cfg: Config, st: DstState, now: u64, a: IpAddr, event: Option<Event>) {
    if EmitOf(cfg.th, st, now).Quiet? then event.None? else event.Some? && Reports(cfg, st, now, a, event.value)
  }

  lemma ReportedStep(
    cfg: Config, st: States, done: set<IpAddr>, now: u64, events: seq<Event>, a: IpAddr, event: Option<Event>)
    requires Reported(cfg, st, done, now, events) && a in st && a !in done && CalledFor(cfg, st[a], now, a, event)
    ensures Reported(cfg, st, done + {a}, now, Append(events, event))
  {
    hide Describes, EmitOf;
    if event.Some? {
      var all := events + [event.value];
      assert Target(event.value) == a by { TargetIsSubject(cfg, st[a], now, a, event.value); }
      hide Reports;
      assert all[|events|] == event.value;
      forall b | b in done + {a} && !EmitOf(cfg.th, st[b], now).Quiet?
        ensures Mentioned(all, b)
      {
        if b in done {
          var i :| 0 <= i < |events| && Target(events[i]) == b;
          assert Target(all[i]) == b;
        }
      }
    }
  }

  lemma TargetIsSubject(cfg: Config, st: DstState, now: u64, a: IpAddr, e: Event)
    requires Reports(cfg, st, now, a, e)
    ensures Target(e) == a
  {
  }

  lemma OpeningStep(cfg: Config, st: States, done: set<IpAddr>, a: IpAddr, now: u64)
    requires a in st && a !in done
    ensures var s, s' := Opening(cfg, st, done, now), Opening(cfg, st, done + {a}, now);
            && s' == s + (if EmitOf(cfg.th, st[a], now).Opens? then {a} else {})
            && SatCount(|s'|) == CountIf(SatCount(|s|), EmitOf(cfg.th, st[a], now).Opens?)
  {
    hide EmitOf, Suppressed;
    var s, s' := Opening(cfg, st, done, now), Opening(cfg, st, done + {a}, now);
    assert s' == s + if EmitOf(cfg.th, st[a], now).Opens? then {a} else {};
  }

  lemma ClearingStep(cfg: Config, st: States, done: set<IpAddr>, a: IpAddr, now: u64)
    requires a in st && a !in done
    ensures var s, s' := Clearing(cfg, st, done, now), Clearing(cfg, st, done + {a}, now);
            && s' == s + (if EmitOf(cfg.th, st[a], now).Clears? then {a} else {})
            && SatCount(|s'|) == CountIf(SatCount(|s|), EmitOf(cfg.th, st[a], now).Clears?)
  {
    hide EmitOf, Suppressed;
    var s, s' := Clearing(cfg, st, done, now), Clearing(cfg, st, done + {a}, now);
    assert s' == s + if EmitOf(cfg.th, st[a], now).Clears? then {a} else {};
  }

  lemma SuppressingStep(cfg: Config, st: States, done: set<IpAddr>, a: IpAddr, now: u64)
    requires a in st && a !in done
    ensures var s, s' := Suppressing(cfg, st, done, now), Suppressing(cfg, st, done + {a}, now);
            && s' == s + (if Suppressed(cfg.th, Kept(st[a].samples, cfg.th.window, now)) then {a} else {})
            && SatCount(|s'|) == CountIf(SatCount(|s|), Suppressed(cfg.th, Kept(st[a].samples, cfg.th.window, now)))
  {
    hide EmitOf, Suppressed;
    var s, s' := Suppressing(cfg, st, done, now), Suppressing(cfg, st, done + {a}, now);
    assert s' == s + if Suppressed(cfg.th, Kept(st[a].samples, cfg.th.window, now)) then {a} else {};
  }

  ghost predicate Advanced(cfg: Config, st: States, done: set<IpAddr>, now: u64, st': States) {
    && done <= st.Keys == st'.Keys
    && (forall a :: a in st ==> st'[a] == if a in done then After(cfg.th, st[a], now) else st[a])
  }

  lemma AdvancedStep(cfg: Config, st: States, done: set<IpAddr>, now: u64, st': States, a: IpAddr)
    requires Advanced(cfg, st, done, now, st') && a in st
    ensures Advanced(cfg, st, done + {a}, now, st'[a := After(cfg.th, st[a], now)])
  {
    hide After;
  }

  /** Where the tick stands once it has visited `done`. */
  ghost predicate Swept(
    cfg: Config, st: States, done: set<IpAddr>, now: u64,
    st': States, events: seq<Event>, suppressed: u64, openings: u64, clearings: u64)
  {
    && Advanced(cfg, st, done, now, st')
    && Reported(cfg, st, done, now, events)
    && suppressed == SatCount(|Suppressing(cfg, st, done, now)|)
    && openings == SatCount(|Opening(cfg, st, done, now)|)
    && clearings == SatCount(|Clearing(cfg, st, done, now)|)
  }

  lemma SweptStep(
    cfg: Config, st: States, done: set<IpAddr>, now: u64,
    st': States, events: seq<Event>, suppressed: u64, openings: u64, clearings: u64,
    a: IpAddr, event: Option<Event>, below: bool)
    requires Swept(cfg, st, done, now, st', events, suppressed, openings, clearings) && a in st && a !in done
    requires CalledFor(cfg, st[a], now, a, event)
    requires below <==> Suppressed(cfg.th, Kept(st[a].samples, cfg.th.window, now))
    ensures Swept(cfg, st, done + {a}, now, st'[a := After(cfg.th, st[a], now)], Append(events, event),
                  CountIf(suppressed, below), CountIf(openings, IsOpened(event)), CountIf(clearings, IsCleared(event)))
    ensures Clearing(cfg, st, done + {a}, now) == Clearing(cfg, st, done, now) + if IsCleared(event) then {a} else {}
  {
    hide Reported, Opening, Clearing, Suppressing, Kept, After, CalledFor, Reports, EmitOf, Suppressed;
    hide SatCount, CountIf, Append, IsOpened, IsCleared, Advanced;
    AdvancedStep(cfg, st, done, now, st', a);
    ReportedStep(cfg, st, done, now, events, a, event);
    KindOfEvent(cfg, st[a], now, a, event);
    OpeningStep(cfg, st, done, a, now);
    ClearingStep(cfg, st, done, a, now);
    SuppressingStep(cfg, st, done, a, now);
  }

  /** The loop over the tracked destinations, then the removal of the cleared ones. */
  method TickAll(cfg: Config, st: States, now: u64)
    returns (st': States, events: seq<Event>, suppressed: u64, openings: u64, clearings: u64)
    ensures st' == TickedStates(cfg, st, now)
    ensures Reported(cfg, st, st.Keys, now, events)
    ensures suppressed == SatCount(|Suppressing(cfg, st, st.Keys, now)|)
    ensures openings == SatCount(|Opening(cfg, st, st.Keys, now)|)
    ensures clearings == SatCount(|Clearing(cfg, st, st.Keys, now)|)
  {
    hide Reported, CalledFor, Reports, EmitOf, After, Suppressed, Suppressing, Opening, Clearing, TickedStates, Kept;
    hide Swept, Append, CountIf, IsOpened, IsCleared, SatCount;
    st', events, suppressed, openings, clearings := st, [], 0, 0, 0;
    var toRemove, todo := {}, st.Keys;
    ghost var done: set<IpAddr> := {};
    NothingSwept(cfg, st, now);
    while todo != {}
      invariant todo <= st.Keys && done == st.Keys - todo
      invariant Swept(cfg, st, done, now, st', events, suppressed, openings, clearings)
      invariant toRemove == Clearing(cfg, st, done, now)
      decreases |todo|
    {
      var a :| a in todo;
      NotYetSwept(cfg, st, done, now, st', events, suppressed, openings, clearings, a);
      var dst, event, below := TickOne(cfg, a, st'[a], now);
      SweptStep(cfg, st, done, now, st', events, suppressed, openings, clearings, a, event, below);
      st', events := st'[a := dst], Append(events, event);
      suppressed := CountIf(suppressed, below);
      openings := CountIf(openings, IsOpened(event));
      clearings := CountIf(clearings, IsCleared(event));
      toRemove := toRemove + if IsCleared(event) then {a} else {};
      todo, done := todo - {a}, done + {a};
    }
    assert done == st.Keys;
    AllSwept(cfg, st, now, st', events, suppressed, openings, clearings);
    st' := st' - toRemove;
  }

  lemma NothingSwept(cfg: Config, st: States, now: u64)
    ensures Swept(cfg, st, {}, now, st, [], 0, 0, 0) && Clearing(cfg, st, {}, now) == {}
  {
    NothingReported(cfg, st, now);
    hide Reported, Opening, Clearing, Suppressing, After;
  }

  lemma NothingReported(cfg: Config, st: States, now: u64)
    ensures Reported(cfg, st, {}, now, [])
    ensures Opening(cfg, st, {}, now) == Clearing(cfg, st, {}, now) == Suppressing(cfg, st, {}, now) == {}
  {
  }

  lemma NotYetSwept(
    cfg: Config, st: States, done: set<IpAddr>, now: u64,
    st': States, events: seq<Event>, suppressed: u64, openings: u64, clearings: u64, a: IpAddr)
    requires Swept(cfg, st, done, now, st', events, suppressed, openings, clearings) && a in st && a !in done
    ensures a in st' && st'[a] == st[a]
  {
  }

  lemma AllSwept(
    cfg: Config, st: States, now: u64,
    st': States, events: seq<Event>, suppressed: u64, openings: u64, clearings: u64)
    requires Swept(cfg, st, st.Keys, now, st', events, suppressed, openings, clearings)
    ensures st' - Clearing(cfg, st, st.Keys, now) == TickedStates(cfg, st, now)
    ensures Reported(cfg, st, st.Keys, now, events)
    ensures suppressed == SatCount(|Suppressing(cfg, st, st.Keys, now)|)
    ensures openings == SatCount(|Opening(cfg, st, st.Keys, now)|)
    ensures clearings == SatCount(|Clearing(cfg, st, st.Keys, now)|)
  {
    hide Reported, Opening, Clearing, Suppressing, After, TickedStates, SatCount;
    Removed(cfg, st, now, st' - Clearing(cfg, st, st.Keys, now));
  }

  lemma Removed(cfg: Config, st: States, now: u64, st': States)
    requires st'.Keys == st.Keys - Clearing(cfg, st, st.Keys, now)
    requires forall a :: a in st' ==> st'[a] == After(cfg.th, st[a], now)
    ensures st' == TickedStates(cfg, st, now)
  {
    hide EmitOf, After;
  }

  lemma KindOfEvent(cfg: Config, st: DstState, now: u64, a: IpAddr, event: Option<Event>)
    requires CalledFor(cfg, st, now, a, event)
    ensures EmitOf(cfg.th, st, now).Opens? <==> IsOpened(event)
    ensures EmitOf(cfg.th, st, now).Clears? <==> IsCleared(event)
  {
  }

  // ---- Runs ----------------------------------------------------------------------------------------------

  datatype Op = Observe(obs: Observation, at: u64) | Tick(now: u64)

  function StatesAfter(cfg: Config, ops: seq<Op>): States {
    if ops == [] then map[]
    else
      var st := StatesAfter(cfg, ops[..|ops| - 1]);
      match ops[|ops| - 1]
      case Observe(obs, at) => Observed(cfg, st, obs, at)
      case Tick(now) => TickedStates(cfg, st, now)
  }

  /** What a run looks like from one destination. */
  function HistoryOf(cfg: Config, ops: seq<Op>, a: IpAddr): seq<Moment> {
    if ops == [] then []
    else
      HistoryOf(cfg, ops[..|ops| - 1], a) +
      match ops[|ops| - 1]
      case Observe(obs, at) => if obs.dst == a && Inside(cfg.prefixes, a) then [Saw(Recorded(cfg, obs, at))] else []
      case Tick(now) => [Ticked(now)]
  }

  function Look(st: States, a: IpAddr): Option<DstState> {
    if a in st then Some(st[a]) else None
  }

  /** Destinations do not interact: each runs on its own history. */
  lemma {:induction false} DestinationsAreIndependent(cfg: Config, ops: seq<Op>, a: IpAddr)
    ensures Look(StatesAfter(cfg, ops), a) == StateAfter(cfg.th, HistoryOf(cfg, ops, a))
  {
    hide EmitOf, After, Inside, SampleOf, Recorded, HistoryOf, StateAfter;
    if ops == [] {
      StartsSilent(cfg, a);
    } else {
      DestinationsAreIndependent(cfg, ops[..|ops| - 1], a);
      HistoryMore(cfg, ops, a);
      if ops[|ops| - 1].Observe? {
        SampleIsRecorded(cfg, ops[|ops| - 1].obs, ops[|ops| - 1].at);
      }
    }
  }

  /** One more operation is one more moment, or none. */
  lemma HistoryMore(cfg: Config, ops: seq<Op>, a: IpAddr)
    requires ops != []
    ensures var h, op := HistoryOf(cfg, ops[..|ops| - 1], a), ops[|ops| - 1];
            var h' := HistoryOf(cfg, ops, a);
            match op
            case Observe(obs, at) =>
              if obs.dst == a && Inside(cfg.prefixes, a)
              then StateAfter(cfg.th, h') == Next(cfg.th, StateAfter(cfg.th, h), Saw(Recorded(cfg, obs, at)))
                   && Emits(cfg.th, h') == Emits(cfg.th, h)
              else h' == h
            case Tick(now) =>
              && StateAfter(cfg.th, h') == Next(cfg.th, StateAfter(cfg.th, h), Ticked(now))
              && Emits(cfg.th, h') == Emits(cfg.th, h) +
                 if Said(cfg.th, StateAfter(cfg.th, h), now).Quiet? then [] else [Said(cfg.th, StateAfter(cfg.th, h), now)]
  {
    hide Next, Said, Inside, Recorded;
    var h, op := HistoryOf(cfg, ops[..|ops| - 1], a), ops[|ops| - 1];
    match op
    case Observe(obs, at) =>
      assert (h + [Saw(Recorded(cfg, obs, at))])[..|h|] == h;
      assert h + [] == h;
    case Tick(now) =>
      assert (h + [Ticked(now)])[..|h|] == h;
      assert Emits(cfg.th, h) + [] == Emits(cfg.th, h);
  }

  ghost predicate TicksAscend(ops: seq<Op>, now: u64) {
    && (forall i :: 0 <= i < |ops| && ops[i].Tick? ==> ops[i].now <= now)
    && (forall i, j :: 0 <= i < j < |ops| && ops[i].Tick? && ops[j].Tick? ==> ops[i].now <= ops[j].now)
  }

  lemma {:induction false} HistoryIsOrdered(cfg: Config, ops: seq<Op>, a: IpAddr, now: u64)
    requires TicksAscend(ops, now)
    ensures Ordered(HistoryOf(cfg, ops, a) + [Ticked(now)])
  {
    hide Inside, Recorded;
    if ops == [] {
    } else {
      var before, op := ops[..|ops| - 1], ops[|ops| - 1];
      var h := HistoryOf(cfg, before, a);
      assert forall i :: 0 <= i < |before| ==> before[i] == ops[i];
      match op
      case Observe(obs, at) =>
        HistoryIsOrdered(cfg, before, a, now);
        assert h + [] == h;
        Insert(h, Saw(Recorded(cfg, obs, at)), now);
      case Tick(t) =>
        HistoryIsOrdered(cfg, before, a, t);
        Extend(h, t, now);
    }
  }

  /** Over a whole run with ascending ticks, every tick says of every destination what its history says. */
  lemma TickSaysWhatHistorySays(cfg: Config, ops: seq<Op>, a: IpAddr, now: u64)
    requires TicksAscend(ops, now)
    ensures Said(cfg.th, Look(StatesAfter(cfg, ops), a), now) ==
            DirectEmit(cfg.th, Episode(cfg.th, HistoryOf(cfg, ops, a)), now)
  {
    DestinationsAreIndependent(cfg, ops, a);
    HistoryIsOrdered(cfg, ops, a, now);
    EvictionIsInvisible(cfg.th, HistoryOf(cfg, ops, a), now);
  }

  /** And it counts as suppressed exactly those whose history is fast on too few samples. */
  lemma SuppressesWhatHistorySays(cfg: Config, ops: seq<Op>, a: IpAddr, now: u64)
    requires TicksAscend(ops, now)
    ensures var st, e := StatesAfter(cfg, ops), Episode(cfg.th, HistoryOf(cfg, ops, a));
            a in Suppressing(cfg, st, st.Keys, now) <==>
            1 <= CountIn(SamplesOf(e), cfg.th.window, now) < cfg.th.minSamples && FastAt(cfg.th, e, now)
  {
    hide StatesAfter, HistoryOf, Episode, Kept, SamplesOf, Suppressed, FastAt, CountIn;
    var h := HistoryOf(cfg, ops, a);
    DestinationsAreIndependent(cfg, ops, a);
    HistoryIsOrdered(cfg, ops, a, now);
    EvictionIsInvisible(cfg.th, h, now);
    OverIsDirect(cfg.th, Episode(cfg.th, h), now);
    if a !in StatesAfter(cfg, ops) {
      UntrackedSawNothing(cfg, h, now);
    }
  }

  lemma UntrackedSawNothing(cfg: Config, h: seq<Moment>, now: u64)
    requires Ordered(h + [Ticked(now)]) && StateAfter(cfg.th, h).None?
    ensures CountIn(SamplesOf(Episode(cfg.th, h)), cfg.th.window, now) == 0
  {
    hide StateAfter, Episode;
    LastTickIsLatest(h, now);
    RunRefines(cfg.th, h);
  }

  function SaidIn(cfg: Config, ops: seq<Op>, a: IpAddr): seq<Emit> {
    if ops == [] then []
    else
      var before, op := ops[..|ops| - 1], ops[|ops| - 1];
      if op.Tick? && !Said(cfg.th, Look(StatesAfter(cfg, before), a), op.now).Quiet?
      then SaidIn(cfg, before, a) + [Said(cfg.th, Look(StatesAfter(cfg, before), a), op.now)]
      else SaidIn(cfg, before, a)
  }

  lemma {:induction false} SaidIsEmitted(cfg: Config, ops: seq<Op>, a: IpAddr)
    ensures SaidIn(cfg, ops, a) == Emits(cfg.th, HistoryOf(cfg, ops, a))
  {
    hide Said, Next, StateAfter, StatesAfter, HistoryOf, Emits, Inside, Recorded;
    if ops == [] {
      StartsSilent(cfg, a);
    } else {
      var before := ops[..|ops| - 1];
      SaidIsEmitted(cfg, before, a);
      DestinationsAreIndependent(cfg, before, a);
      HistoryMore(cfg, ops, a);
      assert SaidIn(cfg, before, a) + [] == SaidIn(cfg, before, a);
    }
  }

  lemma StartsSilent(cfg: Config, a: IpAddr)
    ensures SaidIn(cfg, [], a) == Emits(cfg.th, HistoryOf(cfg, [], a)) == []
    ensures Look(StatesAfter(cfg, []), a) == StateAfter(cfg.th, HistoryOf(cfg, [], a))
  {
  }

  /** On every run, the events of every destination form whole episodes, the last one possibly open. */
  lemma RunIsEpisodes(cfg: Config, ops: seq<Op>, a: IpAddr)
    ensures Lifecycle(SaidIn(cfg, ops, a)) && InStep(Look(StatesAfter(cfg, ops), a), SaidIn(cfg, ops, a))
  {
    SaidIsEmitted(cfg, ops, a);
    DestinationsAreIndependent(cfg, ops, a);
    EventsAreEpisodes(cfg.th, HistoryOf(cfg, ops, a));
  }

  /** On every run with ascending ticks, no destination is cleared within the hold-down of an over tick. */
  lemma RunHoldsDown(cfg: Config, ops: seq<Op>, a: IpAddr, now: u64)
    requires TicksAscend(ops, now) && Said(cfg.th, Look(StatesAfter(cfg, ops), a), now).Clears?
    ensures forall t :: t in OverTimes(cfg.th, Episode(cfg.th, HistoryOf(cfg, ops, a))) ==> t + cfg.th.holdDown <= now
  {
    DestinationsAreIndependent(cfg, ops, a);
    HistoryIsOrdered(cfg, ops, a, now);
    HoldDownIsKept(cfg.th, HistoryOf(cfg, ops, a), now);
  }

  // ---- The events returned ------------------------------------------------------------------------------------

  /** What one call returns: an observation nothing, a tick what the states call for. */
  ghost predicate Returns(cfg: Config, st: States, op: Op, out: seq<Event>) {
    match op
    case Observe(_, _) => out == []
    case Tick(now) => Reported(cfg, st, st.Keys, now, out)
  }

  /** `outs` are the events the calls `ops` returned, call by call. */
  ghost predicate Returned(cfg: Config, ops: seq<Op>, outs: seq<seq<Event>>) {
    && |outs| == |ops|
    && (ops == [] ||
        var n := |ops| - 1;
        Returned(cfg, ops[..n], outs[..n]) && Returns(cfg, StatesAfter(cfg, ops[..n]), ops[n], outs[n]))
  }

  lemma ReturnedMore(cfg: Config, ops: seq<Op>, outs: seq<seq<Event>>, op: Op, out: seq<Event>)
    requires Returned(cfg, ops, outs) && Returns(cfg, StatesAfter(cfg, ops), op, out)
    ensures Returned(cfg, ops + [op], outs + [out])
  {
    hide Returns, StatesAfter;
    assert (ops + [op])[..|ops|] == ops && (outs + [out])[..|ops|] == outs;
  }

  lemma {:induction false} ReturnedAt(cfg: Config, ops: seq<Op>, outs: seq<seq<Event>>, i: nat)
    requires Returned(cfg, ops, outs) && i < |ops|
    ensures Returns(cfg, StatesAfter(cfg, ops[..i]), ops[i], outs[i])
  {
    hide Returns, StatesAfter;
    var n := |ops| - 1;
    if i < n {
      ReturnedAt(cfg, ops[..n], outs[..n], i);
      assert ops[..n][..i] == ops[..i];
    }
  }

  /** The events about one destination. */
  function About(events: seq<Event>, a: IpAddr): seq<Event> {
    if events == [] then []
    else
      var e := events[|events| - 1];
      About(events[..|events| - 1], a) + if Target(e) == a then [e] else []
  }

  function AllAbout(outs: seq<seq<Event>>, a: IpAddr): seq<Event> {
    if outs == [] then [] else AllAbout(outs[..|outs| - 1], a) + About(outs[|outs| - 1], a)
  }

  function EmitIn(e: Event): Emit {
    match e
    case Opened(d) => Opens(d.firstSeen)
    case Updated(d) => Updates(d.firstSeen)
    case Cleared(_, _) => Clears
  }

  function EmitsIn(events: seq<Event>): (es: seq<Emit>)
    ensures |es| == |events| && forall i :: 0 <= i < |es| ==> es[i] == EmitIn(events[i])
  {
    seq(|events|, i requires 0 <= i < |events| => EmitIn(events[i]))
  }

  lemma {:induction false} AboutNobody(events: seq<Event>, a: IpAddr)
    requires !Mentioned(events, a)
    ensures About(events, a) == []
  {
    if events == [] {
    } else {
      var before := events[..|events| - 1];
      assert forall i :: 0 <= i < |before| ==> before[i] == events[i];
      assert Target(events[|events| - 1]) != a;
      AboutNobody(before, a);
    }
  }

  lemma {:induction false} AboutOne(events: seq<Event>, a: IpAddr, i: nat)
    requires i < |events| && Target(events[i]) == a
    requires forall j, k :: 0 <= j < k < |events| ==> Target(events[j]) != Target(events[k])
    ensures About(events, a) == [events[i]]
  {
    var n := |events| - 1;
    var before := events[..n];
    assert forall j :: 0 <= j < n ==> before[j] == events[j];
    if i < n {
      AboutOne(before, a, i);
    } else {
      AboutNobody(before, a);
    }
  }

  /** A tick returns one right event about a destination that calls for one, and none about any other. */
  lemma AboutReported(cfg: Config, st: States, now: u64, events: seq<Event>, a: IpAddr)
    requires Reported(cfg, st, st.Keys, now, events)
    ensures EmitsIn(About(events, a)) ==
            var said := Said(cfg.th, Look(st, a), now); if said.Quiet? then [] else [said]
  {
    hide Describes, About;
    if Mentioned(events, a) {
      var i :| 0 <= i < |events| && Target(events[i]) == a;
      AboutOne(events, a, i);
      assert Reports(cfg, st[a], now, a, events[i]);
      KindsAgree(cfg, st[a], now, a, events[i]);
    } else {
      AboutNobody(events, a);
    }
  }

  lemma KindsAgree(cfg: Config, st: DstState, now: u64, a: IpAddr, e: Event)
    requires Reports(cfg, st, now, a, e)
    ensures EmitIn(e) == EmitOf(cfg.th, st, now)
  {
  }

  /** On every run, the events returned about a destination are, in kind and order, what the states call for. */
  lemma {:induction false} ReturnedAreSaid(cfg: Config, ops: seq<Op>, outs: seq<seq<Event>>, a: IpAddr)
    requires Returned(cfg, ops, outs)
    ensures EmitsIn(AllAbout(outs, a)) == SaidIn(cfg, ops, a)
  {
    hide Reported, Said, StatesAfter, About;
    if ops == [] {
    } else {
      var n := |ops| - 1;
      ReturnedAreSaid(cfg, ops[..n], outs[..n], a);
      var st, before, out := StatesAfter(cfg, ops[..n]), AllAbout(outs[..n], a), About(outs[n], a);
      match ops[n]
      case Observe(_, _) =>
        NothingAbout(a);
        assert before + [] == before;
      case Tick(now) =>
        AboutReported(cfg, st, now, outs[n], a);
        assert EmitsIn(before + out) == EmitsIn(before) + EmitsIn(out);
    }
  }

  lemma NothingAbout(a: IpAddr)
    ensures About([], a) == []
  {
  }

  /** On every run, the events returned about a destination form whole episodes, the last one possibly open. */
  lemma ReturnedAreEpisodes(cfg: Config, ops: seq<Op>, outs: seq<seq<Event>>, a: IpAddr)
    requires Returned(cfg, ops, outs)
    ensures Lifecycle(EmitsIn(AllAbout(outs, a)))
    ensures InStep(Look(StatesAfter(cfg, ops), a), EmitsIn(AllAbout(outs, a)))
  {
    hide Returned, AllAbout, EmitsIn, SaidIn, StatesAfter, Lifecycle, InStep;
    ReturnedAreSaid(cfg, ops, outs, a);
    RunIsEpisodes(cfg, ops, a);
  }

  /**
   On every run with ascending ticks, an event returned is the one the whole history since the last clear
   calls for, and a detection describes exactly the samples of that history still in the window.
   */
  lemma ReturnedDescribeTheEpisode(cfg: Config, ops: seq<Op>, outs: seq<seq<Event>>, i: nat, e: Event)
    requires Returned(cfg, ops, outs) && i < |ops| == |outs| && e in outs[i]
    requires ops[i].Tick? ==> TicksAscend(ops[..i], ops[i].now)
    ensures ops[i].Tick?
    ensures var now, episode := ops[i].now, Episode(cfg.th, HistoryOf(cfg, ops[..i], Target(e)));
            && EmitIn(e) == DirectEmit(cfg.th, episode, now)
            && (e.Cleared? ==> e.at == now)
            && (!e.Cleared? ==>
                  && e.d.lastSeen == now && e.d.severity == SeverityOf(e.d.pps, e.d.bps, cfg.th.pps, cfg.th.bps)
                  && Describes(cfg.agents, Kept(SamplesOf(episode), cfg.th.window, now), Secs(cfg.th), e.d))
  {
    hide Describes, Episode, HistoryOf, StatesAfter, DirectEmit, Kept, SamplesOf, StateAfter, Returned, EmitOf;
    ReturnedAt(cfg, ops, outs, i);
    var st, now, a := StatesAfter(cfg, ops[..i]), ops[i].now, Target(e);
    var k :| 0 <= k < |outs[i]| && outs[i][k] == e;
    assert a in st && Reports(cfg, st[a], now, a, e);
    KindsAgree(cfg, st[a], now, a, e);
    DetectsWindow(cfg, st[a], now, a, e);
    hide Reported, Reports;
    TickSaysWhatHistorySays(cfg, ops[..i], a, now);
    DestinationsAreIndependent(cfg, ops[..i], a);
    HistoryIsOrdered(cfg, ops[..i], a, now);
    EvictionIsInvisible(cfg.th, HistoryOf(cfg, ops[..i], a), now);
  }

  /** So the rates returned are the packets times 1000 and the octets times 8000, over the window in milliseconds. */
  lemma ReturnedRates(cfg: Config, ops: seq<Op>, outs: seq<seq<Event>>, i: nat, e: Event)
    requires Returned(cfg, ops, outs) && i < |ops| == |outs| && e in outs[i] && !e.Cleared?
    requires ops[i].Tick? ==> TicksAscend(ops[..i], ops[i].now)
    ensures ops[i].Tick?
    ensures var now, ss := ops[i].now, SamplesOf(Episode(cfg.th, HistoryOf(cfg, ops[..i], Target(e))));
            var span := (if cfg.th.window == 0 then 1 else cfg.th.window) as real;
            && e.d.pps * span == In128(PacketsIn(ss, cfg.th.window, now)) as real * 1000.0
            && e.d.bps * span == In128(OctetsIn(ss, cfg.th.window, now)) as real * 8000.0
            && e.d.severity == SeverityOf(e.d.pps, e.d.bps, cfg.th.pps, cfg.th.bps)
  {
    hide Episode, HistoryOf, SamplesOf, Returned, DirectEmit, SeverityOf, Describes, Kept, PacketsIn, OctetsIn, In128;
    ReturnedDescribeTheEpisode(cfg, ops, outs, i, e);
    DescribedRates(cfg, SamplesOf(Episode(cfg.th, HistoryOf(cfg, ops[..i], Target(e)))), ops[i].now, e.d);
  }

  lemma DescribedRates(cfg: Config, ss: seq<Sample>, now: u64, d: Detection)
    requires Describes(cfg.agents, Kept(ss, cfg.th.window, now), Secs(cfg.th), d)
    ensures var span := (if cfg.th.window == 0 then 1 else cfg.th.window) as real;
            && d.pps * span == In128(PacketsIn(ss, cfg.th.window, now)) as real * 1000.0
            && d.bps * span == In128(OctetsIn(ss, cfg.th.window, now)) as real * 8000.0
  {
    hide Kept, IsTop, HasPops, IsDominant, PacketsIn, OctetsIn, Sum, Secs, Cap, In128;
    var packets, octets := PacketsIn(ss, cfg.th.window, now), OctetsIn(ss, cfg.th.window, now);
    KeptAddsUp(ss, cfg.th.window, now);
    SaturatesAlike(packets);
    SaturatesAlike(octets);
    SpanTimes(In128(packets) as real, cfg.th);
    SpanTimes(In128(octets) as real * 8.0, cfg.th);
  }

  lemma SpanTimes(x: real, th: Thresholds)
    ensures x / Secs(th) * (if th.window == 0 then 1 else th.window) as real == x * 1000.0
  {
    var span := (if th.window == 0 then 1 else th.window) as real;
    assert Secs(th) == span / 1000.0;
    assert x / (span / 1000.0) * (span / 1000.0) == x;
    assert x / (span / 1000.0) * span == x / (span / 1000.0) * (span / 1000.0) * 1000.0;
  }

  lemma DetectsWindow(cfg: Config, st: DstState, now: u64, a: IpAddr, e: Event)
    requires Reports(cfg, st, now, a, e)
    ensures e.Cleared? ==> e.at == now
    ensures !e.Cleared? ==>
              && e.d.lastSeen == now && e.d.severity == SeverityOf(e.d.pps, e.d.bps, cfg.th.pps, cfg.th.bps)
              && Describes(cfg.agents, Kept(st.samples, cfg.th.window, now), Secs(cfg.th), e.d)
  {
    hide Describes, Kept, SeverityOf;
  }

  // ---- Counters ---------------------------------------------------------------------------------------------

  function Open(st: States): set<IpAddr> {
    set a | a in st && st[a].open
  }

  function OpenedIn(cfg: Config, ops: seq<Op>): nat {
    if ops == [] then 0
    else
      var before, op := ops[..|ops| - 1], ops[|ops| - 1];
      var st := StatesAfter(cfg, before);
      OpenedIn(cfg, before) + if op.Tick? then |Opening(cfg, st, st.Keys, op.now)| else 0
  }

  function ClearedIn(cfg: Config, ops: seq<Op>): nat {
    if ops == [] then 0
    else
      var before, op := ops[..|ops| - 1], ops[|ops| - 1];
      var st := StatesAfter(cfg, before);
      ClearedIn(cfg, before) + if op.Tick? then |Clearing(cfg, st, st.Keys, op.now)| else 0
  }

  function SuppressedIn(cfg: Config, ops: seq<Op>): nat {
    if ops == [] then 0
    else
      var before, op := ops[..|ops| - 1], ops[|ops| - 1];
      var st := StatesAfter(cfg, before);
      SuppressedIn(cfg, before) + if op.Tick? then |Suppressing(cfg, st, st.Keys, op.now)| else 0
  }

  lemma OpenAfterTick(cfg: Config, st: States, now: u64)
    ensures var o, c := Opening(cfg, st, st.Keys, now), Clearing(cfg, st, st.Keys, now);
            && Open(TickedStates(cfg, st, now)) == Open(st) + o - c
            && o * Open(st) == {} && c <= Open(st)
  {
    hide Over, HeldDown;
  }

  /** Detections opened, less detections cleared, are the detections open. */
  lemma {:induction false} OpenedLessClearedIsOpen(cfg: Config, ops: seq<Op>)
    ensures OpenedIn(cfg, ops) == ClearedIn(cfg, ops) + |Open(StatesAfter(cfg, ops))|
  {
    hide TickedStates, Opening, Clearing, Inside, SampleOf;
    if ops == [] {
      assert Open(map[]) == {};
    } else {
      var before, op := ops[..|ops| - 1], ops[|ops| - 1];
      OpenedLessClearedIsOpen(cfg, before);
      var st := StatesAfter(cfg, before);
      match op
      case Observe(obs, at) =>
        assert Open(Observed(cfg, st, obs, at)) == Open(st);
      case Tick(now) =>
        OpenAfterTick(cfg, st, now);
        var o, c, s := Opening(cfg, st, st.Keys, now), Clearing(cfg, st, st.Keys, now), Open(st);
        assert s * o == {};
        assert |s + o| + |s * o| == |s| + |o|;
        assert |(s + o) - c| + |c| == |s + o| by { assert ((s + o) - c) + c == s + o; }
    }
  }

  lemma SatTwice(n: nat, m: nat)
    ensures SatCount(SatCount(n) + SatCount(m)) == SatCount(n + m)
  {
  }

  lemma RunMoreSeen(cfg: Config, ops: seq<Op>, obs: Observation, at: u64)
    ensures var ops' := ops + [Op.Observe(obs, at)];
            && StatesAfter(cfg, ops') == Observed(cfg, StatesAfter(cfg, ops), obs, at)
            && OpenedIn(cfg, ops') == OpenedIn(cfg, ops) && ClearedIn(cfg, ops') == ClearedIn(cfg, ops)
            && SuppressedIn(cfg, ops') == SuppressedIn(cfg, ops)
  {
    assert (ops + [Op.Observe(obs, at)])[..|ops|] == ops;
  }

  lemma RunMore(cfg: Config, ops: seq<Op>, now: u64)
    ensures var st, ops' := StatesAfter(cfg, ops), ops + [Tick(now)];
            && StatesAfter(cfg, ops') == TickedStates(cfg, st, now)
            && OpenedIn(cfg, ops') == OpenedIn(cfg, ops) + |Opening(cfg, st, st.Keys, now)|
            && ClearedIn(cfg, ops') == ClearedIn(cfg, ops) + |Clearing(cfg, st, st.Keys, now)|
            && SuppressedIn(cfg, ops') == SuppressedIn(cfg, ops) + |Suppressing(cfg, st, st.Keys, now)|
  {
    assert (ops + [Tick(now)])[..|ops|] == ops;
  }

  // ---- The detector ----------------------------------------------------------------------------------------

  function Bump(m: map<IpAddr, nat>, a: IpAddr): map<IpAddr, nat> {
    m[a := (if a in m then m[a] else 0) + 1]
  }

  predicate NearCeiling(expected: u32, factor: u32, rate: u32) {
    TooHigh(expected, rate) && Trusted(expected, factor, rate) >= SatMul(expected, factor) / 2
  }

  // What an observation does to the book kept on agents; the maps never track an unknown agent.

  function LastSeenAfter(cfg: Config, m: map<IpAddr, u64>, obs: Observation, now: u64): map<IpAddr, u64> {
    if obs.agent in cfg.agents then m[obs.agent := now] else m
  }

  function MismatchesAfter(cfg: Config, m: map<IpAddr, nat>, obs: Observation): map<IpAddr, nat> {
    if obs.agent in cfg.agents &&
       (TooLow(cfg.agents[obs.agent].expected, obs.rate) || TooHigh(cfg.agents[obs.agent].expected, obs.rate))
    then Bump(m, obs.agent) else m
  }

  function NearCeilingAfter(cfg: Config, m: map<IpAddr, nat>, obs: Observation): map<IpAddr, nat> {
    if obs.agent in cfg.agents && NearCeiling(cfg.agents[obs.agent].expected, cfg.factor, obs.rate)
    then Bump(m, obs.agent) else m
  }

  // What the book says, by definition, after a run.

  /** A known agent's rate below a quarter of what is expected, or above four times it. */
  predicate IsOutlier(cfg: Config, obs: Observation) {
    && obs.agent in cfg.agents
    && var expected := cfg.agents[obs.agent].expected;
       obs.rate < expected / 4 || obs.rate > In32(expected * 4)
  }

  /** A high outlier that, capped, still reaches half of the ceiling. */
  predicate IsNearTop(cfg: Config, obs: Observation) {
    && IsOutlier(cfg, obs)
    && var expected := cfg.agents[obs.agent].expected;
       MulMono(expected, 0, cfg.factor);
       var most := In32(expected * cfg.factor);
       && obs.rate >= expected / 4
       && 2 * (if obs.rate < most then obs.rate else most) + 1 >= most
  }

  function SeenIn(cfg: Config, ops: seq<Op>, a: IpAddr): Option<u64> {
    if ops == [] then None
    else
      var op := ops[|ops| - 1];
      if op.Observe? && op.obs.agent == a && a in cfg.agents then Some(op.at) else SeenIn(cfg, ops[..|ops| - 1], a)
  }

  function OutliersIn(cfg: Config, ops: seq<Op>, a: IpAddr): nat {
    if ops == [] then 0
    else
      var op := ops[|ops| - 1];
      OutliersIn(cfg, ops[..|ops| - 1], a) +
      if op.Observe? && op.obs.agent == a && IsOutlier(cfg, op.obs) then 1 else 0
  }

  function NearTopIn(cfg: Config, ops: seq<Op>, a: IpAddr): nat {
    if ops == [] then 0
    else
      var op := ops[|ops| - 1];
      NearTopIn(cfg, ops[..|ops| - 1], a) +
      if op.Observe? && op.obs.agent == a && IsNearTop(cfg, op.obs) then 1 else 0
  }

  function StrangersIn(cfg: Config, ops: seq<Op>): nat {
    if ops == [] then 0
    else
      var op := ops[|ops| - 1];
      StrangersIn(cfg, ops[..|ops| - 1]) + if op.Observe? && op.obs.agent !in cfg.agents then 1 else 0
  }

  predicate Counts(m: map<IpAddr, nat>, a: IpAddr, n: nat) {
    if a in m then m[a] == n && n > 0 else n == 0
  }

  ghost predicate BookedFor(
    cfg: Config, ops: seq<Op>, seen: map<IpAddr, u64>, bad: map<IpAddr, nat>, near: map<IpAddr, nat>, a: IpAddr)
  {
    && SeenIn(cfg, ops, a) == (if a in seen then Some(seen[a]) else None)
    && Counts(bad, a, OutliersIn(cfg, ops, a)) && Counts(near, a, NearTopIn(cfg, ops, a))
  }

  ghost predicate Booked(
    cfg: Config, ops: seq<Op>, seen: map<IpAddr, u64>, bad: map<IpAddr, nat>, near: map<IpAddr, nat>, unknown: u64)
  {
    && cfg.factor >= 4
    && (forall a :: BookedFor(cfg, ops, seen, bad, near, a))
    && unknown == SatCount(StrangersIn(cfg, ops))
  }

  lemma OutlierIs(cfg: Config, obs: Observation)
    requires obs.agent in cfg.agents
    ensures var expected := cfg.agents[obs.agent].expected;
            && (IsOutlier(cfg, obs) <==> TooLow(expected, obs.rate) || TooHigh(expected, obs.rate))
            && (IsNearTop(cfg, obs) <==> NearCeiling(expected, cfg.factor, obs.rate))
  {
    var expected := cfg.agents[obs.agent].expected;
    SatMulIs(expected, 4);
    SatMulIs(expected, cfg.factor);
    hide SatMul;
  }

  lemma BookedMoreFor(
    cfg: Config, ops: seq<Op>, seen: map<IpAddr, u64>, bad: map<IpAddr, nat>, near: map<IpAddr, nat>,
    obs: Observation, now: u64, a: IpAddr)
    requires BookedFor(cfg, ops, seen, bad, near, a)
    ensures BookedFor(cfg, ops + [Op.Observe(obs, now)], LastSeenAfter(cfg, seen, obs, now),
                      MismatchesAfter(cfg, bad, obs), NearCeilingAfter(cfg, near, obs), a)
  {
    assert (ops + [Op.Observe(obs, now)])[..|ops|] == ops;
    if obs.agent in cfg.agents {
      OutlierIs(cfg, obs);
    }
    hide IsOutlier, IsNearTop, TooLow, TooHigh, NearCeiling;
    StrangerIsNoOutlier(cfg, obs);
  }

  lemma StrangerIsNoOutlier(cfg: Config, obs: Observation)
    ensures obs.agent !in cfg.agents ==> !IsOutlier(cfg, obs) && !IsNearTop(cfg, obs)
  {
  }

  lemma BookedMore(
    cfg: Config, ops: seq<Op>, seen: map<IpAddr, u64>, bad: map<IpAddr, nat>, near: map<IpAddr, nat>, unknown: u64,
    obs: Observation, now: u64)
    requires Booked(cfg, ops, seen, bad, near, unknown)
    ensures Booked(cfg, ops + [Op.Observe(obs, now)], LastSeenAfter(cfg, seen, obs, now),
                   MismatchesAfter(cfg, bad, obs), NearCeilingAfter(cfg, near, obs),
                   CountIf(unknown, obs.agent !in cfg.agents))
  {
    hide BookedFor;
    assert (ops + [Op.Observe(obs, now)])[..|ops|] == ops;
    hide LastSeenAfter, MismatchesAfter, NearCeilingAfter;
    forall a
      ensures BookedFor(cfg, ops + [Op.Observe(obs, now)], LastSeenAfter(cfg, seen, obs, now),
                        MismatchesAfter(cfg, bad, obs), NearCeilingAfter(cfg, near, obs), a)
    {
      BookedMoreFor(cfg, ops, seen, bad, near, obs, now, a);
    }
  }

  lemma BookedTick(
    cfg: Config, ops: seq<Op>, seen: map<IpAddr, u64>, bad: map<IpAddr, nat>, near: map<IpAddr, nat>, unknown: u64,
    now: u64)
    requires Booked(cfg, ops, seen, bad, near, unknown)
    ensures Booked(cfg, ops + [Op.Tick(now)], seen, bad, near, unknown)
  {
    var ops' := ops + [Op.Tick(now)];
    assert ops'[..|ops|] == ops;
    forall a
      ensures BookedFor(cfg, ops', seen, bad, near, a)
    {
      assert BookedFor(cfg, ops, seen, bad, near, a);
    }
  }

  /** Known agents alone are in the book, and no count of high outliers near the top exceeds that of all outliers. */
  lemma {:induction false} BookIsNested(cfg: Config, ops: seq<Op>, a: IpAddr)
    ensures a !in cfg.agents ==> SeenIn(cfg, ops, a) == None
    ensures NearTopIn(cfg, ops, a) <= OutliersIn(cfg, ops, a)
    ensures OutliersIn(cfg, ops, a) > 0 ==> SeenIn(cfg, ops, a).Some?
  {
    hide In32;
    if ops == [] {
    } else {
      BookIsNested(cfg, ops[..|ops| - 1], a);
    }
  }

  ghost predicate Accounted(
    cfg: Config, ops: seq<Op>, outs: seq<seq<Event>>, st: States, suppressed: u64, openings: u64, clearings: u64)
  {
    && st == StatesAfter(cfg, ops) && Returned(cfg, ops, outs)
    && suppressed == SatCount(SuppressedIn(cfg, ops))
    && openings == SatCount(OpenedIn(cfg, ops))
    && clearings == SatCount(ClearedIn(cfg, ops))
  }

  lemma SeenAccounted(
    cfg: Config, ops: seq<Op>, outs: seq<seq<Event>>, st: States, suppressed: u64, openings: u64, clearings: u64,
    obs: Observation, now: u64)
    requires Accounted(cfg, ops, outs, st, suppressed, openings, clearings)
    ensures Accounted(cfg, ops + [Op.Observe(obs, now)], outs + [[]], Observed(cfg, st, obs, now),
                      suppressed, openings, clearings)
  {
    hide Returned, StatesAfter, OpenedIn, ClearedIn, SuppressedIn, SatCount, Observed;
    RunMoreSeen(cfg, ops, obs, now);
    ReturnedMore(cfg, ops, outs, Op.Observe(obs, now), []);
  }

  lemma TickAccounted(
    cfg: Config, ops: seq<Op>, outs: seq<seq<Event>>, st: States, suppressed: u64, openings: u64, clearings: u64,
    now: u64, events: seq<Event>)
    requires Accounted(cfg, ops, outs, st, suppressed, openings, clearings) && Reported(cfg, st, st.Keys, now, events)
    ensures Accounted(cfg, ops + [Op.Tick(now)], outs + [events], TickedStates(cfg, st, now),
                      SatCount(suppressed + SatCount(|Suppressing(cfg, st, st.Keys, now)|)),
                      SatCount(openings + SatCount(|Opening(cfg, st, st.Keys, now)|)),
                      SatCount(clearings + SatCount(|Clearing(cfg, st, st.Keys, now)|)))
  {
    hide Reported, TickedStates, Opening, Clearing, Suppressing, StatesAfter, OpenedIn, ClearedIn, SuppressedIn;
    hide SatCount, Returned;
    RunMore(cfg, ops, now);
    ReturnedMore(cfg, ops, outs, Op.Tick(now), events);
    SatTwice(SuppressedIn(cfg, ops), |Suppressing(cfg, st, st.Keys, now)|);
    SatTwice(OpenedIn(cfg, ops), |Opening(cfg, st, st.Keys, now)|);
    SatTwice(ClearedIn(cfg, ops), |Clearing(cfg, st, st.Keys, now)|);
  }

  class ThresholdDetector {
    const cfg: Config
    var state: States
    var lastSeen: map<IpAddr, u64>
    var mismatches: map<IpAddr, nat>
    var nearCeiling: map<IpAddr, nat>
    var unknown: u64
    var suppressed: u64
    var detectionsOpened: u64
    var detectionsCleared: u64
    ghost var ops: seq<Op>
    ghost var outs: seq<seq<Event>>

    /** The fields, and the events returned, are what the calls so far make them; only known agents are tracked. */
    ghost predicate Valid()
      reads this
    {
      && Booked(cfg, ops, lastSeen, mismatches, nearCeiling, unknown)
      && Accounted(cfg, ops, outs, state, suppressed, detectionsOpened, detectionsCleared)
    }

    constructor (config: Config)
      ensures Valid() && ops == [] && outs == [] && cfg == config.(factor := Floored(config.factor))
      ensures state == map[] && lastSeen == map[] && mismatches == map[] && nearCeiling == map[] && unknown == 0
    {
      cfg := config.(factor := Floored(config.factor));
      state, lastSeen, mismatches, nearCeiling := map[], map[], map[], map[];
      unknown, suppressed, detectionsOpened, detectionsCleared, ops, outs := 0, 0, 0, 0, [], [];
    }

    method Clamp(obs: Observation, now: u64) returns (rate: u32)
      modifies `lastSeen, `mismatches, `nearCeiling, `unknown
      ensures rate == EffectiveRate(cfg.agents, cfg.factor, obs.agent, obs.rate)
      ensures unknown == CountIf(old(unknown), obs.agent !in cfg.agents)
      ensures lastSeen == LastSeenAfter(cfg, old(lastSeen), obs, now)
      ensures mismatches == MismatchesAfter(cfg, old(mismatches), obs)
      ensures nearCeiling == NearCeilingAfter(cfg, old(nearCeiling), obs)
    {
      hide SatMul;
      if obs.agent in cfg.agents {
        var expected := cfg.agents[obs.agent].expected;
        lastSeen := lastSeen[obs.agent := now];
        var ceiling := SatMul(expected, cfg.factor);
        if obs.rate < expected / 4 {
          mismatches := Bump(mismatches, obs.agent);
          rate := expected;
        } else if obs.rate > SatMul(expected, 4) {
          mismatches := Bump(mismatches, obs.agent);
          rate := if obs.rate < ceiling then obs.rate else ceiling;
          if rate >= ceiling / 2 {
            nearCeiling := Bump(nearCeiling, obs.agent);
          }
        } else {
          rate := obs.rate;
        }
      } else {
        unknown := CountIf(unknown, true);
        rate := obs.rate;
      }
    }

    method Observe(obs: Observation, now: u64)
      requires Valid()
      modifies this
      ensures Valid() && ops == old(ops) + [Op.Observe(obs, now)] && outs == old(outs) + [[]]
      ensures state == Observed(cfg, old(state), obs, now)
      ensures unknown == CountIf(old(unknown), obs.agent !in cfg.agents)
      ensures lastSeen == LastSeenAfter(cfg, old(lastSeen), obs, now)
      ensures mismatches == MismatchesAfter(cfg, old(mismatches), obs)
      ensures nearCeiling == NearCeilingAfter(cfg, old(nearCeiling), obs)
      ensures suppressed == old(suppressed)
      ensures detectionsOpened == old(detectionsOpened) && detectionsCleared == old(detectionsCleared)
    {
      hide LastSeenAfter, MismatchesAfter, NearCeilingAfter, Inside;
      hide Accounted, Booked, CountIf, EffectiveRate;
      SeenAccounted(cfg, ops, outs, state, suppressed, detectionsOpened, detectionsCleared, obs, now);
      BookedMore(cfg, ops, lastSeen, mismatches, nearCeiling, unknown, obs, now);
      var rate := Clamp(obs, now);
      ops, outs := ops + [Op.Observe(obs, now)], outs + [[]];
      if !Inside(cfg.prefixes, obs.dst) {
        return;
      }
      BytesFit(rate, obs.frameLen);
      var sample := Sample(now, obs.src, obs.dstPort, obs.proto, rate, rate * obs.frameLen, obs.agent);
      var entry := if obs.dst in state then state[obs.dst] else NEW_DST;
      state := state[obs.dst := entry.(samples := entry.samples + [sample])];
    }

    method Tick(now: u64) returns (events: seq<Event>)
      requires Valid()
      modifies this
      ensures Valid() && ops == old(ops) + [Op.Tick(now)] && outs == old(outs) + [events]
      ensures state == TickedStates(cfg, old(state), now)
      ensures Reported(cfg, old(state), old(state).Keys, now, events)
      ensures lastSeen == old(lastSeen) && mismatches == old(mismatches)
      ensures nearCeiling == old(nearCeiling) && unknown == old(unknown)
    {
      hide Reported, TickedStates, Opening, Clearing, Suppressing, SatCount, Accounted, Booked;
      var after, es, below, openings, clearings := TickAll(cfg, state, now);
      TickAccounted(cfg, ops, outs, state, suppressed, detectionsOpened, detectionsCleared, now, es);
      BookedTick(cfg, ops, lastSeen, mismatches, nearCeiling, unknown, now);
      ops, outs := ops + [Op.Tick(now)], outs + [es];
      events, state := es, after;
      suppressed := SatCount(suppressed + below);
      detectionsOpened := SatCount(detectionsOpened + openings);
      detectionsCleared := SatCount(detectionsCleared + clearings);
    }

    /** While no counter has saturated, the two counters differ by the number of open detections. */
    lemma CountersTellOpen()
      requires Valid() && detectionsOpened < U64_MAX
      ensures detectionsOpened == detectionsCleared + |Open(state)|
    {
      OpenedLessClearedIsOpen(cfg, ops);
    }
  }
}
