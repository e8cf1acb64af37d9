/** One destination of the threshold detector: its sliding window and the life of a detection. */
module Window {
  import opened Bytes
  import opened Wrappers
  import opened Samples

  datatype Thresholds = Thresholds(pps: real, bps: real, window: u64, holdDown: u64, minSamples: nat)

  datatype DstState = DstState(samples: seq<Sample>, open: bool, firstSeen: u64, lastOver: u64)

  const NEW_DST := DstState([], false, 0, 0)

  // ---- One tick --------------------------------------------------------------------------------

  function Secs(cfg: Thresholds): (s: real)
    ensures s > 0.0
  {
    (if cfg.window > 1 then cfg.window else 1) as real / 1000.0
  }

  /** The samples still in the window. */
  function Kept(ss: seq<Sample>, window: u64, now: u64): seq<Sample> {
    if ss == [] then []
    else
      var s := ss[|ss| - 1];
      Kept(ss[..|ss| - 1], window, now) + if s.ts + window > now then [s] else []
  }

  function Pps(cfg: Thresholds, ss: seq<Sample>): real {
    Cap(Sum(ss, PacketsOf)) as real / Secs(cfg)
  }

  function Bps(cfg: Thresholds, ss: seq<Sample>): real {
    Cap(Sum(ss, BytesOf)) as real * 8.0 / Secs(cfg)
  }

  predicate RateOver(cfg: Thresholds, ss: seq<Sample>) {
    Pps(cfg, ss) > cfg.pps || Bps(cfg, ss) > cfg.bps
  }

  /** Over threshold with enough samples. An empty window is never over, whatever the thresholds. */
  predicate Over(cfg: Thresholds, ss: seq<Sample>) {
    ss != [] && RateOver(cfg, ss) && |ss| >= cfg.minSamples
  }

  predicate Suppressed(cfg: Thresholds, ss: seq<Sample>) {
    ss != [] && RateOver(cfg, ss) && |ss| < cfg.minSamples
  }

  predicate HeldDown(cfg: Thresholds, lastOver: u64, now: u64) {
    (if now >= lastOver then now - lastOver else 0) >= cfg.holdDown
  }

  datatype Emit = Quiet | Opens(first: u64) | Updates(first: u64) | Clears

  function EmitOf(cfg: Thresholds, st: DstState, now: u64): Emit {
    if Over(cfg, Kept(st.samples, cfg.window, now)) then
      if st.open then Updates(st.firstSeen) else Opens(now)
    else if st.open && HeldDown(cfg, st.lastOver, now) then Clears
    else Quiet
  }

  function After(cfg: Thresholds, st: DstState, now: u64): DstState {
    var kept := Kept(st.samples, cfg.window, now);
    if Over(cfg, kept) then DstState(kept, true, if st.open then st.firstSeen else now, now)
    else st.(samples := kept)
  }

  // ---- Histories ---------------------------------------------------------------------------------

  datatype Moment = Saw(s: Sample) | Ticked(now: u64)

  /** What the detector says of a destination; it says nothing of one it does not track. */
  function Said(cfg: Thresholds, o: Option<DstState>, now: u64): Emit {
    if o.Some? then EmitOf(cfg, o.value, now) else Quiet
  }

  /** An observation starts or extends the state; a tick evicts, and a clear forgets the destination. */
  function Next(cfg: Thresholds, o: Option<DstState>, m: Moment): Option<DstState> {
    match m
    case Saw(s) =>
      var st := if o.Some? then o.value else NEW_DST;
      Some(st.(samples := st.samples + [s]))
    case Ticked(now) =>
      if o.None? || EmitOf(cfg, o.value, now).Clears? then None else Some(After(cfg, o.value, now))
  }

  function StateAfter(cfg: Thresholds, h: seq<Moment>): Option<DstState> {
    if h == [] then None else Next(cfg, StateAfter(cfg, h[..|h| - 1]), h[|h| - 1])
  }

  function Emits(cfg: Thresholds, h: seq<Moment>): seq<Emit> {
    if h == [] then []
    else
      var before, m := h[..|h| - 1], h[|h| - 1];
      if m.Ticked? && !Said(cfg, StateAfter(cfg, before), m.now).Quiet?
      then Emits(cfg, before) + [Said(cfg, StateAfter(cfg, before), m.now)]
      else Emits(cfg, before)
  }

  // ---- The direct definition, over everything seen since the last clear ------------------------------

  function SamplesOf(h: seq<Moment>): seq<Sample> {
    if h == [] then []
    else SamplesOf(h[..|h| - 1]) + if h[|h| - 1].Saw? then [h[|h| - 1].s] else []
  }

  /** How many samples are less than `window` old at `now`, and the packets and octets in them. */
  function CountIn(ss: seq<Sample>, window: nat, now: nat): nat {
    if ss == [] then 0
    else CountIn(ss[..|ss| - 1], window, now) + if ss[|ss| - 1].ts + window > now then 1 else 0
  }

  function PacketsIn(ss: seq<Sample>, window: nat, now: nat): nat {
    if ss == [] then 0
    else PacketsIn(ss[..|ss| - 1], window, now) + if ss[|ss| - 1].ts + window > now then ss[|ss| - 1].packets else 0
  }

  function OctetsIn(ss: seq<Sample>, window: nat, now: nat): nat {
    if ss == [] then 0
    else OctetsIn(ss[..|ss| - 1], window, now) + if ss[|ss| - 1].ts + window > now then ss[|ss| - 1].bytes else 0
  }

  /** The largest 128-bit number stands for anything larger. */
  function In128(n: nat): nat {
    if n < 0x1_0000_0000_0000_0000_0000_0000_0000_0000 then n else 0xFFFF_FFFF_FFFF_FFFF_FFFF_FFFF_FFFF_FFFF
  }

  /**
   Packets per second above the one threshold or bits per second above the other, with the window in
   milliseconds and taken as at least one.
   */
  predicate FastAt(cfg: Thresholds, e: seq<Moment>, now: u64) {
    var ss, span := SamplesOf(e), (if cfg.window == 0 then 1 else cfg.window) as real;
    || In128(PacketsIn(ss, cfg.window, now)) as real * 1000.0 > cfg.pps * span
    || In128(OctetsIn(ss, cfg.window, now)) as real * 8000.0 > cfg.bps * span
  }

  /** Fast, on at least one sample and at least as many as configured. */
  predicate OverAt(cfg: Thresholds, e: seq<Moment>, now: u64) {
    var n := CountIn(SamplesOf(e), cfg.window, now);
    n >= 1 && n >= cfg.minSamples && FastAt(cfg, e, now)
  }

  /** The ticks of an episode that were over threshold. */
  function OverTimes(cfg: Thresholds, e: seq<Moment>): seq<u64> {
    if e == [] then []
    else
      var before, m := e[..|e| - 1], e[|e| - 1];
      OverTimes(cfg, before) + if m.Ticked? && OverAt(cfg, before, m.now) then [m.now] else []
  }

  function DirectEmit(cfg: Thresholds, e: seq<Moment>, now: u64): Emit {
    var times := OverTimes(cfg, e);
    if OverAt(cfg, e, now) then
      if times == [] then Opens(now) else Updates(times[0])
    else if times != [] && (times[|times| - 1] + cfg.holdDown <= now || cfg.holdDown == 0) then Clears
    else Quiet
  }

  /** Everything that happened to the destination since it was last cleared. */
  function Episode(cfg: Thresholds, h: seq<Moment>): seq<Moment> {
    if h == [] then []
    else
      var e, m := Episode(cfg, h[..|h| - 1]), h[|h| - 1];
      if m.Ticked? && DirectEmit(cfg, e, m.now).Clears? then [] else e + [m]
  }

  // ---- The code's tests are the direct ones ------------------------------------------------------------

  lemma {:induction false} KeptExactly(ss: seq<Sample>, window: u64, now: u64, s: Sample)
    ensures s in Kept(ss, window, now) <==> s in ss && s.ts + window > now
  {
    if ss == [] {
    } else {
      KeptExactly(ss[..|ss| - 1], window, now, s);
      assert ss == ss[..|ss| - 1] + [ss[|ss| - 1]];
    }
  }

  lemma {:induction false} KeptAddsUp(ss: seq<Sample>, window: u64, now: u64)
    ensures var kept := Kept(ss, window, now);
            && |kept| == CountIn(ss, window, now)
            && Sum(kept, PacketsOf) == PacketsIn(ss, window, now) && Sum(kept, BytesOf) == OctetsIn(ss, window, now)
  {
    if ss == [] {
    } else {
      var before, s := ss[..|ss| - 1], ss[|ss| - 1];
      var k := Kept(before, window, now);
      KeptAddsUp(before, window, now);
      assert (k + [s])[..|k|] == k && k + [] == k;
    }
  }

  lemma RateScales(x: real, span: real, t: real)
    requires span > 0.0
    ensures x / (span / 1000.0) > t <==> x * 1000.0 > t * span
    ensures x * 8.0 / (span / 1000.0) > t <==> x * 8000.0 > t * span
  {
    Quotient(x, span / 1000.0, t);
    Quotient(x * 8.0, span / 1000.0, t);
    assert t * (span / 1000.0) * 1000.0 == t * span;
  }

  lemma Quotient(x: real, d: real, t: real)
    requires d > 0.0
    ensures x / d > t <==> x > t * d
  {
    assert x == x / d * d;
    if x / d > t {
      assert (x / d - t) * d > 0.0;
    } else {
      assert (t - x / d) * d >= 0.0;
    }
  }

  lemma RateIsFast(cfg: Thresholds, e: seq<Moment>, now: u64)
    ensures RateOver(cfg, Kept(SamplesOf(e), cfg.window, now)) <==> FastAt(cfg, e, now)
  {
    hide Kept, SamplesOf, PacketsIn, OctetsIn, CountIn, Sum, Secs, Cap, In128;
    var kept := Kept(SamplesOf(e), cfg.window, now);
    KeptAddsUp(SamplesOf(e), cfg.window, now);
    SaturatesAlike(Sum(kept, PacketsOf));
    SaturatesAlike(Sum(kept, BytesOf));
    RateByWindow(cfg, Cap(Sum(kept, PacketsOf)) as real, cfg.pps);
    RateByWindow(cfg, Cap(Sum(kept, BytesOf)) as real, cfg.bps);
  }

  lemma SaturatesAlike(n: nat)
    ensures Cap(n) == In128(n)
  {
  }

  lemma RateByWindow(cfg: Thresholds, x: real, t: real)
    ensures var span := (if cfg.window == 0 then 1 else cfg.window) as real;
            && (x / Secs(cfg) > t <==> x * 1000.0 > t * span)
            && (x * 8.0 / Secs(cfg) > t <==> x * 8000.0 > t * span)
  {
    RateScales(x, (if cfg.window == 0 then 1 else cfg.window) as real, t);
  }

  /** Over, and suppressed for want of samples, by what is kept or by what was ever seen. */
  lemma OverIsDirect(cfg: Thresholds, e: seq<Moment>, now: u64)
    ensures var kept, n := Kept(SamplesOf(e), cfg.window, now), CountIn(SamplesOf(e), cfg.window, now);
            && (Over(cfg, kept) <==> OverAt(cfg, e, now))
            && (Suppressed(cfg, kept) <==> 1 <= n < cfg.minSamples && FastAt(cfg, e, now))
  {
    hide Kept, SamplesOf, RateOver, FastAt, CountIn;
    KeptAddsUp(SamplesOf(e), cfg.window, now);
    RateIsFast(cfg, e, now);
  }

  // ---- Incremental eviction refines the direct definition ---------------------------------------------

  ghost predicate Ordered(h: seq<Moment>) {
    forall i, j :: 0 <= i < j < |h| && h[i].Ticked? && h[j].Ticked? ==> h[i].now <= h[j].now
  }

  function LastTick(h: seq<Moment>): u64 {
    if h == [] then 0 else if h[|h| - 1].Ticked? then h[|h| - 1].now else LastTick(h[..|h| - 1])
  }

  lemma {:induction false} KeptTwice(ss: seq<Sample>, window: u64, now: u64, later: u64)
    requires now <= later
    ensures Kept(Kept(ss, window, now), window, later) == Kept(ss, window, later)
  {
    if ss == [] {
    } else {
      var before, s := ss[..|ss| - 1], ss[|ss| - 1];
      KeptTwice(before, window, now, later);
      var k := Kept(before, window, now);
      assert (k + [s])[..|k|] == k;
      assert k + [] == k;
    }
  }

  lemma KeptMore(ss: seq<Sample>, s: Sample, window: u64, now: u64)
    ensures Kept(ss + [s], window, now) == Kept(ss, window, now) + if s.ts + window > now then [s] else []
  {
    assert (ss + [s])[..|ss|] == ss;
  }

  /** The state holds what the episode says, for every window from `from` on. */
  ghost predicate Refines(cfg: Thresholds, e: seq<Moment>, o: Option<DstState>, from: u64) {
    var times := OverTimes(cfg, e);
    match o
    case None => SamplesOf(e) == [] && times == []
    case Some(st) =>
      && (st.open <==> times != [])
      && (st.open ==> st.firstSeen == times[0] && st.lastOver == times[|times| - 1])
      && forall n: u64 :: n >= from ==> Kept(st.samples, cfg.window, n) == Kept(SamplesOf(e), cfg.window, n)
  }

  lemma SawRefines(cfg: Thresholds, e: seq<Moment>, o: Option<DstState>, from: u64, s: Sample)
    requires Refines(cfg, e, o, from)
    ensures Refines(cfg, e + [Saw(s)], Next(cfg, o, Saw(s)), from)
  {
    var e' := e + [Saw(s)];
    assert e'[..|e|] == e;
    assert OverTimes(cfg, e') == OverTimes(cfg, e) + [];
    var st := if o.Some? then o.value else NEW_DST;
    forall n: u64 | n >= from
      ensures Kept(st.samples + [s], cfg.window, n) == Kept(SamplesOf(e'), cfg.window, n)
    {
      KeptMore(st.samples, s, cfg.window, n);
      KeptMore(SamplesOf(e), s, cfg.window, n);
    }
  }

  lemma SaidIsDirect(cfg: Thresholds, e: seq<Moment>, o: Option<DstState>, from: u64, now: u64)
    requires Refines(cfg, e, o, from) && from <= now
    ensures Said(cfg, o, now) == DirectEmit(cfg, e, now)
  {
    hide OverTimes, SamplesOf, RateOver, Over, OverAt;
    OverIsDirect(cfg, e, now);
    match o
    case None => NothingKept(cfg, now); assert Kept(SamplesOf(e), cfg.window, now) == [];
    case Some(st) => assert Kept(st.samples, cfg.window, now) == Kept(SamplesOf(e), cfg.window, now);
  }

  lemma NothingKept(cfg: Thresholds, now: u64)
    ensures Kept([], cfg.window, now) == [] && !Over(cfg, [])
  {
  }

  lemma EpisodeTicks(cfg: Thresholds, e: seq<Moment>, now: u64)
    ensures SamplesOf(e + [Ticked(now)]) == SamplesOf(e)
    ensures OverTimes(cfg, e + [Ticked(now)]) == OverTimes(cfg, e) + if OverAt(cfg, e, now) then [now] else []
  {
    assert (e + [Ticked(now)])[..|e|] == e;
  }

  lemma TickRefines(cfg: Thresholds, e: seq<Moment>, o: Option<DstState>, from: u64, now: u64)
    requires Refines(cfg, e, o, from) && from <= now && !DirectEmit(cfg, e, now).Clears?
    ensures Refines(cfg, e + [Ticked(now)], Next(cfg, o, Ticked(now)), now)
  {
    hide RateOver, OverTimes, SamplesOf, HeldDown, OverAt;
    EpisodeTicks(cfg, e, now);
    SaidIsDirect(cfg, e, o, from, now);
    OverIsDirect(cfg, e, now);
    hide DirectEmit;
    match o
    case None =>
      NothingKept(cfg, now);
      assert Kept(SamplesOf(e), cfg.window, now) == [];
    case Some(st) =>
      var kept := Kept(st.samples, cfg.window, now);
      assert kept == Kept(SamplesOf(e), cfg.window, now);
      hide Over;
      forall n: u64 | n >= now
        ensures Kept(kept, cfg.window, n) == Kept(SamplesOf(e), cfg.window, n)
      {
        KeptTwice(st.samples, cfg.window, now, n);
      }
  }

  lemma {:induction false} LastTickIsLatest(h: seq<Moment>, now: u64)
    requires Ordered(h + [Ticked(now)])
    ensures Ordered(h) && LastTick(h) <= now
  {
    var h' := h + [Ticked(now)];
    assert forall i :: 0 <= i < |h| ==> h'[i] == h[i];
    assert h'[|h|] == Ticked(now);
    if h == [] {
    } else {
      var before := h[..|h| - 1];
      var b' := before + [Ticked(now)];
      assert forall i :: 0 <= i < |before| ==> b'[i] == h'[i];
      LastTickIsLatest(before, now);
    }
  }

  lemma {:induction false} RunRefines(cfg: Thresholds, h: seq<Moment>)
    requires Ordered(h)
    ensures Refines(cfg, Episode(cfg, h), StateAfter(cfg, h), LastTick(h))
  {
    hide Refines, DirectEmit, Next;
    if h == [] {
      NothingRefines(cfg, 0);
    } else {
      var before, m := h[..|h| - 1], h[|h| - 1];
      assert h == before + [m];
      var e, o := Episode(cfg, before), StateAfter(cfg, before);
      assert Ordered(before);
      RunRefines(cfg, before);
      match m
      case Saw(s) => SawRefines(cfg, e, o, LastTick(before), s);
      case Ticked(now) =>
        LastTickIsLatest(before, now);
        if DirectEmit(cfg, e, now).Clears? {
          SaidIsDirect(cfg, e, o, LastTick(before), now);
          ClearForgets(cfg, o, now);
          NothingRefines(cfg, now);
        } else {
          TickRefines(cfg, e, o, LastTick(before), now);
        }
    }
  }

  lemma NothingRefines(cfg: Thresholds, from: u64)
    ensures Refines(cfg, [], None, from)
  {
  }

  lemma ClearForgets(cfg: Thresholds, o: Option<DstState>, now: u64)
    requires Said(cfg, o, now).Clears?
    ensures Next(cfg, o, Ticked(now)) == None
  {
  }

  /** At every tick the detector says what the whole history since the last clear says. */
  lemma EvictionIsInvisible(cfg: Thresholds, h: seq<Moment>, now: u64)
    requires Ordered(h + [Ticked(now)])
    ensures Said(cfg, StateAfter(cfg, h), now) == DirectEmit(cfg, Episode(cfg, h), now)
    ensures StateAfter(cfg, h).Some? ==>
              Kept(StateAfter(cfg, h).value.samples, cfg.window, now) == Kept(SamplesOf(Episode(cfg, h)), cfg.window, now)
  {
    LastTickIsLatest(h, now);
    RunRefines(cfg, h);
    SaidIsDirect(cfg, Episode(cfg, h), StateAfter(cfg, h), LastTick(h), now);
  }

  // ---- Hold-down --------------------------------------------------------------------------------

  lemma {:induction false} EpisodeIsOrdered(cfg: Thresholds, h: seq<Moment>, now: u64)
    requires Ordered(h + [Ticked(now)])
    ensures Ordered(Episode(cfg, h) + [Ticked(now)])
  {
    hide DirectEmit;
    if h == [] {
    } else {
      var before, m := h[..|h| - 1], h[|h| - 1];
      var h' := h + [Ticked(now)];
      var e := Episode(cfg, before);
      assert h'[|h| - 1] == m && h'[|h|] == Ticked(now);
      assert forall i :: 0 <= i < |before| ==> h'[i] == before[i];
      match m
      case Saw(s) =>
        var b' := before + [Ticked(now)];
        assert forall i :: 0 <= i < |before| ==> b'[i] == h'[i];
        EpisodeIsOrdered(cfg, before, now);
        Insert(e, m, now);
      case Ticked(t) =>
        var b' := before + [Ticked(t)];
        assert forall i :: 0 <= i <= |before| ==> b'[i] == h'[i];
        EpisodeIsOrdered(cfg, before, t);
        Extend(e, t, now);
    }
  }

  lemma Insert(e: seq<Moment>, m: Moment, now: u64)
    requires Ordered(e + [Ticked(now)]) && m.Saw?
    ensures Ordered(e + [m] + [Ticked(now)])
  {
    var x, y := e + [Ticked(now)], e + [m] + [Ticked(now)];
    forall i, j | 0 <= i < j < |y| && y[i].Ticked? && y[j].Ticked?
      ensures y[i].now <= y[j].now
    {
      assert y[i] == x[i] && y[j] == if j < |e| then x[j] else x[|e|];
    }
  }

  lemma Extend(e: seq<Moment>, t: u64, now: u64)
    requires Ordered(e + [Ticked(t)]) && t <= now
    ensures Ordered(e + [Ticked(t)] + [Ticked(now)]) && Ordered([] + [Ticked(now)])
  {
    var x, y := e + [Ticked(t)], e + [Ticked(t)] + [Ticked(now)];
    forall i, j | 0 <= i < j < |y| && y[i].Ticked? && y[j].Ticked?
      ensures y[i].now <= y[j].now
    {
      assert y[i] == x[i];
      assert x[|e|] == Ticked(t);
      assert j <= |e| ==> y[j] == x[j];
    }
  }

  lemma {:induction false} OverTimesAscend(cfg: Thresholds, e: seq<Moment>, now: u64)
    requires Ordered(e + [Ticked(now)])
    ensures forall t :: t in OverTimes(cfg, e) ==> t <= now
    ensures var times := OverTimes(cfg, e); times != [] ==> forall t :: t in times ==> t <= times[|times| - 1]
  {
    hide OverAt;
    if e == [] {
    } else {
      var before, m := e[..|e| - 1], e[|e| - 1];
      var e' := e + [Ticked(now)];
      assert e'[|e| - 1] == m && e'[|e|] == Ticked(now);
      var b' := before + [Ticked(now)];
      assert forall i :: 0 <= i < |before| ==> b'[i] == e'[i];
      OverTimesAscend(cfg, before, now);
      if m.Ticked? {
        var c' := before + [m];
        assert forall i :: 0 <= i <= |before| ==> c'[i] == e'[i];
        OverTimesAscend(cfg, before, m.now);
      }
    }
  }

  /** A clear comes only after the hold-down has passed since every tick of the episode that was over. */
  lemma HoldDownIsKept(cfg: Thresholds, h: seq<Moment>, now: u64)
    requires Ordered(h + [Ticked(now)]) && Said(cfg, StateAfter(cfg, h), now).Clears?
    ensures var times := OverTimes(cfg, Episode(cfg, h));
            times != [] && forall t :: t in times ==> t + cfg.holdDown <= now
  {
    hide OverTimes, OverAt, Episode, StateAfter, Said, Ordered, Kept;
    EvictionIsInvisible(cfg, h, now);
    EpisodeIsOrdered(cfg, h, now);
    OverTimesAscend(cfg, Episode(cfg, h), now);
  }

  // ---- The life of a detection --------------------------------------------------------------------

  /** May an event follow what was said before? An update carries its episode's first-seen time on. */
  predicate Follows(es: seq<Emit>, e: Emit) {
    match e
    case Opens(_) => es == [] || es[|es| - 1].Clears?
    case Updates(f) => es != [] && (es[|es| - 1] == Opens(f) || es[|es| - 1] == Updates(f))
    case Clears => es != [] && (es[|es| - 1].Opens? || es[|es| - 1].Updates?)
    case Quiet => false
  }

  /** (Opened Updated* Cleared)*, the last episode possibly still open. */
  ghost predicate Lifecycle(es: seq<Emit>) {
    forall i :: 0 <= i < |es| ==> Follows(es[..i], es[i])
  }

  lemma LifecycleStep(es: seq<Emit>, e: Emit)
    requires Lifecycle(es) && Follows(es, e)
    ensures Lifecycle(es + [e])
  {
    var all := es + [e];
    forall i | 0 <= i < |all|
      ensures Follows(all[..i], all[i])
    {
      assert all[..i] == es[..i];
      assert i == |es| ==> es[..i] == es;
    }
  }

  /** Whether a detection is open, and since when, is what was last said of it. */
  ghost predicate InStep(o: Option<DstState>, es: seq<Emit>) {
    if o.Some? && o.value.open then
      es != [] && (es[|es| - 1] == Opens(o.value.firstSeen) || es[|es| - 1] == Updates(o.value.firstSeen))
    else es == [] || es[|es| - 1].Clears?
  }

  lemma {:induction false} EventsAreEpisodes(cfg: Thresholds, h: seq<Moment>)
    ensures Lifecycle(Emits(cfg, h)) && InStep(StateAfter(cfg, h), Emits(cfg, h))
  {
    hide Over, HeldDown, Lifecycle;
    if h == [] {
      assert Lifecycle([]) by { NothingSaid(); }
    } else {
      var before, m := h[..|h| - 1], h[|h| - 1];
      EventsAreEpisodes(cfg, before);
      if m.Ticked? && !Said(cfg, StateAfter(cfg, before), m.now).Quiet? {
        LifecycleStep(Emits(cfg, before), Said(cfg, StateAfter(cfg, before), m.now));
      }
    }
  }

  lemma NothingSaid()
    ensures Lifecycle([])
  {
  }
}
