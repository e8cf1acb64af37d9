/** What a detection reports: dominant protocol, heaviest sources, ports and blocks, and shares per POP. */
module Report {
  import opened Bytes
  import opened Net
  import opened Sequences
  import opened Samples

  datatype Severity = Warning | High | Critical

  datatype PopContribution = PopContribution(pop: string, pps: real, bps: real)

  datatype Detection = Detection(
    target: IpAddr, pps: real, bps: real, proto: byte,
    topSources: seq<(IpAddr, real)>, topPorts: seq<(u16, real)>,
    pops: seq<PopContribution>, topSourceBlocks: seq<(IpNet, real)>,
    severity: Severity, firstSeen: u64, lastSeen: u64)

  datatype Agent = Agent(name: string, expected: u32)

  type Registry = map<IpAddr, Agent>

  function NameOf(agents: Registry, a: IpAddr): string {
    if a in agents then agents[a].name else "unknown"
  }

  function SourceOf(s: Sample): IpAddr { s.src }
  function PortOf(s: Sample): u16 { s.dstPort }
  function AgentOf(s: Sample): IpAddr { s.agent }
  function ProtoOf(s: Sample): byte { s.proto }
  function BlockOf(s: Sample): IpNet { SourceBlock(s.src) }

  /** /24 for IPv4, /48 for IPv6. */
  function SourceBlock(src: IpAddr): IpNet {
    Trunc(Net(src, if src.V4? then 24 else 48))
  }

  /** Sources share a block exactly when one's block contains the other. */
  lemma SameBlock(a: IpAddr, b: IpAddr)
    ensures SourceBlock(a) == SourceBlock(b) <==> Contains(SourceBlock(a), b)
  {
    TruncIdempotent(Net(a, if a.V4? then 24 else 48));
  }

  // ---- Grouping ----------------------------------------------------------------------------------

  function Keys<K(==)>(ss: seq<Sample>, key: Sample -> K): set<K> {
    set s | s in ss :: key(s)
  }

  function Weights<K(==)>(ss: seq<Sample>, key: Sample -> K, f: Sample -> u64): map<K, nat> {
    map k | k in Keys(ss, key) :: Cap(Weight(ss, key, f, k))
  }

  lemma {:induction false} AbsentWeighsNothing<K>(ss: seq<Sample>, key: Sample -> K, f: Sample -> u64, k: K)
    requires k !in Keys(ss, key)
    ensures Weight(ss, key, f, k) == 0
  {
    if ss == [] {
    } else {
      var before, s := ss[..|ss| - 1], ss[|ss| - 1];
      assert s in ss && forall x :: x in before ==> x in ss;
      assert k !in Keys(before, key);
      AbsentWeighsNothing(before, key, f, k);
    }
  }

  lemma WeightsStep<K>(ss: seq<Sample>, s: Sample, key: Sample -> K, f: Sample -> u64)
    ensures var m := Weights(ss, key, f);
            Weights(ss + [s], key, f) ==
            m[key(s) := SatAdd(if key(s) in m then m[key(s)] else 0, f(s))]
  {
    var m, all := Weights(ss, key, f), ss + [s];
    assert all[..|ss|] == ss;
    KeysStep(ss, s, key);
    if key(s) !in m {
      AbsentWeighsNothing(ss, key, f, key(s));
    }
    hide Keys;
  }

  lemma KeysStep<K>(ss: seq<Sample>, s: Sample, key: Sample -> K)
    ensures Keys(ss + [s], key) == Keys(ss, key) + {key(s)}
  {
    assert forall x :: x in ss + [s] <==> x in ss || x == s;
  }

  method Group<K(==)>(ss: seq<Sample>, key: Sample -> K, f: Sample -> u64) returns (m: map<K, nat>)
    ensures m == Weights(ss, key, f)
  {
    m := map[];
    assert m == Weights(ss[..0], key, f);
    hide Weights;
    for i := 0 to |ss|
      invariant m == Weights(ss[..i], key, f)
    {
      WeightsStep(ss[..i], ss[i], key, f);
      assert ss[..i + 1] == ss[..i] + [ss[i]];
      var k := key(ss[i]);
      var entry := if k in m then m[k] else 0;
      m := m[k := SatAdd(entry, f(ss[i]))];
    }
    assert ss[..|ss|] == ss;
  }

  // ---- Ranking -----------------------------------------------------------------------------------

  function Rates<K(==)>(m: map<K, nat>, secs: real): map<K, real>
    requires secs > 0.0
  {
    map k | k in m :: m[k] as real / secs
  }

  ghost predicate Listed<K(!new)>(xs: seq<(K, real)>, k: K) {
    exists i :: 0 <= i < |xs| && xs[i].0 == k
  }

  /** The `n` heaviest entries, heaviest first; ties may fall either way. */
  ghost predicate IsTop<K(!new)>(m: map<K, real>, n: nat, xs: seq<(K, real)>) {
    && |xs| == (if n < |m| then n else |m|)
    && (forall i :: 0 <= i < |xs| ==> xs[i].0 in m && xs[i].1 == m[xs[i].0])
    && (forall i, j :: 0 <= i < j < |xs| ==> xs[i].0 != xs[j].0)
    && (forall i, j :: 0 <= i < j < |xs| ==> xs[i].1 >= xs[j].1)
    && (forall k, i :: k in m && !Listed(xs, k) && 0 <= i < |xs| ==> m[k] <= xs[i].1)
    && (|m| <= n ==> forall k :: k in m ==> Listed(xs, k))
  }

  method Heaviest<K(==, !new)>(m: map<K, real>) returns (k: K)
    requires |m| > 0
    ensures k in m && forall j :: j in m ==> m[j] <= m[k]
  {
    var rest := m.Keys;
    assert rest != {};
    k :| k in rest;
    while rest != {}
      invariant rest <= m.Keys && k in m
      invariant forall j :: j in m && j !in rest ==> m[j] <= m[k]
      decreases |rest|
    {
      var j :| j in rest;
      if m[j] >= m[k] {
        k := j;
      }
      rest := rest - {j};
    }
  }

  /** A ranking under way: `xs` holds the heaviest so far and `rest` everything else. */
  ghost predicate Ranking<K(!new)>(m: map<K, real>, xs: seq<(K, real)>, rest: map<K, real>) {
    && |xs| + |rest| == |m|
    && (forall k :: k in rest <==> k in m && !Listed(xs, k))
    && (forall k :: k in rest ==> rest[k] == m[k])
    && (forall i :: 0 <= i < |xs| ==> xs[i].0 in m && xs[i].1 == m[xs[i].0])
    && (forall i, j :: 0 <= i < j < |xs| ==> xs[i].0 != xs[j].0)
    && (forall i, j :: 0 <= i < j < |xs| ==> xs[i].1 >= xs[j].1)
    && (forall k, i :: k in rest && 0 <= i < |xs| ==> rest[k] <= xs[i].1)
  }

  lemma ListedMore<K(!new)>(xs: seq<(K, real)>, x: (K, real), k: K)
    ensures Listed(xs + [x], k) <==> Listed(xs, k) || k == x.0
  {
    var all := xs + [x];
    if Listed(xs, k) {
      var i :| 0 <= i < |xs| && xs[i].0 == k;
      assert all[i].0 == k;
    }
    assert all[|xs|] == x;
  }

  lemma RankingStep<K(!new)>(m: map<K, real>, xs: seq<(K, real)>, rest: map<K, real>, k: K)
    requires Ranking(m, xs, rest) && k in rest && forall j :: j in rest ==> rest[j] <= rest[k]
    ensures Ranking(m, xs + [(k, rest[k])], rest - {k})
  {
    hide Listed;
    var xs', rest' := xs + [(k, rest[k])], rest - {k};
    assert rest'.Keys == rest.Keys - {k};
    forall j
      ensures j in rest' <==> j in m && !Listed(xs', j)
    {
      ListedMore(xs, (k, rest[k]), j);
    }
    forall i | 0 <= i < |xs|
      ensures xs[i].0 != k
    {
      ListedAt(xs, i);
    }
  }

  lemma ListedAt<K(!new)>(xs: seq<(K, real)>, i: nat)
    requires i < |xs|
    ensures Listed(xs, xs[i].0)
  {
  }

  method Top<K(==, !new)>(m: map<K, real>, n: nat) returns (xs: seq<(K, real)>)
    ensures IsTop(m, n, xs)
  {
    xs := [];
    var rest := m;
    while |xs| < n && |rest| > 0
      invariant |xs| <= n && Ranking(m, xs, rest)
      decreases |rest|
    {
      var k := Heaviest(rest);
      RankingStep(m, xs, rest, k);
      xs, rest := xs + [(k, rest[k])], rest - {k};
    }
  }

  // ---- Severity ----------------------------------------------------------------------------------

  /** `x / t >= k` as IEEE division has it for `x >= 0`: a zero threshold gives infinity, or no number for 0/0. */
  predicate AtLeast(x: real, t: real, k: real) {
    if t > 0.0 then x >= k * t else t == 0.0 && x > 0.0
  }

  function SeverityOf(pps: real, bps: real, ppsThreshold: real, bpsThreshold: real): Severity {
    if AtLeast(pps, ppsThreshold, 10.0) || AtLeast(bps, bpsThreshold, 10.0) then Critical
    else if AtLeast(pps, ppsThreshold, 2.0) || AtLeast(bps, bpsThreshold, 2.0) then High
    else Warning
  }

  // ---- The report --------------------------------------------------------------------------------

  ghost predicate IsDominant(ss: seq<Sample>, proto: byte) {
    var m := Weights(ss, ProtoOf, PacketsOf);
    if ss == [] then proto == 0 else proto in m && forall p :: p in m ==> m[p] <= m[proto]
  }

  function PopOf(agents: Registry, ss: seq<Sample>, secs: real, a: IpAddr): PopContribution
    requires secs > 0.0
  {
    PopContribution(
      NameOf(agents, a),
      Cap(Weight(ss, AgentOf, PacketsOf, a)) as real / secs,
      Cap(Weight(ss, AgentOf, BytesOf, a)) as real * 8.0 / secs)
  }

  /** One entry for every agent seen, heaviest first. */
  ghost predicate ArePops(agents: Registry, ss: seq<Sample>, secs: real, pops: seq<PopContribution>, ks: seq<IpAddr>)
    requires secs > 0.0
  {
    && |ks| == |pops| && Distinct(ks)
    && (forall a :: a in ks <==> a in Keys(ss, AgentOf))
    && (forall i :: 0 <= i < |pops| ==> pops[i] == PopOf(agents, ss, secs, ks[i]))
    && (forall i, j :: 0 <= i < j < |pops| ==> pops[i].pps >= pops[j].pps)
  }

  ghost predicate HasPops(agents: Registry, ss: seq<Sample>, secs: real, pops: seq<PopContribution>)
    requires secs > 0.0
  {
    exists ks :: ArePops(agents, ss, secs, pops, ks)
  }

  ghost predicate Describes(agents: Registry, ss: seq<Sample>, secs: real, d: Detection)
    requires secs > 0.0
  {
    && d.pps == Cap(Sum(ss, PacketsOf)) as real / secs
    && d.bps == Cap(Sum(ss, BytesOf)) as real * 8.0 / secs
    && IsDominant(ss, d.proto)
    && IsTop(Rates(Weights(ss, SourceOf, PacketsOf), secs), 3, d.topSources)
    && IsTop(Rates(Weights(ss, PortOf, PacketsOf), secs), 3, d.topPorts)
    && IsTop(Rates(Weights(ss, BlockOf, PacketsOf), secs), 5, d.topSourceBlocks)
    && HasPops(agents, ss, secs, d.pops)
  }

  method DominantProto(ss: seq<Sample>) returns (proto: byte)
    ensures IsDominant(ss, proto)
  {
    var counts := Group(ss, ProtoOf, PacketsOf);
    if |counts| == 0 {
      proto := 0;
      assert ss != [] ==> ProtoOf(ss[0]) in counts;
    } else {
      var rates := map p | p in counts :: counts[p] as real;
      assert rates.Keys == counts.Keys;
      proto := Heaviest(rates);
      assert forall p :: p in counts ==> rates[p] <= rates[proto];
    }
  }

  method TopBy<K(==, !new)>(ss: seq<Sample>, key: Sample -> K, n: nat, secs: real) returns (xs: seq<(K, real)>)
    requires secs > 0.0
    ensures IsTop(Rates(Weights(ss, key, PacketsOf), secs), n, xs)
  {
    var m := Group(ss, key, PacketsOf);
    xs := Top(Rates(m, secs), n);
  }

  lemma RankedIsPop(agents: Registry, ss: seq<Sample>, secs: real, n: nat, ranked: seq<(IpAddr, real)>, i: nat)
    requires secs > 0.0 && i < |ranked| && IsTop(Rates(Weights(ss, AgentOf, PacketsOf), secs), n, ranked)
    ensures var a := ranked[i].0;
            && a in Weights(ss, AgentOf, BytesOf)
            && PopContribution(NameOf(agents, a), ranked[i].1, Weights(ss, AgentOf, BytesOf)[a] as real * 8.0 / secs) ==
               PopOf(agents, ss, secs, a)
  {
    hide Weight, Keys;
  }

  lemma RatedAgents(ss: seq<Sample>, secs: real)
    requires secs > 0.0
    ensures var m := Weights(ss, AgentOf, PacketsOf);
            Rates(m, secs).Keys == Keys(ss, AgentOf) && |Rates(m, secs)| == |m|
  {
    hide Weight, Keys;
    var m := Weights(ss, AgentOf, PacketsOf);
    assert Rates(m, secs).Keys == m.Keys;
    assert |Rates(m, secs)| == |Rates(m, secs).Keys| && |m| == |m.Keys|;
  }

  lemma RankedAgents(ss: seq<Sample>, secs: real, ranked: seq<(IpAddr, real)>, ks: seq<IpAddr>)
    requires secs > 0.0
    requires var m := Weights(ss, AgentOf, PacketsOf); IsTop(Rates(m, secs), |m|, ranked)
    requires |ks| == |ranked| && forall j :: 0 <= j < |ks| ==> ks[j] == ranked[j].0
    ensures Distinct(ks) && forall a :: a in ks <==> a in Keys(ss, AgentOf)
  {
    hide Weights, Rates, Keys;
    RatedAgents(ss, secs);
    forall a | a in Keys(ss, AgentOf)
      ensures a in ks
    {
      assert Listed(ranked, a);
      var i :| 0 <= i < |ranked| && ranked[i].0 == a;
      assert ks[i] == a;
    }
  }

  method PopShares(agents: Registry, ss: seq<Sample>, secs: real) returns (pops: seq<PopContribution>)
    requires secs > 0.0
    ensures HasPops(agents, ss, secs, pops)
  {
    hide Weights, Rates, PopOf, IsTop, HasPops;
    var packets := Group(ss, AgentOf, PacketsOf);
    var bytes := Group(ss, AgentOf, BytesOf);
    var ranked := Top(Rates(packets, secs), |packets|);
    pops := [];
    for i := 0 to |ranked|
      invariant |pops| == i
      invariant forall j :: 0 <= j < i ==> pops[j] == PopOf(agents, ss, secs, ranked[j].0) && pops[j].pps == ranked[j].1
    {
      RankedIsPop(agents, ss, secs, |packets|, ranked, i);
      var a := ranked[i].0;
      pops := pops + [PopContribution(NameOf(agents, a), ranked[i].1, bytes[a] as real * 8.0 / secs)];
    }
    RankedArePops(agents, ss, secs, ranked, pops);
  }

  lemma RankedArePops(
    agents: Registry, ss: seq<Sample>, secs: real, ranked: seq<(IpAddr, real)>, pops: seq<PopContribution>)
    requires secs > 0.0 && |pops| == |ranked|
    requires var m := Weights(ss, AgentOf, PacketsOf); IsTop(Rates(m, secs), |m|, ranked)
    requires forall j :: 0 <= j < |pops| ==>
                           pops[j] == PopOf(agents, ss, secs, ranked[j].0) && pops[j].pps == ranked[j].1
    ensures HasPops(agents, ss, secs, pops)
  {
    hide Weights, Rates, Keys, PopOf;
    var ks := seq(|ranked|, i requires 0 <= i < |ranked| => ranked[i].0);
    RankedAgents(ss, secs, ranked, ks);
    assert ArePops(agents, ss, secs, pops, ks);
  }

  method BuildDetection(
    agents: Registry, ss: seq<Sample>, secs: real, target: IpAddr, pps: real, bps: real,
    ppsThreshold: real, bpsThreshold: real, firstSeen: u64, lastSeen: u64)
    returns (d: Detection)
    requires secs > 0.0
    requires pps == Cap(Sum(ss, PacketsOf)) as real / secs
    requires bps == Cap(Sum(ss, BytesOf)) as real * 8.0 / secs
    ensures Describes(agents, ss, secs, d)
    ensures d.target == target && d.firstSeen == firstSeen && d.lastSeen == lastSeen
    ensures d.severity == SeverityOf(pps, bps, ppsThreshold, bpsThreshold)
  {
    hide IsTop, IsDominant, HasPops, Weights, Rates;
    var proto := DominantProto(ss);
    var topSources := TopBy(ss, SourceOf, 3, secs);
    var topPorts := TopBy(ss, PortOf, 3, secs);
    var pops := PopShares(agents, ss, secs);
    var blocks := TopBy(ss, BlockOf, 5, secs);
    d := Detection(target, pps, bps, proto, topSources, topPorts, pops, blocks,
                   SeverityOf(pps, bps, ppsThreshold, bpsThreshold), firstSeen, lastSeen);
  }

  // ---- What a report conserves ---------------------------------------------------------------------

  function PopPps(pops: seq<PopContribution>): real {
    if pops == [] then 0.0 else PopPps(pops[..|pops| - 1]) + pops[|pops| - 1].pps
  }

  function PopBps(pops: seq<PopContribution>): real {
    if pops == [] then 0.0 else PopBps(pops[..|pops| - 1]) + pops[|pops| - 1].bps
  }

  lemma RatesAdd(x: real, y: real, secs: real)
    requires secs > 0.0
    ensures (x + y) / secs == x / secs + y / secs
  {
  }

  lemma {:induction false} PopsAreWeights(
    agents: Registry, ss: seq<Sample>, secs: real, pops: seq<PopContribution>, ks: seq<IpAddr>)
    requires secs > 0.0 && |ss| <= USIZE_MAX && |ks| == |pops|
    requires forall i :: 0 <= i < |pops| ==> pops[i] == PopOf(agents, ss, secs, ks[i])
    ensures PopPps(pops) == SumWeights(ss, AgentOf, PacketsOf, ks) as real / secs
    ensures PopBps(pops) == SumWeights(ss, AgentOf, BytesOf, ks) as real * 8.0 / secs
  {
    hide Weight, Cap;
    if pops == [] {
    } else {
      var n := |pops| - 1;
      PopsAreWeights(agents, ss, secs, pops[..n], ks[..n]);
      NothingSaturates(ss, AgentOf, PacketsOf, ks[n]);
      NothingSaturates(ss, AgentOf, BytesOf, ks[n]);
      var p, b := SumWeights(ss, AgentOf, PacketsOf, ks[..n]), SumWeights(ss, AgentOf, BytesOf, ks[..n]);
      RatesAdd(p as real, Weight(ss, AgentOf, PacketsOf, ks[n]) as real, secs);
      RatesAdd(b as real * 8.0, Weight(ss, AgentOf, BytesOf, ks[n]) as real * 8.0, secs);
    }
  }

  /** The POP shares of a detection add up to what it says was observed. */
  lemma PopsAddUp(agents: Registry, ss: seq<Sample>, secs: real, d: Detection)
    requires secs > 0.0 && |ss| <= USIZE_MAX && Describes(agents, ss, secs, d)
    ensures PopPps(d.pops) == d.pps && PopBps(d.pops) == d.bps
  {
    hide IsTop, IsDominant, Rates, Weights, Sum, SumWeights, PopPps, PopBps, Cap;
    var ks :| ArePops(agents, ss, secs, d.pops, ks);
    PopsAreWeights(agents, ss, secs, d.pops, ks);
    GroupsAddUp(ss, AgentOf, PacketsOf, ks);
    GroupsAddUp(ss, AgentOf, BytesOf, ks);
    NothingSaturates(ss, AgentOf, PacketsOf, d.target);
    NothingSaturates(ss, AgentOf, BytesOf, d.target);
  }

  // ---- What the lists say --------------------------------------------------------------------------

  /** The packets of the samples from a source, to a port, from within a block, of a protocol, by an agent. */
  function FromSource(ss: seq<Sample>, src: IpAddr): nat {
    if ss == [] then 0
    else FromSource(ss[..|ss| - 1], src) + if ss[|ss| - 1].src == src then ss[|ss| - 1].packets else 0
  }

  function ToPort(ss: seq<Sample>, port: u16): nat {
    if ss == [] then 0
    else ToPort(ss[..|ss| - 1], port) + if ss[|ss| - 1].dstPort == port then ss[|ss| - 1].packets else 0
  }

  function FromBlock(ss: seq<Sample>, block: IpNet): nat {
    if ss == [] then 0
    else FromBlock(ss[..|ss| - 1], block) + if Contains(block, ss[|ss| - 1].src) then ss[|ss| - 1].packets else 0
  }

  function OfProto(ss: seq<Sample>, proto: byte): nat {
    if ss == [] then 0
    else OfProto(ss[..|ss| - 1], proto) + if ss[|ss| - 1].proto == proto then ss[|ss| - 1].packets else 0
  }

  function ByAgent(ss: seq<Sample>, agent: IpAddr): nat {
    if ss == [] then 0
    else ByAgent(ss[..|ss| - 1], agent) + if ss[|ss| - 1].agent == agent then ss[|ss| - 1].packets else 0
  }

  function OctetsByAgent(ss: seq<Sample>, agent: IpAddr): nat {
    if ss == [] then 0
    else OctetsByAgent(ss[..|ss| - 1], agent) + if ss[|ss| - 1].agent == agent then ss[|ss| - 1].bytes else 0
  }

  lemma {:induction false} WeightsMean(ss: seq<Sample>, src: IpAddr, port: u16, proto: byte, agent: IpAddr)
    ensures Weight(ss, SourceOf, PacketsOf, src) == FromSource(ss, src)
    ensures Weight(ss, PortOf, PacketsOf, port) == ToPort(ss, port)
    ensures Weight(ss, ProtoOf, PacketsOf, proto) == OfProto(ss, proto)
    ensures Weight(ss, AgentOf, PacketsOf, agent) == ByAgent(ss, agent)
    ensures Weight(ss, AgentOf, BytesOf, agent) == OctetsByAgent(ss, agent)
  {
    if ss == [] {
    } else {
      WeightsMean(ss[..|ss| - 1], src, port, proto, agent);
    }
  }

  /** A /24 or a /48 with its host bits clear. */
  predicate IsBlock(n: IpNet) {
    n.bits == (if n.addr.V4? then 24 else 48) && HostBitsClear(n)
  }

  lemma BlockOfSource(src: IpAddr, block: IpNet)
    ensures IsBlock(SourceBlock(src))
    ensures IsBlock(block) ==> (SourceBlock(src) == block <==> Contains(block, src))
  {
    TruncIdempotent(Net(src, if src.V4? then 24 else 48));
  }

  lemma {:induction false} BlockWeightMeans(ss: seq<Sample>, block: IpNet)
    requires IsBlock(block)
    ensures Weight(ss, BlockOf, PacketsOf, block) == FromBlock(ss, block)
  {
    hide SourceBlock, IsBlock, Contains;
    if ss == [] {
    } else {
      BlockWeightMeans(ss[..|ss| - 1], block);
      BlockOfSource(ss[|ss| - 1].src, block);
    }
  }

  lemma RankedMeans<K(!new)>(ss: seq<Sample>, key: Sample -> K, secs: real, n: nat, xs: seq<(K, real)>, i: nat)
    requires secs > 0.0 && IsTop(Rates(Weights(ss, key, PacketsOf), secs), n, xs) && i < |xs|
    ensures xs[i].0 in Keys(ss, key) && xs[i].1 == Cap(Weight(ss, key, PacketsOf, xs[i].0)) as real / secs
  {
    hide Weight, Keys;
  }

  /** Every entry of a detection's lists says how fast its source, port or block sent; the protocol sent most. */
  lemma ListsMean(agents: Registry, ss: seq<Sample>, secs: real, d: Detection, i: nat)
    requires secs > 0.0 && Describes(agents, ss, secs, d)
    ensures i < |d.topSources| ==> d.topSources[i].1 == Cap(FromSource(ss, d.topSources[i].0)) as real / secs
    ensures i < |d.topPorts| ==> d.topPorts[i].1 == Cap(ToPort(ss, d.topPorts[i].0)) as real / secs
    ensures i < |d.topSourceBlocks| ==>
              && IsBlock(d.topSourceBlocks[i].0)
              && d.topSourceBlocks[i].1 == Cap(FromBlock(ss, d.topSourceBlocks[i].0)) as real / secs
    ensures i < |ss| ==> Cap(OfProto(ss, ss[i].proto)) <= Cap(OfProto(ss, d.proto))
  {
    hide IsTop, IsDominant, Rates, Weights, Weight, HasPops, Sum, FromSource, ToPort, FromBlock, OfProto, IsBlock;
    if i < |d.topSources| {
      RankedMeans(ss, SourceOf, secs, 3, d.topSources, i);
      WeightsMean(ss, d.topSources[i].0, 0, 0, d.target);
    }
    if i < |d.topPorts| {
      RankedMeans(ss, PortOf, secs, 3, d.topPorts, i);
      WeightsMean(ss, d.target, d.topPorts[i].0, 0, d.target);
    }
    if i < |d.topSourceBlocks| {
      BlocksMean(ss, secs, d.topSourceBlocks, i);
    }
    if i < |ss| {
      DominantMeans(ss, d.proto, i);
    }
  }

  lemma BlocksMean(ss: seq<Sample>, secs: real, xs: seq<(IpNet, real)>, i: nat)
    requires secs > 0.0 && IsTop(Rates(Weights(ss, BlockOf, PacketsOf), secs), 5, xs) && i < |xs|
    ensures IsBlock(xs[i].0) && xs[i].1 == Cap(FromBlock(ss, xs[i].0)) as real / secs
  {
    hide IsTop, Rates, Weights, Weight, FromBlock, SourceBlock, IsBlock;
    RankedMeans(ss, BlockOf, secs, 5, xs, i);
    var s :| s in ss && BlockOf(s) == xs[i].0;
    BlockOfSource(s.src, xs[i].0);
    BlockWeightMeans(ss, xs[i].0);
  }

  lemma DominantMeans(ss: seq<Sample>, proto: byte, i: nat)
    requires IsDominant(ss, proto) && i < |ss|
    ensures Cap(OfProto(ss, ss[i].proto)) <= Cap(OfProto(ss, proto))
  {
    hide Weight, OfProto;
    WeightsMean(ss, ss[i].src, 0, ss[i].proto, ss[i].src);
    WeightsMean(ss, ss[i].src, 0, proto, ss[i].src);
    assert ProtoOf(ss[i]) in Keys(ss, ProtoOf);
    var m := Weights(ss, ProtoOf, PacketsOf);
    assert ss[i].proto in m && proto in m;
  }

  /** Every share is that of one agent, by its name or as unknown, in packets and in bits. */
  lemma SharesMean(agents: Registry, ss: seq<Sample>, secs: real, pops: seq<PopContribution>, i: nat) returns (a: IpAddr)
    requires secs > 0.0 && HasPops(agents, ss, secs, pops) && i < |pops|
    ensures pops[i].pop == (if a in agents then agents[a].name else "unknown")
    ensures pops[i].pps == Cap(ByAgent(ss, a)) as real / secs
    ensures pops[i].bps == Cap(OctetsByAgent(ss, a)) as real * 8.0 / secs
  {
    hide Weight, Cap, Keys, ByAgent, OctetsByAgent;
    var ks :| ArePops(agents, ss, secs, pops, ks);
    a := ks[i];
    WeightsMean(ss, a, 0, 0, a);
  }

  lemma {:induction false} WeightIsSumWhere<K>(ss: seq<Sample>, key: Sample -> K, f: Sample -> u64, k: K, p: Sample -> bool)
    requires forall s :: p(s) <==> key(s) == k
    ensures Weight(ss, key, f, k) == SumWhere(ss, p, f)
  {
    if ss == [] {
    } else {
      WeightIsSumWhere(ss[..|ss| - 1], key, f, k, p);
    }
  }

  /** A block weighs what its sources weigh together. */
  lemma BlockIsItsSources(ss: seq<Sample>, f: Sample -> u64, block: IpNet, sources: seq<IpAddr>)
    requires Distinct(sources)
    requires forall s :: s in ss ==> (SourceBlock(s.src) == block <==> s.src in sources)
    ensures Weight(ss, BlockOf, f, block) == SumWeights(ss, SourceOf, f, sources)
  {
    hide SourceBlock;
    var p := (s: Sample) => BlockOf(s) == block;
    WeightIsSumWhere(ss, BlockOf, f, block, p);
    WeightsAddUp(ss, SourceOf, f, p, sources);
  }

  /** With positive thresholds the severity buckets the larger of the two ratios. */
  lemma SeverityBuckets(pps: real, bps: real, pt: real, bt: real)
    requires pt > 0.0 && bt > 0.0
    ensures var r := if pps / pt >= bps / bt then pps / pt else bps / bt;
            && (SeverityOf(pps, bps, pt, bt) == Critical <==> r >= 10.0)
            && (SeverityOf(pps, bps, pt, bt) == High <==> 2.0 <= r < 10.0)
            && (pps > pt || bps > bt ==> r > 1.0)
  {
    RatioAtLeast(pps, pt, 10.0);
    RatioAtLeast(bps, bt, 10.0);
    RatioAtLeast(pps, pt, 2.0);
    RatioAtLeast(bps, bt, 2.0);
    RatioAtLeast(pps, pt, 1.0);
    RatioAtLeast(bps, bt, 1.0);
  }

  /** A threshold of zero is exceeded without bound by any traffic, and says nothing of none. */
  lemma SeverityAtZero(pps: real, bps: real, pt: real, bt: real)
    requires pps >= 0.0 && bps >= 0.0
    ensures (pt == 0.0 && pps > 0.0) || (bt == 0.0 && bps > 0.0) ==> SeverityOf(pps, bps, pt, bt) == Critical
    ensures pt == 0.0 && bt == 0.0 && pps == 0.0 && bps == 0.0 ==> SeverityOf(pps, bps, pt, bt) == Warning
  {
  }

  lemma RatioAtLeast(x: real, t: real, k: real)
    requires t > 0.0
    ensures x / t >= k <==> x >= k * t
    ensures x / t > k <==> x > k * t
  {
    var q := x / t;
    assert x == q * t;
    if q > k {
      assert (q - k) * t > 0.0;
    } else if q < k {
      assert (k - q) * t > 0.0;
    }
  }
}
