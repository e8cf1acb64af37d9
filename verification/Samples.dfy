/** Recorded samples, and sums over them in 128-bit saturating arithmetic. */
module Samples {
  import opened Bytes
  import opened Net
  import opened Sequences

  datatype Sample = Sample(
    ts: u64, src: IpAddr, dstPort: u16, proto: byte, packets: u64, bytes: u64, agent: IpAddr)

  /** A vector never holds more elements than this. */
  const USIZE_MAX := U64_MAX

  function PacketsOf(s: Sample): u64 { s.packets }
  function BytesOf(s: Sample): u64 { s.bytes }

  function Cap(n: nat): nat {
    if n <= U128_MAX then n else U128_MAX
  }

  function SatAdd(x: nat, y: nat): nat {
    Cap(x + y)
  }

  function Sum(ss: seq<Sample>, f: Sample -> u64): nat {
    if ss == [] then 0 else Sum(ss[..|ss| - 1], f) + f(ss[|ss| - 1])
  }

  /** The sum over the samples of one key. */
  function Weight<K(==)>(ss: seq<Sample>, key: Sample -> K, f: Sample -> u64, k: K): nat {
    if ss == [] then 0
    else
      var s := ss[|ss| - 1];
      Weight(ss[..|ss| - 1], key, f, k) + if key(s) == k then f(s) else 0
  }

  method Total(ss: seq<Sample>, f: Sample -> u64) returns (t: nat)
    ensures t == Cap(Sum(ss, f))
  {
    t := 0;
    for i := 0 to |ss|
      invariant t == Cap(Sum(ss[..i], f))
    {
      assert ss[..i + 1][..i] == ss[..i];
      t := SatAdd(t, f(ss[i]));
    }
    assert ss[..|ss|] == ss;
  }

  lemma {:induction false} SumBound(ss: seq<Sample>, f: Sample -> u64)
    ensures Sum(ss, f) <= |ss| * U64_MAX
  {
    if ss == [] {
    } else {
      SumBound(ss[..|ss| - 1], f);
    }
  }

  lemma {:induction false} WeightBound<K>(ss: seq<Sample>, key: Sample -> K, f: Sample -> u64, k: K)
    ensures Weight(ss, key, f, k) <= Sum(ss, f)
  {
    if ss == [] {
    } else {
      WeightBound(ss[..|ss| - 1], key, f, k);
    }
  }

  /** No vector of samples is long enough to reach the 128-bit ceiling. */
  lemma NothingSaturates<K>(ss: seq<Sample>, key: Sample -> K, f: Sample -> u64, k: K)
    requires |ss| <= USIZE_MAX
    ensures Cap(Sum(ss, f)) == Sum(ss, f) && Cap(Weight(ss, key, f, k)) == Weight(ss, key, f, k)
  {
    SumBound(ss, f);
    WeightBound(ss, key, f, k);
    assert |ss| * U64_MAX <= U64_MAX * U64_MAX;
  }

  // ---- Conservation --------------------------------------------------------------------------

  function SumWeights<K(==)>(ss: seq<Sample>, key: Sample -> K, f: Sample -> u64, ks: seq<K>): nat {
    if ks == [] then 0 else SumWeights(ss, key, f, ks[..|ks| - 1]) + Weight(ss, key, f, ks[|ks| - 1])
  }

  /** One more sample adds to exactly the key it carries, if that is listed. */
  lemma {:induction false} SumWeightsStep<K(!new)>(
    ss: seq<Sample>, s: Sample, key: Sample -> K, f: Sample -> u64, ks: seq<K>)
    requires Distinct(ks)
    ensures SumWeights(ss + [s], key, f, ks) == SumWeights(ss, key, f, ks) + if key(s) in ks then f(s) else 0
  {
    if ks == [] {
    } else {
      var before := ks[..|ks| - 1];
      SumWeightsStep(ss, s, key, f, before);
      assert (ss + [s])[..|ss|] == ss;
      assert ks == before + [ks[|ks| - 1]];
    }
  }

  function SumWhere(ss: seq<Sample>, p: Sample -> bool, f: Sample -> u64): nat {
    if ss == [] then 0
    else
      var s := ss[|ss| - 1];
      SumWhere(ss[..|ss| - 1], p, f) + if p(s) then f(s) else 0
  }

  /** The keys of the samples that satisfy `p`, and those alone, add up to the samples that satisfy `p`. */
  lemma {:induction false} WeightsAddUp<K(!new)>(
    ss: seq<Sample>, key: Sample -> K, f: Sample -> u64, p: Sample -> bool, ks: seq<K>)
    requires Distinct(ks) && forall s :: s in ss ==> (p(s) <==> key(s) in ks)
    ensures SumWeights(ss, key, f, ks) == SumWhere(ss, p, f)
  {
    if ss == [] {
      NoWeights(key, f, ks);
    } else {
      var before, s := ss[..|ss| - 1], ss[|ss| - 1];
      assert ss == before + [s];
      WeightsAddUp(before, key, f, p, ks);
      SumWeightsStep(before, s, key, f, ks);
    }
  }

  lemma {:induction false} NoWeights<K>(key: Sample -> K, f: Sample -> u64, ks: seq<K>)
    ensures SumWeights([], key, f, ks) == 0
  {
    if ks == [] {
    } else {
      NoWeights(key, f, ks[..|ks| - 1]);
    }
  }

  lemma {:induction false} SumEverywhere(ss: seq<Sample>, p: Sample -> bool, f: Sample -> u64)
    requires forall s :: s in ss ==> p(s)
    ensures SumWhere(ss, p, f) == Sum(ss, f)
  {
    if ss == [] {
    } else {
      SumEverywhere(ss[..|ss| - 1], p, f);
    }
  }

  /** Any grouping conserves the window's total. */
  lemma GroupsAddUp<K(!new)>(ss: seq<Sample>, key: Sample -> K, f: Sample -> u64, ks: seq<K>)
    requires Distinct(ks) && forall s :: s in ss ==> key(s) in ks
    ensures SumWeights(ss, key, f, ks) == Sum(ss, f)
  {
    var all := (s: Sample) => true;
    WeightsAddUp(ss, key, f, all, ks);
    SumEverywhere(ss, all, f);
  }
}
