/** IP addresses and prefixes, octet by octet (the `ipnet` crate's view of them). */
module Net {
  import opened Arithmetic
  import opened Bytes

  type Octets4 = o: seq<byte> | |o| == 4 witness [0, 0, 0, 0]
  type Octets16 = o: seq<byte> | |o| == 16 witness seq(16, _ => 0)

  datatype IpAddr = V4(o4: Octets4) | V6(o6: Octets16) {
    function Octets(): seq<byte> {
      match this
      case V4(o) => o
      case V6(o) => o
    }

    function Width(): nat {
      if V4? then 32 else 128
    }
  }

  datatype RawNet = Net(addr: IpAddr, bits: nat)

  /** A prefix: an address, host bits included, and a length that fits its family. */
  type IpNet = n: RawNet | n.bits <= n.addr.Width() witness Net(V4([0, 0, 0, 0]), 0)

  /** The value of the lowest bit kept when the top `keep` bits of an octet are kept. */
  function Unit(keep: int): (u: nat)
    requires 0 < keep < 8
    ensures u > 0
  {
    if keep == 1 then 128 else if keep == 2 then 64 else if keep == 3 then 32 else if keep == 4 then 16
    else if keep == 5 then 8 else if keep == 6 then 4 else 2
  }

  function MaskOctet(b: byte, keep: int): (m: byte)
    ensures m <= b
  {
    if keep >= 8 then b else if keep <= 0 then 0 else b - b % Unit(keep)
  }

  lemma UnitIsPower(keep: int)
    requires 0 < keep < 8
    ensures Unit(keep) == Pow2(8 - keep)
  {
    assert Pow2(1) == 2 && Pow2(2) == 4 && Pow2(3) == 8 && Pow2(4) == 16;
    assert Pow2(5) == 32 && Pow2(6) == 64 && Pow2(7) == 128;
  }

  /** Masking gives the one multiple of the lowest kept bit that is at most the octet and within one unit of it. */
  lemma MaskOctetExactly(b: byte, keep: int, m: byte)
    requires 0 < keep < 8
    ensures m == MaskOctet(b, keep) <==> m % Pow2(8 - keep) == 0 && m <= b < m + Pow2(8 - keep)
  {
    UnitIsPower(keep);
    hide Unit, Pow2;
    var u := Pow2(8 - keep);
    DivModUnique(b - b % u, u, b / u, 0);
    if m % u == 0 && m <= b < m + u {
      DivModUnique(b, u, m / u, b - m);
    }
  }

  lemma MaskOctetIdempotent(b: byte, keep: int)
    ensures MaskOctet(MaskOctet(b, keep), keep) == MaskOctet(b, keep)
  {
    hide Unit;
    if 0 < keep < 8 {
      var u := Unit(keep);
      DivModUnique(b - b % u, u, b / u, 0);
    }
  }

  /** Host bits cleared. */
  function TruncOctets(o: seq<byte>, bits: nat): (t: seq<byte>)
    ensures |t| == |o|
    ensures forall i :: 0 <= i < |o| ==> t[i] == MaskOctet(o[i], bits - 8 * i)
  {
    seq(|o|, i requires 0 <= i < |o| => MaskOctet(o[i], bits - 8 * i))
  }

  function Trunc(n: IpNet): IpNet {
    match n.addr
    case V4(o) => Net(V4(TruncOctets(o, n.bits)), n.bits)
    case V6(o) => Net(V6(TruncOctets(o, n.bits)), n.bits)
  }

  predicate HostBitsClear(n: IpNet) {
    Trunc(n) == n
  }

  lemma TruncIdempotent(n: IpNet)
    ensures HostBitsClear(Trunc(n))
  {
    var o := n.addr.Octets();
    var t := TruncOctets(o, n.bits);
    forall i | 0 <= i < |o|
      ensures TruncOctets(t, n.bits)[i] == t[i]
    {
      MaskOctetIdempotent(o[i], n.bits - 8 * i);
    }
    assert TruncOctets(t, n.bits) == t;
  }

  /** A host route has no host bits to clear. */
  lemma HostRouteIsClear(n: IpNet)
    requires n.bits == n.addr.Width()
    ensures HostBitsClear(n)
  {
    assert TruncOctets(n.addr.Octets(), n.bits) == n.addr.Octets();
  }

  /** Number of address octets a prefix of `bits` bits occupies on the wire. */
  function OctetCount(bits: nat): nat {
    (bits + 7) / 8
  }

  function Zeros(n: nat): (z: seq<byte>)
    ensures |z| == n && forall i :: 0 <= i < n ==> z[i] == 0
  {
    seq(n, _ => 0)
  }

  /** What is left after the octets on the wire is all zero. */
  lemma TruncPadded(o: seq<byte>, bits: nat)
    requires OctetCount(bits) <= |o|
    ensures TruncOctets(o, bits) == TruncOctets(o, bits)[..OctetCount(bits)] + Zeros(|o| - OctetCount(bits))
  {
  }

  /** `IpNet::contains`: same family and the same network bits. */
  predicate Contains(n: IpNet, a: IpAddr) {
    && n.addr.V4? == a.V4?
    && TruncOctets(a.Octets(), n.bits) == TruncOctets(n.addr.Octets(), n.bits)
  }

  /** Bit `i` of an octet, the highest first. */
  function BitOf(b: byte, i: nat): nat
    requires i < 8
  {
    b / Pow2(7 - i) % 2
  }

  /** Bit `k` of an address, the highest first. */
  function AddrBit(a: IpAddr, k: nat): nat
    requires k < a.Width()
  {
    BitOf(a.Octets()[k / 8], k % 8)
  }

  ghost predicate SameBits(b: byte, c: byte, n: nat)
    requires n <= 8
  {
    forall i :: 0 <= i < n ==> BitOf(b, i) == BitOf(c, i)
  }

  lemma SameBitsMore(b: byte, c: byte, n: nat)
    requires 0 < n <= 8
    ensures SameBits(b, c, n) <==> SameBits(b, c, n - 1) && BitOf(b, n - 1) == BitOf(c, n - 1)
  {
    hide BitOf;
  }

  /** The number the first `n` bits of an octet make. */
  function High(b: byte, n: nat): int
    requires n <= 8
  {
    b / Pow2(8 - n)
  }

  /** The first `n` bits of two octets agree exactly when they make the same number. */
  lemma {:induction false} TopBits(b: byte, c: byte, n: nat)
    requires n <= 8
    ensures SameBits(b, c, n) <==> High(b, n) == High(c, n)
  {
    hide SameBits, BitOf, High;
    if n == 0 {
      NoBits(b, c);
    } else {
      TopBits(b, c, n - 1);
      SameBitsMore(b, c, n);
      LastBit(b, n);
      LastBit(c, n);
      SameByHalves(High(b, n), High(c, n));
    }
  }

  lemma LastBit(b: byte, n: nat)
    requires 0 < n <= 8
    ensures High(b, n) % 2 == BitOf(b, n - 1) && High(b, n) / 2 == High(b, n - 1)
  {
    hide Pow2;
    Halve(b, 8 - n);
  }

  lemma SameByHalves(x: int, y: int)
    ensures x == y <==> x / 2 == y / 2 && x % 2 == y % 2
  {
  }

  lemma NoBits(b: byte, c: byte)
    ensures SameBits(b, c, 0) && High(b, 0) == High(c, 0)
  {
    assert Pow2(4) == 16;
    assert Pow2(8) == 256;
  }

  lemma MaskIsHigh(b: byte, keep: int)
    requires 0 < keep < 8
    ensures MaskOctet(b, keep) == High(b, keep) * Pow2(8 - keep)
    ensures MaskOctet(b, keep) / Pow2(8 - keep) == High(b, keep)
  {
    UnitIsPower(keep);
    hide Unit, Pow2;
    var u := Pow2(8 - keep);
    assert b - b % u == b / u * u;
    DivModUnique(b - b % u, u, b / u, 0);
  }

  /** Masks agree exactly when the bits kept agree. */
  lemma MasksAgree(b: byte, c: byte, keep: int)
    ensures var n := if keep < 0 then 0 else if keep > 8 then 8 else keep;
            MaskOctet(b, keep) == MaskOctet(c, keep) <==> SameBits(b, c, n)
  {
    if 0 < keep < 8 {
      hide MaskOctet, Pow2, High, SameBits;
      TopBits(b, c, keep);
      MaskIsHigh(b, keep);
      MaskIsHigh(c, keep);
    } else if keep <= 0 {
      NoBits(b, c);
    } else {
      TopBits(b, c, 8);
    }
  }

  lemma ZeroBit(m: byte, keep: nat, i: nat)
    requires keep <= i < 8 && m % Pow2(8 - keep) == 0
    ensures BitOf(m, i) == 0
  {
    PowAdd(7 - i, i - keep + 1);
    assert Pow2(i - keep + 1) == 2 * Pow2(i - keep);
    hide Pow2;
    EvenQuotient(m, Pow2(7 - i), Pow2(i - keep));
  }

  lemma MaskedBit(b: byte, keep: int, i: nat)
    requires i < 8
    ensures BitOf(MaskOctet(b, keep), i) == if i < keep then BitOf(b, i) else 0
  {
    if i < keep {
      hide BitOf;
      MaskOctetIdempotent(b, keep);
      MasksAgree(b, MaskOctet(b, keep), keep);
    } else if keep <= 0 {
      ZeroOctet(i);
    } else {
      MaskOctetExactly(b, keep, MaskOctet(b, keep));
      hide MaskOctet, BitOf;
      ZeroBit(MaskOctet(b, keep), keep, i);
    }
  }

  lemma ZeroOctet(i: nat)
    requires i < 8
    ensures BitOf(0, i) == 0
  {
    DivModUnique(0, Pow2(7 - i), 0, 0);
  }

  /** Truncation keeps the first `bits` bits and clears the others. */
  lemma TruncExactly(n: IpNet, k: nat)
    requires k < n.addr.Width()
    ensures Trunc(n).bits == n.bits && Trunc(n).addr.V4? == n.addr.V4?
    ensures AddrBit(Trunc(n).addr, k) == if k < n.bits then AddrBit(n.addr, k) else 0
  {
    hide MaskOctet, BitOf;
    MaskedBit(n.addr.Octets()[k / 8], n.bits - 8 * (k / 8), k % 8);
  }

  ghost predicate NetworkBits(n: IpNet, a: IpAddr)
    requires n.addr.V4? == a.V4?
  {
    forall k :: 0 <= k < n.bits ==> AddrBit(a, k) == AddrBit(n.addr, k)
  }

  /** A prefix contains exactly the addresses of its family that share its first `bits` bits. */
  lemma ContainsExactly(n: IpNet, a: IpAddr)
    ensures Contains(n, a) <==> n.addr.V4? == a.V4? && NetworkBits(n, a)
  {
    hide MaskOctet, BitOf;
    if n.addr.V4? == a.V4? {
      var o, p := n.addr.Octets(), a.Octets();
      forall i | 0 <= i < |o|
        ensures var m := n.bits - 8 * i; var top := if m < 0 then 0 else if m > 8 then 8 else m;
                MaskOctet(p[i], m) == MaskOctet(o[i], m) <==> SameBits(p[i], o[i], top)
      {
        MasksAgree(p[i], o[i], n.bits - 8 * i);
      }
      if NetworkBits(n, a) {
        forall i | 0 <= i < |o|
          ensures MaskOctet(p[i], n.bits - 8 * i) == MaskOctet(o[i], n.bits - 8 * i)
        {
          var m := n.bits - 8 * i;
          var top := if m < 0 then 0 else if m > 8 then 8 else m;
          forall j | 0 <= j < top
            ensures BitOf(p[i], j) == BitOf(o[i], j)
          {
            DivModUnique(8 * i + j, 8, i, j);
            assert AddrBit(a, 8 * i + j) == AddrBit(n.addr, 8 * i + j);
          }
        }
        assert TruncOctets(p, n.bits) == TruncOctets(o, n.bits);
      }
      if Contains(n, a) {
        forall k | 0 <= k < n.bits
          ensures AddrBit(a, k) == AddrBit(n.addr, k)
        {
          var i := k / 8;
          var m := n.bits - 8 * i;
          assert TruncOctets(p, n.bits)[i] == TruncOctets(o, n.bits)[i];
          assert MaskOctet(p[i], m) == MaskOctet(o[i], m);
        }
      }
    }
  }

  predicate Inside(prefixes: seq<IpNet>, a: IpAddr) {
    exists i :: 0 <= i < |prefixes| && Contains(prefixes[i], a)
  }
}
