/** The SYN cookie: a slot tag, an MSS index and a truncated keyed hash in one sequence number. */
module Cookie {
  import opened Bytes
  import opened Wrappers
  import opened Net

  const MSS_TABLE: seq<u16> := [216, 536, 1200, 1360, 1400, 1440, 1460, 8960]
  const MAX_TUPLE_BUF := 45
  const SLOT_SECS := 64
  const HASH_SPAN := 0x20_0000

  /** The keyed hash, left open: any function of the 128-bit key and the bytes. */
  type Hash = (u64, u64, seq<byte>) -> u64

  datatype Key = Key(k0: u64, k1: u64)

  datatype Tuple = Tuple(src: seq<byte>, srcPort: u16, dst: seq<byte>, dstPort: u16)

  /** Both addresses of one family. */
  predicate OneFamily(t: Tuple) {
    (|t.src| == 4 && |t.dst| == 4) || (|t.src| == 16 && |t.dst| == 16)
  }

  predicate Fits(t: Tuple) {
    |t.src| + |t.dst| <= 32
  }

  // ---- The MSS table ---------------------------------------------------------------------

  predicate IsMssIndex(mss: u16, i: nat) {
    && i < 8 && (MSS_TABLE[i] <= mss || i == 0)
    && forall j :: i < j < 8 ==> MSS_TABLE[j] > mss
  }

  function MssIndex(mss: u16): (i: nat)
    ensures IsMssIndex(mss, i)
  {
    if mss >= 8960 then 7 else if mss >= 1460 then 6 else if mss >= 1440 then 5 else if mss >= 1400 then 4
    else if mss >= 1360 then 3 else if mss >= 1200 then 2 else if mss >= 536 then 1 else 0
  }

  /** The largest entry not above the client's MSS, or the smallest entry. */
  method MssIndexFor(clientMss: u16) returns (idx: nat)
    ensures IsMssIndex(clientMss, idx) && idx == MssIndex(clientMss)
  {
    idx := 0;
    for i := 0 to |MSS_TABLE|
      invariant idx < 8 && (MSS_TABLE[idx] <= clientMss || idx == 0) && (idx < i || idx == 0)
      invariant forall j :: idx < j < i ==> MSS_TABLE[j] > clientMss
    {
      if MSS_TABLE[i] <= clientMss {
        idx := i;
      }
    }
    OneMssIndex(clientMss, idx, MssIndex(clientMss));
  }

  lemma OneMssIndex(mss: u16, i: nat, j: nat)
    requires IsMssIndex(mss, i) && IsMssIndex(mss, j)
    ensures i == j
  {
  }

  lemma EveryIndexIsUsed(i: nat)
    requires i < 8
    ensures MssIndex(MSS_TABLE[i]) == i
  {
    OneMssIndex(MSS_TABLE[i], i, MssIndex(MSS_TABLE[i]));
  }

  predicate IsSize(m: u16) {
    m == 216 || m == 536 || m == 1200 || m == 1360 || m == 1400 || m == 1440 || m == 1460 || m == 8960
  }

  /** The size given to a client: the largest of the eight that its own allows, or 216. */
  lemma MssIs(mss: u16)
    ensures var m := MSS_TABLE[MssIndex(mss)];
            IsSize(m) && (m <= mss || m == 216) && forall k: u16 :: IsSize(k) && k <= mss ==> k <= m
  {
  }

  // ---- The cookie of a slot ----------------------------------------------------------------

  function TupleBytes(t: Tuple, slot: u64, mssIndex: nat): (b: seq<byte>)
    requires mssIndex < 8
    ensures |b| == |t.src| + |t.dst| + 13
  {
    t.src + Be16(t.srcPort) + t.dst + Be16(t.dstPort) + Be64(slot) + [mssIndex]
  }

  function Pack(tag: nat, mssIndex: nat, low: nat): (c: u32)
    requires tag < 256 && mssIndex < 8 && low < HASH_SPAN
  {
    tag * 0x100_0000 + mssIndex * HASH_SPAN + low
  }

  function CookieForSlot(hash: Hash, key: Key, t: Tuple, mssIndex: nat, slot: u64): u32
    requires mssIndex < 8
  {
    Pack(slot % 256, mssIndex, hash(key.k0, key.k1, TupleBytes(t, slot, mssIndex)) % HASH_SPAN)
  }

  function MssIndexOf(cookie: u32): (i: nat)
    ensures i < 8
  {
    cookie / HASH_SPAN % 8
  }

  lemma PackReads(tag: nat, mssIndex: nat, low: nat)
    requires tag < 256 && mssIndex < 8 && low < HASH_SPAN
    ensures MssIndexOf(Pack(tag, mssIndex, low)) == mssIndex && Pack(tag, mssIndex, low) / 0x100_0000 == tag
    ensures Pack(tag, mssIndex, low) % 0x20_0000 == low
  {
    var c := Pack(tag, mssIndex, low);
    assert c == (tag * 8 + mssIndex) * HASH_SPAN + low;
    assert c / HASH_SPAN == tag * 8 + mssIndex;
  }

  lemma CookieReads(hash: Hash, key: Key, t: Tuple, mssIndex: nat, slot: u64)
    requires mssIndex < 8
    ensures MssIndexOf(CookieForSlot(hash, key, t, mssIndex, slot)) == mssIndex
    ensures CookieForSlot(hash, key, t, mssIndex, slot) / 0x100_0000 == slot % 256
    ensures CookieForSlot(hash, key, t, mssIndex, slot) % 0x20_0000 ==
            hash(key.k0, key.k1, TupleBytes(t, slot, mssIndex)) % 0x20_0000
  {
    PackReads(slot % 256, mssIndex, hash(key.k0, key.k1, TupleBytes(t, slot, mssIndex)) % HASH_SPAN);
  }

  /** Copies `part` into the buffer at `pos` and moves on. */
  method Put(buf: array<byte>, pos: nat, part: seq<byte>) returns (next: nat)
    requires pos + |part| <= buf.Length
    modifies buf
    ensures next == pos + |part|
    ensures buf[..next] == old(buf[..pos]) + part
  {
    forall i | 0 <= i < |part| {
      buf[pos + i] := part[i];
    }
    next := pos + |part|;
  }

  lemma FieldsInOrder(t: Tuple, slot: u64, mssIndex: nat)
    requires mssIndex < 8
    ensures [] + t.src + Be16(t.srcPort) + t.dst + Be16(t.dstPort) + Be64(slot) + [mssIndex] ==
            TupleBytes(t, slot, mssIndex)
  {
    hide Be16, Be64;
    assert [] + t.src == t.src;
  }

  /** The scratch buffer is filled field by field; only the filled part is hashed. */
  method ComputeCookie(hash: Hash, key: Key, t: Tuple, mssIndex: nat, slot: u64) returns (cookie: u32)
    requires Fits(t) && mssIndex < 8
    ensures cookie == CookieForSlot(hash, key, t, mssIndex, slot)
  {
    hide Be16, Be64, Pack;
    FieldsInOrder(t, slot, mssIndex);
    hide TupleBytes;
    var buf := new byte[MAX_TUPLE_BUF](_ => 0);
    var pos := Put(buf, 0, t.src);
    pos := Put(buf, pos, Be16(t.srcPort));
    pos := Put(buf, pos, t.dst);
    pos := Put(buf, pos, Be16(t.dstPort));
    pos := Put(buf, pos, Be64(slot));
    pos := Put(buf, pos, [mssIndex]);
    var low := hash(key.k0, key.k1, buf[..pos]) % HASH_SPAN;
    cookie := Pack(slot % 256, mssIndex, low);
  }

  // ---- Making and checking ------------------------------------------------------------------

  function MakeCookie(hash: Hash, key: Key, t: Tuple, clientMss: u16, now: u64): (u32, u16) {
    (CookieForSlot(hash, key, t, MssIndex(clientMss), now / SLOT_SECS), MSS_TABLE[MssIndex(clientMss)])
  }

  function WrapBefore(x: u32): u32 {
    if x == 0 then U32_MAX else x - 1
  }

  /** The acknowledgement number that returns a cookie: one more, modulo 2^32. */
  function AckOf(cookie: u32): u32 {
    (cookie + 1) % 0x1_0000_0000
  }

  lemma AckReturns(x: u32)
    ensures WrapBefore(AckOf(x)) == x && AckOf(WrapBefore(x)) == x
  {
  }

  /** The slot before, wrapping at zero as the 64-bit subtraction does. */
  function SlotBefore(slot: u64): u64 {
    if slot == 0 then U64_MAX else slot - 1
  }

  function CheckCookie(hash: Hash, key: Key, t: Tuple, ack: u32, now: u64): Option<u16> {
    var cookie := WrapBefore(ack);
    var i := MssIndexOf(cookie);
    var slot: u64 := now / SLOT_SECS;
    if CookieForSlot(hash, key, t, i, slot) == cookie || CookieForSlot(hash, key, t, i, SlotBefore(slot)) == cookie
    then Some(MSS_TABLE[i])
    else None
  }

  /** Somebody with the key minted this cookie in the current slot or the one before. */
  ghost predicate Minted(hash: Hash, key: Key, t: Tuple, ack: u32, now: u64, mss: u16) {
    exists clientMss: u16, at: u64 ::
      && (at / SLOT_SECS == now / SLOT_SECS || at / SLOT_SECS == now / SLOT_SECS - 1)
      && var (cookie, m) := MakeCookie(hash, key, t, clientMss, at); ack == AckOf(cookie) && mss == m
  }

  /** Minting is always honoured within its slot and the next. */
  lemma MintedIsAccepted(hash: Hash, key: Key, t: Tuple, ack: u32, now: u64, mss: u16)
    requires Minted(hash, key, t, ack, now, mss)
    ensures CheckCookie(hash, key, t, ack, now) == Some(mss)
  {
    var clientMss: u16, at: u64 :|
      && (at / SLOT_SECS == now / SLOT_SECS || at / SLOT_SECS == now / SLOT_SECS - 1)
      && var (cookie, m) := MakeCookie(hash, key, t, clientMss, at); ack == AckOf(cookie) && mss == m;
    AckReturns(MakeCookie(hash, key, t, clientMss, at).0);
    CookieReads(hash, key, t, MssIndex(clientMss), at / SLOT_SECS);
  }

  /** A slot that holds an instant, and the cookie of that instant. */
  lemma SlotIsMinted(hash: Hash, key: Key, t: Tuple, ack: u32, now: u64, slot: u64)
    requires slot == now / SLOT_SECS || slot == now / SLOT_SECS - 1
    requires CookieForSlot(hash, key, t, MssIndexOf(WrapBefore(ack)), slot) == WrapBefore(ack)
    ensures Minted(hash, key, t, ack, now, MSS_TABLE[MssIndexOf(WrapBefore(ack))])
  {
    var i := MssIndexOf(WrapBefore(ack));
    var at: u64 := slot * SLOT_SECS;
    assert at / SLOT_SECS == slot;
    EveryIndexIsUsed(i);
    AckReturns(ack);
    assert MakeCookie(hash, key, t, MSS_TABLE[i], at) == (WrapBefore(ack), MSS_TABLE[i]);
  }

  /** From the second slot on, a cookie is accepted exactly when it was minted now or one slot ago. */
  lemma AcceptedExactlyWhenMinted(hash: Hash, key: Key, t: Tuple, ack: u32, now: u64, mss: u16)
    requires now >= SLOT_SECS
    ensures CheckCookie(hash, key, t, ack, now) == Some(mss) <==> Minted(hash, key, t, ack, now, mss)
  {
    hide CookieForSlot, MssIndexOf, Minted;
    if Minted(hash, key, t, ack, now, mss) {
      MintedIsAccepted(hash, key, t, ack, now, mss);
    } else if CheckCookie(hash, key, t, ack, now) == Some(mss) {
      var slot: u64 := now / SLOT_SECS;
      if CookieForSlot(hash, key, t, MssIndexOf(WrapBefore(ack)), slot) == WrapBefore(ack) {
        SlotIsMinted(hash, key, t, ack, now, slot);
      } else {
        SlotIsMinted(hash, key, t, ack, now, slot - 1);
      }
    }
  }

  /**
   In the first slot the check also tries slot 2^64 - 1, which no instant has: whatever the hash, it
   accepts a cookie nobody could mint.
   */
  lemma FirstSlotAcceptsAPhantom(hash: Hash, key: Key, t: Tuple, now: u64) returns (ack: u32)
    requires now < SLOT_SECS
    ensures CheckCookie(hash, key, t, ack, now) == Some(MSS_TABLE[0])
    ensures forall mss :: !Minted(hash, key, t, ack, now, mss)
  {
    var cookie := CookieForSlot(hash, key, t, 0, U64_MAX);
    CookieReads(hash, key, t, 0, U64_MAX);
    ack := AckOf(cookie);
    AckReturns(cookie);
    hide CookieForSlot, AckOf, WrapBefore, MssIndexOf;
    forall clientMss: u16, at: u64 | at / SLOT_SECS == 0
      ensures AckOf(MakeCookie(hash, key, t, clientMss, at).0) != ack
    {
      var made := MakeCookie(hash, key, t, clientMss, at).0;
      TagDiffers(hash, key, t, MssIndex(clientMss), at / SLOT_SECS, 0, U64_MAX);
      AckReturns(made);
    }
  }

  /** The check is sound exactly from the second slot on, for every hash, key and tuple. */
  lemma SoundExactlyFromSecondSlot(hash: Hash, key: Key, t: Tuple, now: u64)
    ensures (forall ack, mss :: CheckCookie(hash, key, t, ack, now) == Some(mss) ==> Minted(hash, key, t, ack, now, mss))
            <==> now >= SLOT_SECS
  {
    if now >= SLOT_SECS {
      forall ack, mss | CheckCookie(hash, key, t, ack, now) == Some(mss)
        ensures Minted(hash, key, t, ack, now, mss)
      {
        AcceptedExactlyWhenMinted(hash, key, t, ack, now, mss);
      }
    } else {
      var ack := FirstSlotAcceptsAPhantom(hash, key, t, now);
    }
  }

  // ---- Age -------------------------------------------------------------------------------------

  /** What the slot distance alone decides: 0 or 1 is accepted, anything else must agree modulo 256. */
  lemma SlotDistanceDecides(hash: Hash, key: Key, t: Tuple, clientMss: u16, at: u64, now: u64)
    requires at <= now
    ensures var (cookie, mss) := MakeCookie(hash, key, t, clientMss, at);
            var distance := now / SLOT_SECS - at / SLOT_SECS;
            && (distance <= 1 ==> CheckCookie(hash, key, t, AckOf(cookie), now) == Some(mss))
            && (distance % 256 > 1 ==> CheckCookie(hash, key, t, AckOf(cookie), now) == None)
  {
    hide CookieForSlot, MssIndexOf;
    var (cookie, mss) := MakeCookie(hash, key, t, clientMss, at);
    var ack := AckOf(cookie);
    AckReturns(cookie);
    var slot: u64, was: u64 := now / SLOT_SECS, at / SLOT_SECS;
    if slot - was <= 1 {
      assert Minted(hash, key, t, ack, now, mss);
      MintedIsAccepted(hash, key, t, ack, now, mss);
    } else if (slot - was) % 256 > 1 {
      DistinctTags(slot, was);
      assert SlotBefore(slot) == slot - 1;
      TagDiffers(hash, key, t, MssIndex(clientMss), was, MssIndexOf(cookie), slot);
      TagDiffers(hash, key, t, MssIndex(clientMss), was, MssIndexOf(cookie), slot - 1);
    }
  }

  lemma TagDiffers(hash: Hash, key: Key, t: Tuple, i: nat, slot: u64, i': nat, slot': u64)
    requires i < 8 && i' < 8 && slot % 256 != slot' % 256
    ensures CookieForSlot(hash, key, t, i, slot) != CookieForSlot(hash, key, t, i', slot')
  {
    CookieReads(hash, key, t, i, slot);
    CookieReads(hash, key, t, i', slot');
  }

  lemma DistinctTags(slot: int, was: int)
    requires (slot - was) % 256 > 1
    ensures slot % 256 != was % 256 && (slot - 1) % 256 != was % 256
  {
  }

  /** Accepted for at least 64 seconds; between 128 and 16320 seconds old it is refused under every hash. */
  lemma AgeDecides(hash: Hash, key: Key, t: Tuple, clientMss: u16, at: u64, now: u64)
    requires at <= now
    ensures var (cookie, mss) := MakeCookie(hash, key, t, clientMss, at);
            && (now - at <= 64 ==> CheckCookie(hash, key, t, AckOf(cookie), now) == Some(mss))
            && (128 <= now - at <= 16320 ==> CheckCookie(hash, key, t, AckOf(cookie), now) == None)
  {
    SlotDistanceDecides(hash, key, t, clientMss, at, now);
    Distance(at, now);
    hide MakeCookie, CheckCookie;
  }

  lemma Distance(at: nat, now: nat)
    requires at <= now
    ensures var distance := now / SLOT_SECS - at / SLOT_SECS;
            && (now - at <= 64 ==> distance <= 1)
            && (128 <= now - at <= 16320 ==> 2 <= distance <= 255 && distance % 256 > 1)
  {
  }

  // ---- What is hashed --------------------------------------------------------------------------

  lemma {:induction false} Fields(t: Tuple, slot: u64, i: nat)
    requires i < 8
    ensures var b, n, m := TupleBytes(t, slot, i), |t.src|, |t.dst|;
            && b[..n] == t.src && b[n..n + 2] == Be16(t.srcPort) && b[n + 2..n + 2 + m] == t.dst
            && b[n + 2 + m..n + 4 + m] == Be16(t.dstPort) && b[n + 4 + m..n + 12 + m] == Be64(slot) && b[n + 12 + m] == i
  {
    hide Be64, Be16;
  }

  /** Sources of one length: the hashed octets give back everything that went in. */
  lemma {:induction false} SameSplitReads(t: Tuple, t': Tuple, slot: u64, slot': u64, i: nat, i': nat)
    requires |t.src| == |t'.src| && i < 8 && i' < 8
    requires TupleBytes(t, slot, i) == TupleBytes(t', slot', i')
    ensures t == t' && slot == slot' && i == i'
  {
    Fields(t, slot, i);
    Fields(t', slot', i');
    hide TupleBytes, Be64, Be16;
  }

  function Blank(n: nat, m: nat): Tuple {
    Tuple(Zeros(n), 0, Zeros(m), 0)
  }

  /** The all-zero tuples of two splits of one total length hash the same octets. */
  lemma {:induction false} BlanksCollide(n: nat, m: nat, n': nat, m': nat, slot: u64, i: nat)
    requires n + m == n' + m' && i < 8
    ensures TupleBytes(Blank(n, m), slot, i) == TupleBytes(Blank(n', m'), slot, i)
  {
    hide Be64;
    assert Be16(0) == [0, 0];
    assert Zeros(n) + Be16(0) + Zeros(m) + Be16(0) == Zeros(n') + Be16(0) + Zeros(m') + Be16(0);
  }

  predicate Lengths(t: Tuple, n: nat, m: nat) {
    |t.src| == n && |t.dst| == m && Fits(t)
  }

  /** No two different inputs, with addresses of these lengths that fit the buffer, are hashed alike. */
  ghost predicate Injective(n: nat, m: nat, n': nat, m': nat) {
    forall t: Tuple, t': Tuple, slot: u64, slot': u64, i: nat, i': nat ::
      && Lengths(t, n, m) && Lengths(t', n', m') && i < 8 && i' < 8
      && TupleBytes(t, slot, i) == TupleBytes(t', slot', i')
      ==> t == t' && slot == slot' && i == i'
  }

  /**
   Hashing is injective on two pairs of address lengths exactly when they split alike, differ in total, or do
   not fit the buffer, so that nothing is hashed.
   */
  lemma {:induction false} InjectiveExactly(n: nat, m: nat, n': nat, m': nat)
    ensures Injective(n, m, n', m') <==> n == n' || n + m != n' + m' || n + m > 32
  {
    if n == n' || n + m != n' + m' || n + m > 32 {
      forall t: Tuple, t': Tuple, slot: u64, slot': u64, i: nat, i': nat |
        && Lengths(t, n, m) && Lengths(t', n', m') && i < 8 && i' < 8
        && TupleBytes(t, slot, i) == TupleBytes(t', slot', i')
        ensures t == t' && slot == slot' && i == i'
      {
        SameSplitReads(t, t', slot, slot', i, i');
      }
    } else {
      BlanksCollide(n, m, n', m', 0, 0);
      assert Lengths(Blank(n, m), n, m) && Lengths(Blank(n', m'), n', m');
    }
  }

  /** Within one family pairing the hashed octets give back the tuple, the slot and the MSS index. */
  lemma {:induction false} TupleBytesInjective(t: Tuple, t': Tuple, slot: u64, slot': u64, i: nat, i': nat)
    requires OneFamily(t) && OneFamily(t') && i < 8 && i' < 8
    requires TupleBytes(t, slot, i) == TupleBytes(t', slot', i')
    ensures t == t' && slot == slot' && i == i'
  {
    InjectiveExactly(|t.src|, |t.dst|, |t'.src|, |t'.dst|);
  }

  /** Across families they do not: these two tuples fit and differ, yet hash the same octets, always. */
  lemma {:induction false} MixedFamiliesCollide(slot: u64, i: nat)
    requires i < 8
    ensures var t, t' := Tuple(Zeros(4), 0, Zeros(16), 0), Tuple(Zeros(16), 0, Zeros(4), 0);
            Fits(t) && Fits(t') && t != t' && TupleBytes(t, slot, i) == TupleBytes(t', slot, i)
    ensures !Injective(4, 16, 16, 4)
  {
    BlanksCollide(4, 16, 16, 4, slot, i);
    InjectiveExactly(4, 16, 16, 4);
    assert |Zeros(4)| != |Zeros(16)|;
  }
}
