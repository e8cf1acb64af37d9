/** DNS fast flux: a window sliding over a pool of addresses, one place per period. */
module Flux {
  import opened Arithmetic
  import opened Bytes
  import opened Sequences

  function Period(periodSecs: u64): (p: nat)
    ensures p >= 1
  {
    if periodSecs == 0 then 1 else periodSecs
  }

  function Bucket(now: u64, periodSecs: u64): nat {
    now / Period(periodSecs)
  }

  /** A sum as unsigned 64-bit addition leaves it. */
  function Wrap(x: nat): (w: u64)
    ensures x <= U64_MAX ==> w == x
  {
    x % 0x1_0000_0000_0000_0000
  }

  function Place<A>(pool: seq<A>, x: nat): A
    requires pool != []
  {
    pool[x % |pool|]
  }

  /** `pool[(bucket + i) % len]` for `i` below `set`, the sum wrapping at 64 bits. */
  function FluxWindow<A>(pool: seq<A>, size: nat, now: u64, periodSecs: u64): (w: seq<A>)
    ensures |w| == if pool == [] then 0 else size
  {
    if pool == [] || size == 0 then []
    else seq(size, i requires 0 <= i < size =>
               Place(pool, Wrap(Bucket(now, periodSecs) + i)))
  }

  function NextBoundaryDelay(now: u64, periodSecs: u64): nat {
    Period(periodSecs) - now % Period(periodSecs)
  }

  /** No wrap-around at 64 bits while the window is read. */
  predicate NoWrap(size: nat, now: u64, periodSecs: u64) {
    Bucket(now, periodSecs) + size <= 0x1_0000_0000_0000_0000
  }

  // ---- Modular arithmetic with a variable modulus -----------------------------------------

  lemma ModPlus(a: int, b: int, n: int)
    requires n > 0
    ensures (a + b) % n == (a % n + b) % n
  {
    var q, r := (a % n + b) / n, (a % n + b) % n;
    assert a == (a / n) * n + a % n;
    assert a % n + b == q * n + r;
    assert a + b == (a / n + q) * n + r by { assert (a / n) * n + q * n == (a / n + q) * n; }
    DivModUnique(a + b, n, a / n + q, r);
  }

  /** Shifts of fewer than `n` places by different amounts land on different residues. */
  lemma ShiftsDiffer(b: int, i: int, j: int, n: int)
    requires 0 <= i < j < n
    ensures (b + i) % n != (b + j) % n
  {
    var q, q' := (b + i) / n, (b + j) / n;
    assert (q' - q) * n == (j - i) + (b + i) % n - (b + j) % n;
    MulGap(q' - q, n);
  }

  // ---- One window -----------------------------------------------------------------------------

  lemma WindowPlace<A>(pool: seq<A>, size: nat, now: u64, periodSecs: u64, i: nat)
    requires pool != [] && i < size && NoWrap(size, now, periodSecs)
    ensures FluxWindow(pool, size, now, periodSecs)[i] == Place(pool, Bucket(now, periodSecs) + i)
  {
    hide Bucket, Wrap, Place;
    assert Wrap(Bucket(now, periodSecs) + i) == Bucket(now, periodSecs) + i;
  }

  lemma WindowAt<A>(pool: seq<A>, size: nat, now: u64, periodSecs: u64, i: nat)
    requires pool != [] && i < size && NoWrap(size, now, periodSecs)
    ensures FluxWindow(pool, size, now, periodSecs)[i] == pool[(Bucket(now, periodSecs) + i) % |pool|]
  {
    hide Bucket, FluxWindow;
    WindowPlace(pool, size, now, periodSecs, i);
  }

  /** A window of distinct addresses, exactly when it asks for no more than the pool has. */
  lemma WindowIsDistinct<A>(pool: seq<A>, size: nat, now: u64, periodSecs: u64)
    requires pool != [] && Distinct(pool) && NoWrap(size, now, periodSecs)
    ensures Distinct(FluxWindow(pool, size, now, periodSecs)) <==> size <= |pool|
  {
    hide FluxWindow, Bucket;
    var w, b, n := FluxWindow(pool, size, now, periodSecs), Bucket(now, periodSecs), |pool|;
    if size <= n {
      forall i, j | 0 <= i < j < |w|
        ensures w[i] != w[j]
      {
        WindowAt(pool, size, now, periodSecs, i);
        WindowAt(pool, size, now, periodSecs, j);
        ShiftsDiffer(b, i, j, n);
      }
    } else {
      WindowAt(pool, size, now, periodSecs, 0);
      WindowAt(pool, size, now, periodSecs, n);
      assert b + n == (b / n + 1) * n + b % n;
      DivModUnique(b + n, n, b / n + 1, b % n);
      assert w[0] == w[n];
    }
  }

  /** One period later the first address leaves and the next of the pool joins at the end. */
  lemma WindowSlides<A>(pool: seq<A>, size: nat, now: u64, later: u64, periodSecs: u64)
    requires pool != [] && size > 0 && NoWrap(size, later, periodSecs)
    requires Bucket(later, periodSecs) == Bucket(now, periodSecs) + 1
    ensures FluxWindow(pool, size, later, periodSecs) ==
            FluxWindow(pool, size, now, periodSecs)[1..] + [pool[(Bucket(now, periodSecs) + size) % |pool|]]
  {
    var w, w' := FluxWindow(pool, size, now, periodSecs), FluxWindow(pool, size, later, periodSecs);
    forall i | 0 <= i < size - 1
      ensures w'[i] == w[1..][i]
    {
      WindowAt(pool, size, later, periodSecs, i);
      WindowAt(pool, size, now, periodSecs, i + 1);
    }
    WindowAt(pool, size, later, periodSecs, size - 1);
    assert w' == w'[..size - 1] + [w'[size - 1]] && w'[..size - 1] == w[1..];
  }

  // ---- Fairness ---------------------------------------------------------------------------------

  /** Address `j` of a pool of `n` is in the window of bucket `b`. */
  predicate Active(j: nat, n: nat, size: nat, b: int)
    requires n > 0
  {
    (j - b) % n < size
  }

  /** The arithmetic test is membership in the window. */
  lemma ActiveIsMember<A>(pool: seq<A>, size: nat, now: u64, periodSecs: u64, j: nat)
    requires Distinct(pool) && j < |pool| && size <= |pool| && NoWrap(size, now, periodSecs)
    ensures pool[j] in FluxWindow(pool, size, now, periodSecs) <==> Active(j, |pool|, size, Bucket(now, periodSecs))
  {
    var w, b, n := FluxWindow(pool, size, now, periodSecs), Bucket(now, periodSecs), |pool|;
    var i := (j - b) % n;
    ModPlus(j - b, b, n);
    DivModUnique(j, n, 0, j);
    assert (b + i) % n == j;
    if i < size {
      WindowAt(pool, size, now, periodSecs, i);
      assert w[i] == pool[j];
    } else {
      forall k | 0 <= k < |w|
        ensures w[k] != pool[j]
      {
        WindowAt(pool, size, now, periodSecs, k);
        ShiftsDiffer(b, k, i, n);
      }
    }
  }

  /** In how many of the `count` buckets from `from` on the address is active. */
  function ActiveCount(j: nat, n: nat, size: nat, from: int, count: nat): nat
    requires n > 0
  {
    if count == 0 then 0
    else ActiveCount(j, n, size, from, count - 1) + if Active(j, n, size, from + count - 1) then 1 else 0
  }

  lemma {:induction false} CountFromFront(j: nat, n: nat, size: nat, from: int, count: nat)
    requires n > 0 && count > 0
    ensures ActiveCount(j, n, size, from, count) ==
            (if Active(j, n, size, from) then 1 else 0) + ActiveCount(j, n, size, from + 1, count - 1)
  {
    if count > 1 {
      CountFromFront(j, n, size, from, count - 1);
      assert from + 1 + (count - 1) - 1 == from + count - 1;
    }
  }

  /** Sliding the stretch of `n` buckets by one changes nothing. */
  lemma {:induction false} CountSlides(j: nat, n: nat, size: nat, from: int)
    requires n > 0
    ensures ActiveCount(j, n, size, from, n) == ActiveCount(j, n, size, from + 1, n)
  {
    CountFromFront(j, n, size, from, n);
    assert ActiveCount(j, n, size, from + 1, n) ==
           ActiveCount(j, n, size, from + 1, n - 1) + if Active(j, n, size, from + n) then 1 else 0;
    var x := j - from;
    assert x == (x / n) * n + x % n;
    assert x - n == (x / n - 1) * n + x % n;
    DivModUnique(x - n, n, x / n - 1, x % n);
  }

  /** Started where the address has just left, the residues count down from `n - 1`. */
  lemma {:induction false} CountFromStart(j: nat, n: nat, size: nat, count: nat)
    requires count <= n && size <= n && n > 0
    ensures ActiveCount(j, n, size, j + 1 - n, count) == if count <= n - size then 0 else count - (n - size)
  {
    if count == 0 {
    } else {
      CountFromStart(j, n, size, count - 1);
      DivModUnique(n - count, n, 0, n - count);
      assert j - (j + 1 - n + count - 1) == n - count;
    }
  }

  lemma {:induction false} CountAnywhere(j: nat, n: nat, size: nat, from: int, steps: nat)
    requires n > 0 && size <= n && from == j + 1 - n + steps
    ensures ActiveCount(j, n, size, from, n) == size
    decreases steps
  {
    if steps == 0 {
      CountFromStart(j, n, size, n);
    } else {
      CountAnywhere(j, n, size, from - 1, steps - 1);
      CountSlides(j, n, size, from - 1);
    }
  }

  lemma {:induction false} CountBelow(j: nat, n: nat, size: nat, from: int, steps: nat)
    requires n > 0 && size <= n && from == j + 1 - n - steps
    ensures ActiveCount(j, n, size, from, n) == size
    decreases steps
  {
    if steps == 0 {
      CountFromStart(j, n, size, n);
    } else {
      CountBelow(j, n, size, from + 1, steps - 1);
      CountSlides(j, n, size, from);
    }
  }

  lemma CountIsSize(j: nat, n: nat, size: nat, from: nat)
    requires n > 0 && size <= n
    ensures ActiveCount(j, n, size, from, n) == size
  {
    if from >= j + 1 - n {
      CountAnywhere(j, n, size, from, from - (j + 1 - n));
    } else {
      CountBelow(j, n, size, from, j + 1 - n - from);
    }
  }

  /** The first instant of a bucket. */
  function Start(bucket: nat, periodSecs: u64): nat {
    bucket * Period(periodSecs)
  }

  lemma StartIsInBucket(bucket: nat, periodSecs: u64)
    requires Start(bucket, periodSecs) <= U64_MAX
    ensures Bucket(Start(bucket, periodSecs), periodSecs) == bucket
  {
    DivModUnique(Start(bucket, periodSecs), Period(periodSecs), bucket, 0);
  }

  lemma StartsGrow(b: nat, b': nat, periodSecs: u64)
    requires b <= b'
    ensures Start(b, periodSecs) <= Start(b', periodSecs)
  {
    var p := Period(periodSecs);
    assert b' * p - b * p == (b' - b) * p;
  }

  /** In how many of the windows of `count` consecutive periods an address is served. */
  function Served<A(==)>(pool: seq<A>, size: nat, periodSecs: u64, from: nat, count: nat, a: A): nat
    requires Start(from + count, periodSecs) <= U64_MAX
  {
    if count == 0 then 0
    else
      StartsGrow(from + count - 1, from + count, periodSecs);
      Served(pool, size, periodSecs, from, count - 1, a) +
      if a in FluxWindow(pool, size, Start(from + count - 1, periodSecs), periodSecs) then 1 else 0
  }

  lemma {:induction false} ServedIsActive<A>(pool: seq<A>, size: nat, periodSecs: u64, from: nat, count: nat, j: nat)
    requires Distinct(pool) && j < |pool| && size <= |pool|
    requires Start(from + count, periodSecs) <= U64_MAX && from + count + size <= U64_MAX
    ensures Served(pool, size, periodSecs, from, count, pool[j]) == ActiveCount(j, |pool|, size, from, count)
  {
    hide FluxWindow, Start, Bucket;
    if count == 0 {
    } else {
      StartsGrow(from + count - 1, from + count, periodSecs);
      ServedIsActive(pool, size, periodSecs, from, count - 1, j);
      StartIsInBucket(from + count - 1, periodSecs);
      ActiveIsMember(pool, size, Start(from + count - 1, periodSecs), periodSecs, j);
    }
  }

  /** Over any stretch of as many periods as the pool has addresses, each is served in exactly `size` windows. */
  lemma EveryAddressEqually<A>(pool: seq<A>, size: nat, periodSecs: u64, from: nat, a: A)
    requires Distinct(pool) && a in pool && size <= |pool|
    requires Start(from + |pool|, periodSecs) <= U64_MAX && from + |pool| + size <= U64_MAX
    ensures Served(pool, size, periodSecs, from, |pool|, a) == size
  {
    var j :| 0 <= j < |pool| && pool[j] == a;
    ServedIsActive(pool, size, periodSecs, from, |pool|, j);
    CountIsSize(j, |pool|, size, from);
  }

  // ---- The boundary -------------------------------------------------------------------------------

  /** The delay is positive and leads to the first instant of the next period. */
  lemma DelayReachesNextPeriod(now: u64, periodSecs: u64)
    ensures var p, next := (if periodSecs == 0 then 1 else periodSecs), now + NextBoundaryDelay(now, periodSecs);
            && now < next && next / p == now / p + 1 && next % p == 0
            && forall t :: now <= t < next ==> t / p == now / p
  {
    var p, delay := Period(periodSecs), NextBoundaryDelay(now, periodSecs);
    var q, r := now / p, now % p;
    assert now == q * p + r;
    assert now + delay == (q + 1) * p;
    DivModUnique(now + delay, p, q + 1, 0);
    forall t | now <= t < now + delay
      ensures t / p == q
    {
      DivModUnique(t, p, q, t - q * p);
    }
  }

  /** The window starts at the number of whole periods passed, and stays as it is until the next boundary. */
  lemma WindowOfAPeriod<A>(pool: seq<A>, size: nat, now: u64, later: u64, periodSecs: u64, i: nat)
    requires pool != [] && i < size && NoWrap(size, now, periodSecs)
    requires now <= later < now + NextBoundaryDelay(now, periodSecs)
    ensures FluxWindow(pool, size, later, periodSecs) == FluxWindow(pool, size, now, periodSecs)
    ensures FluxWindow(pool, size, later, periodSecs)[i] ==
            pool[(now / (if periodSecs == 0 then 1 else periodSecs) + i) % |pool|]
  {
    DelayReachesNextPeriod(now, periodSecs);
    assert Bucket(later, periodSecs) == Bucket(now, periodSecs) == now / (if periodSecs == 0 then 1 else periodSecs);
    hide Bucket, NextBoundaryDelay;
    SameBucket(pool, size, now, later, periodSecs);
    hide FluxWindow;
    WindowAt(pool, size, now, periodSecs, i);
  }

  lemma SameBucket<A>(pool: seq<A>, size: nat, now: u64, later: u64, periodSecs: u64)
    requires Bucket(later, periodSecs) == Bucket(now, periodSecs)
    ensures FluxWindow(pool, size, later, periodSecs) == FluxWindow(pool, size, now, periodSecs)
  {
    hide Bucket, Wrap, Place;
  }
}
