/** Masking with `Capacity - 1` and 64-bit counters (02_LOB_Engine/include/LockFreeQueue.hpp:21, 35, 39, 68). */
module Masking {
  import opened MachineWords

  function Pow2(k: nat): (p: nat)
    ensures p > 0
  {
    if k == 0 then 1 else 2 * Pow2(k - 1)
  }

  /** Bitwise and. */
  function BitAnd(a: nat, b: nat): nat {
    if a == 0 || b == 0 then 0
    else (if a % 2 == 1 && b % 2 == 1 then 1 else 0) + 2 * BitAnd(a / 2, b / 2)
  }

  /** The `static_assert` of the queue, in the arithmetic of `size_t`. */
  predicate AssertHolds(capacity: u64) {
    BitAnd(capacity, (capacity - 1) % U64) == 0
  }

  /** Masking with 2^k - 1 is the remainder modulo 2^k. */
  lemma {:induction false} MaskIsRemainder(x: nat, k: nat)
    ensures BitAnd(x, Pow2(k) - 1) == x % Pow2(k)
  {
    if k == 0 {
      assert Pow2(k) == 1;
    } else if x == 0 {
      RemainderIs(0, Pow2(k), 0, 0);
    } else {
      var p := Pow2(k - 1);
      assert Pow2(k) == 2 * p;
      MaskIsRemainder(x / 2, k - 1);
      MaskStep(x, p);
      HalveRemainder(x, p);
    }
  }

  lemma MaskStep(x: nat, p: nat)
    requires x > 0 && p > 0
    ensures BitAnd(x, 2 * p - 1) == x % 2 + 2 * BitAnd(x / 2, p - 1)
  {
    assert (2 * p - 1) / 2 == p - 1;
  }

  lemma HalveRemainder(x: nat, p: nat)
    requires p > 0
    ensures x % (2 * p) == x % 2 + 2 * ((x / 2) % p)
  {
    var q, r := (x / 2) / p, (x / 2) % p;
    assert x / 2 == q * p + r;
    assert x == (2 * p) * q + (x % 2 + 2 * r);
    RemainderIs(x, 2 * p, q, x % 2 + 2 * r);
  }

  lemma AtLeastOnce(m: int, t: int)
    requires m > 0 && t >= 1
    ensures m * t >= m
  {
  }

  lemma OneQuotient(m: int, q: int, r: int, q': int, r': int)
    requires 0 <= r < m && 0 <= r' < m && m * q + r == m * q' + r'
    ensures q == q' && r == r'
  {
    assert m * (q - q') == m * q - m * q' && m * (q' - q) == m * q' - m * q;
    if q > q' {
      AtLeastOnce(m, q - q');
    } else if q < q' {
      AtLeastOnce(m, q' - q);
    }
  }

  lemma QuotientAndRemainder(x: int, m: int)
    requires m > 0
    ensures x == m * (x / m) + x % m && 0 <= x % m < m
  {
  }

  /** Division with remainder is unique. */
  lemma RemainderIs(x: int, m: int, q: int, r: int)
    requires m > 0 && 0 <= r < m && x == m * q + r
    ensures x % m == r && x / m == q
  {
    QuotientAndRemainder(x, m);
    OneQuotient(m, q, r, x / m, x % m);
  }

  /** The assertion admits exactly the powers of two, and zero. */
  lemma AssertMeansPowerOfTwo(capacity: u64)
    ensures AssertHolds(capacity) <==> capacity == 0 || exists k: nat :: capacity == Pow2(k)
  {
    if capacity > 0 {
      if AssertHolds(capacity) {
        var k := PowerFrom(capacity);
      }
      forall k: nat | capacity == Pow2(k) ensures AssertHolds(capacity) {
        MaskIsRemainder(capacity, k);
        RemainderIs(capacity, Pow2(k), 1, 0);
      }
    }
  }

  lemma {:induction false} PowerFrom(c: nat) returns (k: nat)
    requires c > 0 && BitAnd(c, c - 1) == 0
    ensures c == Pow2(k)
  {
    if c == 1 {
      k := 0;
    } else if c % 2 == 0 {
      assert (c - 1) / 2 == c / 2 - 1;
      k := PowerFrom(c / 2);
      k := k + 1;
    } else {
      assert (c - 1) / 2 == c / 2;
      SelfAnd(c / 2);
      assert false;
    }
  }

  lemma {:induction false} SelfAnd(a: nat)
    ensures BitAnd(a, a) == a
  {
    if a > 0 {
      SelfAnd(a / 2);
    }
  }

  lemma {:induction false} Pow2Adds(a: nat, b: nat)
    ensures Pow2(a + b) == Pow2(a) * Pow2(b)
  {
    if a > 0 {
      Pow2Adds(a - 1, b);
      assert Pow2(a + b) == 2 * Pow2(a - 1 + b);
    }
  }

  lemma WordIsPow2()
    ensures Pow2(64) == U64
  {
    assert Pow2(8) == 256;
    Pow2Adds(8, 8);
    Pow2Adds(16, 16);
    Pow2Adds(32, 32);
  }

  lemma RemainderOfRemainder(x: nat, c: nat, m: nat)
    requires c > 0 && m > 0
    ensures (x % (c * m)) % c == x % c
  {
    var q, r := x / (c * m), x % (c * m);
    var q', r' := r / c, r % c;
    assert x == c * (m * q + q') + r' by {
      assert x == (c * m) * q + r;
      assert (c * m) * q == c * (m * q);
    }
    RemainderIs(x, c, m * q + q', r');
  }

  /** Wrapping a counter at 2^64 does not move its slot. */
  lemma MaskedWrapIsSlot(x: nat, k: nat)
    requires k <= 64
    ensures BitAnd(x % U64, Pow2(k) - 1) == x % Pow2(k)
  {
    MaskIsRemainder(x % U64, k);
    WordIsPow2();
    Pow2Adds(k, 64 - k);
    RemainderOfRemainder(x, Pow2(k), Pow2(64 - k));
  }

  /** The wrapped difference of two counters is their true difference while that is below 2^64. */
  lemma WrappedDifference(a: nat, b: nat)
    requires b <= a < b + U64
    ensures (a % U64 - b % U64) % U64 == a - b
  {
  }

  /** Counters less than `c` apart sit in different slots. */
  lemma CloseCountersDiffer(a: nat, b: nat, c: nat)
    requires a < b < a + c
    ensures a % c != b % c
  {
    QuotientAndRemainder(a, c);
    QuotientAndRemainder(b, c);
    MultiplesAreApart(c, a / c, b / c, b - a, b % c - a % c);
  }

  lemma MultiplesAreApart(c: int, q: int, q': int, d: int, e: int)
    requires 0 < d < c && c * q' - c * q + e == d
    ensures e != 0
  {
    assert c * (q' - q) == c * q' - c * q;
    if q' > q {
      AtLeastOnce(c, q' - q);
    } else {
      assert c * (q' - q) <= 0;
    }
  }
}
