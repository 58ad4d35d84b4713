/** The simulated work of Assignment_3/tands.c: the accumulated arithmetic of `Trans` and the
    nanosecond value of `Sleep`. */
module Tands {
  import opened Decimal

  /** Bitwise exclusive or of two non-negative integers. */
  function Xor(a: nat, b: nat): nat
    decreases a + b
  {
    if a == 0 then b else if b == 0 then a
    else 2 * Xor(a / 2, b / 2) + (if a % 2 != b % 2 then 1 else 0)
  }

  lemma {:induction false} XorAtMostSum(a: nat, b: nat)
    ensures Xor(a, b) <= a + b
    decreases a + b
  {
    if a != 0 && b != 0 { XorAtMostSum(a / 2, b / 2); }
  }

  /** Bit `k` of `a`. */
  predicate Bit(a: nat, k: nat) { if k == 0 then a % 2 == 1 else Bit(a / 2, k - 1) }

  lemma {:induction false} ZeroHasNoBit(k: nat)
    ensures !Bit(0, k)
  {
    if k > 0 { ZeroHasNoBit(k - 1); }
  }

  /** A bit is set in the exclusive or exactly when it is set in one number and not in the other. */
  lemma {:induction false} XorBit(a: nat, b: nat, k: nat)
    ensures Bit(Xor(a, b), k) <==> Bit(a, k) != Bit(b, k)
    decreases a + b
  {
    ZeroHasNoBit(k);
    if a != 0 && b != 0 {
      var half := Xor(a / 2, b / 2);
      var low := if a % 2 != b % 2 then 1 else 0;
      assert (2 * half + low) / 2 == half && (2 * half + low) % 2 == low;
      if k > 0 { XorBit(a / 2, b / 2, k - 1); }
    }
  }

  /** A number is determined by its bits. */
  lemma {:induction false} SameBits(a: nat, b: nat)
    requires forall k: nat :: Bit(a, k) == Bit(b, k)
    ensures a == b
    decreases a + b
  {
    if a + b > 0 {
      forall k: nat ensures Bit(a / 2, k) == Bit(b / 2, k) {
        assert Bit(a, k + 1) == Bit(b, k + 1);
      }
      SameBits(a / 2, b / 2);
      assert Bit(a, 0) == Bit(b, 0);
    }
  }

  /** So there is one number with the bits of the exclusive or. */
  lemma XorIs(a: nat, b: nat, c: nat)
    requires forall k: nat :: Bit(c, k) <==> Bit(a, k) != Bit(b, k)
    ensures c == Xor(a, b)
  {
    forall k: nat ensures Bit(c, k) == Bit(Xor(a, b), k) { XorBit(a, b, k); }
    SameBits(c, Xor(a, b));
  }

  lemma XorCommutes(a: nat, b: nat)
    ensures Xor(a, b) == Xor(b, a)
  {
    forall k: nat ensures Bit(Xor(b, a), k) <==> Bit(a, k) != Bit(b, k) { XorBit(b, a, k); }
    XorIs(a, b, Xor(b, a));
  }

  lemma XorUndoes(a: nat, b: nat)
    ensures Xor(Xor(a, b), b) == a
  {
    forall k: nat ensures Bit(a, k) <==> Bit(Xor(a, b), k) != Bit(b, k) { XorBit(a, b, k); }
    XorIs(Xor(a, b), b, a);
  }

  /** What iteration `i` adds: `%` binds tighter than `^`. */
  function Term(n: int, i: nat): nat
    requires n > 0
  {
    Xor(i, (i + 1) % (i + n))
  }

  /** The accumulator before iteration `i`. */
  function Accumulated(n: int, i: nat): nat
    requires n > 0
  {
    if i == 0 then 0 else Accumulated(n, i - 1) + Term(n, i - 1)
  }

  lemma ModAtMost(a: nat, m: nat)
    requires m > 0
    ensures a % m <= a
  {
    if a >= m { assert a % m < m; }
  }

  lemma TermBound(n: int, i: nat)
    requires n > 0
    ensures Term(n, i) <= 2 * i + 1
  {
    ModAtMost(i + 1, i + n);
    XorAtMostSum(i, (i + 1) % (i + n));
  }

  lemma NextSquare(i: nat)
    ensures i * i + 2 * i + 1 == (i + 1) * (i + 1)
  {
  }

  lemma {:induction false} AccumulatedBound(n: int, i: nat)
    requires n > 0
    ensures Accumulated(n, i) <= i * i
  {
    if i > 0 {
      AccumulatedBound(n, i - 1);
      TermBound(n, i - 1);
      NextSquare(i - 1);
    }
  }

  lemma AccumulatedStep(n: int, i: nat)
    requires n > 0
    ensures i + n != 0 && Accumulated(n, i + 1) == Accumulated(n, i) + Xor(i, (i + 1) % (i + n))
  {
  }

  lemma AccumulatedFits(n: int, i: nat)
    requires n > 0 && i < 0x8000_0000
    ensures Accumulated(n, i) < 0x4000_0000_0000_0000
  {
    AccumulatedBound(n, i);
    SquareMonotone(i, 0x7fff_ffff);
    assert 0x7fff_ffff * 0x7fff_ffff < 0x4000_0000_0000_0000;
  }

  const ITERATIONS_PER_UNIT := 100000

  /** The loop bound is computed as an int and must not overflow: |n| is at most 21474. */
  predicate FitsInt(n: int) { -0x8000_0000 <= n * ITERATIONS_PER_UNIT < 0x8000_0000 }

  /** The whole loop of `Trans(n)`; for n <= 0 it does not run. */
  function LoopSum(n: int): nat {
    if n > 0 then Accumulated(n, n * ITERATIONS_PER_UNIT) else 0
  }

  lemma LoopSumBound(n: int)
    requires FitsInt(n)
    ensures LoopSum(n) < 0x4000_0000_0000_0000
  {
    if n > 0 { AccumulatedFits(n, n * ITERATIONS_PER_UNIT); }
  }

  // ---------------------------------------------------------------- the sum in closed form

  /** What the first `i` iterations add up to when n is 2 or more, found by halving `i`. */
  function MaskSum(i: nat): nat {
    if i == 0 then 0 else if i % 2 == 0 then 2 * MaskSum(i / 2) + i else MaskSum(i - 1) + 1
  }

  lemma {:induction false} XorSelf(a: nat)
    ensures Xor(a, a) == 0
  {
    if a > 0 { XorSelf(a / 2); }
  }

  lemma {:induction false} MaskStep(i: nat)
    ensures MaskSum(i + 1) == MaskSum(i) + Xor(i, i + 1)
  {
    if i % 2 == 0 {
      XorSelf(i / 2);
      assert (i + 1) / 2 == i / 2;
    } else {
      MaskStep(i / 2);
      assert (i + 1) / 2 == i / 2 + 1 && (i - 1) / 2 == i / 2;
      assert MaskSum(i) == 2 * MaskSum(i / 2) + (i - 1) + 1;
      assert MaskSum(i + 1) == 2 * MaskSum(i / 2 + 1) + i + 1;
      assert Xor(i, i + 1) == 2 * Xor(i / 2, i / 2 + 1) + 1;
    }
  }

  lemma ModSmall(a: nat, m: nat)
    requires a < m
    ensures a % m == a
  {
  }

  /** With n == 1 the remainder is always 0 ... */
  lemma {:induction false} AccumulatedForOne(i: nat)
    ensures 2 * Accumulated(1, i) == i * i - i
  {
    if i > 0 {
      AccumulatedForOne(i - 1);
      assert Term(1, i - 1) == i - 1;
      NextSquare(i - 1);
    }
  }

  /** ... and with a larger n it never differs from the dividend, so the sum does not depend on n. */
  lemma {:induction false} AccumulatedIs(n: int, i: nat)
    requires n >= 2
    ensures Accumulated(n, i) == MaskSum(i)
  {
    if i > 0 {
      AccumulatedIs(n, i - 1);
      MaskStep(i - 1);
      ModSmall(i, i - 1 + n);
    }
  }

  lemma LoopSumIs(n: int)
    ensures n <= 0 ==> LoopSum(n) == 0
    ensures n == 1 ==> LoopSum(n) == 4_999_950_000
    ensures n >= 2 ==> LoopSum(n) == MaskSum(n * ITERATIONS_PER_UNIT)
  {
    if n == 1 {
      AccumulatedForOne(n * ITERATIONS_PER_UNIT);
    } else if n >= 2 {
      AccumulatedIs(n, n * ITERATIONS_PER_UNIT);
    }
  }

  lemma SquareMonotone(a: nat, b: nat)
    requires a <= b
    ensures a * a <= b * b
  {
    assert a * a <= a * b;
    assert a * b <= b * b;
  }

  /** `TransSave += j; TransSave &= 0xff;` on a two's complement int. */
  function NextSave(save: int, j: int): int { Low32(save + j) % 256 }

  /** The low byte survives the narrowing to int. */
  lemma NextSaveIs(save: int, j: int)
    ensures NextSave(save, j) == (save + j) % 256
  {
    var x := save + j;
    var q := x / 0x1_0000_0000;
    assert x == q * 0x1_0000_0000 + x % 0x1_0000_0000;
    assert Low32(x) == x - q * 0x1_0000_0000 || Low32(x) == x - (q + 1) * 0x1_0000_0000;
    var k := if Low32(x) == x - q * 0x1_0000_0000 then q else q + 1;
    assert Low32(x) == x - 256 * (k * 0x100_0000);
    SameResidue(x, Low32(x), k * 0x100_0000);
  }

  lemma SameResidue(x: int, y: int, k: int)
    requires y == x - 256 * k
    ensures y % 256 == x % 256
  {
    assert x == 256 * (x / 256) + x % 256;
    assert y == 256 * (x / 256 - k) + x % 256;
  }

  class Work {
    var transSave: int

    predicate Valid()
      reads this
    {
      0 <= transSave < 256
    }

    constructor ()
      ensures Valid() && transSave == 0
    {
      transSave := 0;
    }

    /** The loop of `Trans`: its accumulator is a 64-bit integer and never gets near the limit, and
        its divisor is never zero. */
    method BurnCycles(n: int) returns (j: int)
      requires FitsInt(n)
      ensures j == LoopSum(n) && 0 <= j < 0x4000_0000_0000_0000
    {
      j := 0;
      if n <= 0 { return; }
      var i := 0;
      var limit := n * ITERATIONS_PER_UNIT;
      while i < limit
        invariant 0 <= i <= limit && j == Accumulated(n, i)
        invariant 0 <= j < 0x4000_0000_0000_0000
      {
        AccumulatedStep(n, i);
        AccumulatedFits(n, i + 1);
        j := j + Xor(i, (i + 1) % (i + n));
        i := i + 1;
      }
    }

    /** Adds the whole sum to the saved byte. */
    method Trans(n: int)
      requires Valid() && FitsInt(n)
      modifies this
      ensures Valid() && transSave == (old(transSave) + LoopSum(n)) % 256
    {
      var j := BurnCycles(n);
      NextSaveIs(transSave, j);
      transSave := Low32(transSave + j);
      transSave := transSave % 256;
    }

    /** The nanoseconds handed to nanosleep are always in range, and at least ten milliseconds. */
    method Sleep(n: int) returns (nsec: int)
      requires Valid()
      ensures 10_000_000 <= nsec <= 990_000_255 < 1_000_000_000
      ensures 0 < n < 100 ==> nsec == n * 10_000_000 + transSave
      ensures !(0 < n < 100) ==> nsec == 10_000_000 + transSave
    {
      var m := n;
      if n <= 0 || n >= 100 {
        m := 1;
      }
      nsec := m * 10_000_000 + transSave;
    }
  }

  /** A sequence of `Trans` calls leaves the low byte of the sum of all the work done. */
  function Save(calls: seq<int>): int {
    if calls == [] then 0 else (Save(calls[..|calls| - 1]) + LoopSum(calls[|calls| - 1])) % 256
  }

  function TotalWork(calls: seq<int>): nat {
    if calls == [] then 0 else TotalWork(calls[..|calls| - 1]) + LoopSum(calls[|calls| - 1])
  }

  lemma {:induction false} SaveIsTotal(calls: seq<int>)
    ensures Save(calls) == TotalWork(calls) % 256
  {
    if calls != [] {
      var m := |calls| - 1;
      SaveIsTotal(calls[..m]);
      var a := TotalWork(calls[..m]);
      SameResidue(a + LoopSum(calls[m]), a % 256 + LoopSum(calls[m]), a / 256);
    }
  }
}
