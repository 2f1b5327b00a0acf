/** Go's integer arithmetic as the tour programs use it: shifts of untyped
    constants (powers of two), the bounds of the sized integer types, and
    the `/` operator, which truncates toward zero. */
module GoInt {

  const MaxInt64: int := 0x7fff_ffff_ffff_ffff
  const MinInt64: int := -0x8000_0000_0000_0000
  const MaxUint64: int := 0xffff_ffff_ffff_ffff

  /** Values a Go `int` (64 bits wide) can hold. */
  predicate FitsInt(x: int) {
    MinInt64 <= x <= MaxInt64
  }

  /** Values a Go `uint64` can hold. */
  predicate FitsUint64(x: int) {
    0 <= x <= MaxUint64
  }

  /** `1 << n`: two to the power n. */
  function Pow2(n: nat): (r: nat)
    ensures r >= 1
    ensures n > 0 ==> r % 2 == 0
  {
    if n == 0 then 1 else 2 * Pow2(n - 1)
  }

  /** Shifting left by a + b is shifting by a, then by b. */
  lemma {:induction false} Pow2Add(a: nat, b: nat)
    ensures Pow2(a + b) == Pow2(a) * Pow2(b)
  {
    if a > 0 {
      Pow2Add(a - 1, b);
      assert Pow2(a + b) == 2 * Pow2(a - 1 + b);
    }
  }

  /** Larger shifts give strictly larger powers. */
  lemma {:induction false} Pow2StrictlyIncreasing(a: nat, b: nat)
    requires a < b
    ensures Pow2(a) < Pow2(b)
  {
    if b - 1 > a {
      Pow2StrictlyIncreasing(a, b - 1);
    }
  }

  /** `x >> n` on a non-negative value: n halvings, each rounding down. */
  function Shr(x: nat, n: nat): nat {
    if n == 0 then x else Shr(x / 2, n - 1)
  }

  /** Shifting `1 << (k + n)` right by n leaves `1 << k`. */
  lemma {:induction false} ShrPow2(k: nat, n: nat)
    ensures Shr(Pow2(k + n), n) == Pow2(k)
  {
    if n > 0 {
      assert Pow2(k + n) / 2 == Pow2(k + (n - 1));
      ShrPow2(k, n - 1);
    }
  }

  lemma Pow2Of16()
    ensures Pow2(16) == 0x1_0000
  {
    assert Pow2(4) == 16;
    Pow2Add(4, 4);
    assert Pow2(8) == 256;
    Pow2Add(8, 8);
  }

  /** `1 << 64` is one more than the largest `uint64`. */
  lemma Pow2Of64()
    ensures Pow2(64) == MaxUint64 + 1
  {
    Pow2Of16();
    Pow2Add(16, 16);
    assert Pow2(32) == 0x1_0000_0000;
    Pow2Add(32, 32);
  }

  /** An integer reduced into the `int` range the way 64-bit two's
      complement arithmetic reduces it: the representative of x modulo
      2^64 that lies in [MinInt64, MaxInt64]. */
  function WrapInt(x: int): (r: int)
    ensures FitsInt(r)
    ensures (r - x) % (MaxUint64 + 1) == 0
  {
    (x - MinInt64) % (MaxUint64 + 1) + MinInt64
  }

  /** Below 63, `1 << n` fits in an `int`. */
  lemma Pow2Below63(n: nat)
    requires n < 63
    ensures Pow2(n) <= MaxInt64
  {
    Pow2Of64();
    assert Pow2(64) == 2 * Pow2(63);
    Pow2StrictlyIncreasing(n, 63);
  }

  /** `1 << n` evaluated on a 64-bit `int`: the bit falls into the sign bit
      at n = 63 and out of the word beyond it. */
  function ShlOne(n: nat): (r: int)
    ensures FitsInt(r)
  {
    if n < 63 then Pow2Below63(n); Pow2(n)
    else if n == 63 then MinInt64
    else 0
  }

  /** Adding a multiple of 2^64 does not change a remainder modulo 2^64. */
  lemma ModAddMultiple(k: int, b: int)
    requires 0 <= b <= MaxUint64
    ensures ((MaxUint64 + 1) * k + b) % (MaxUint64 + 1) == b
  {
  }

  /** Wrapping leaves a value that already fits in an `int` as it is. */
  lemma WrapFits(x: int)
    requires FitsInt(x)
    ensures WrapInt(x) == x
  {
    ModAddMultiple(0, x - MinInt64);
  }

  /** 2^63 wraps to the most negative `int`. */
  lemma WrapSignBit()
    ensures WrapInt(MaxInt64 + 1) == MinInt64
  {
    ModAddMultiple(1, 0);
  }

  /** A multiple of 2^64 wraps to 0. */
  lemma WrapMultiple(k: int)
    ensures WrapInt((MaxUint64 + 1) * k) == 0
  {
    ModAddMultiple(k, -MinInt64);
  }

  /** 2^63 is one past the largest `int`. */
  lemma Pow2Of63()
    ensures Pow2(63) == MaxInt64 + 1
  {
    Pow2Of64();
    assert Pow2(64) == 2 * Pow2(63);
  }

  /** `1 << n` on `int` is two to the power n, wrapped into 64 bits. */
  lemma ShlOneWraps(n: nat)
    ensures ShlOne(n) == WrapInt(Pow2(n))
  {
    if n < 63 {
      Pow2Below63(n);
      WrapFits(Pow2(n));
    } else if n == 63 {
      Pow2Of63();
      WrapSignBit();
    } else {
      Pow2Of64();
      Pow2Add(64, n - 64);
      WrapMultiple(Pow2(n - 64));
    }
  }

  function Abs(x: int): nat {
    if x < 0 then -x else x
  }

  /** Go's `a / b` on integers: the quotient truncated toward zero. Its
      remainder `a - q * b` is smaller than the divisor in magnitude and is
      zero or has the sign of the dividend (Dafny's own `/` is Euclidean
      and differs when a is negative). */
  function Quot(a: int, b: int): (q: int)
    requires b != 0
    ensures Abs(a - q * b) < Abs(b)
    ensures a - q * b == 0 || (a < 0 <==> a - q * b < 0)
  {
    if a >= 0 then
      (if b > 0 then a / b else -(a / -b))
    else
      (if b > 0 then -(-a / b) else -a / -b)
  }

  lemma MulMagnitude(d: int, b: int)
    requires d != 0
    ensures Abs(d * b) >= Abs(b)
  {
    var m := Abs(d);
    assert m * Abs(b) == Abs(b) + (m - 1) * Abs(b);
    if (d < 0) == (b < 0) {
      assert d * b == m * Abs(b);
    } else {
      assert d * b == -(m * Abs(b));
    }
  }

  /** Two remainders of the same dividend lie on the same side of zero and
      within the divisor's magnitude, so they differ by less than it. */
  lemma RemaindersClose(a: int, r: int, r': int, m: nat)
    requires Abs(r) < m && Abs(r') < m
    requires r == 0 || (a < 0 <==> r < 0)
    requires r' == 0 || (a < 0 <==> r' < 0)
    ensures Abs(r' - r) < m
  {
  }

  /** Two quotients of a by b that both leave a remainder smaller than b
      and on the dividend's side of zero are equal. */
  lemma RemainderDeterminesQuotient(a: int, b: int, q: int, q': int)
    requires b != 0
    requires Abs(a - q * b) < Abs(b) && Abs(a - q' * b) < Abs(b)
    requires a - q * b == 0 || (a < 0 <==> a - q * b < 0)
    requires a - q' * b == 0 || (a < 0 <==> a - q' * b < 0)
    ensures q == q'
  {
    var p, p' := q * b, q' * b;
    RemaindersClose(a, a - p, a - p', Abs(b));
    var d := q - q';
    assert d * b == p - p' by {
      assert (q - q') * b == q * b - q' * b;
    }
    if d != 0 {
      MulMagnitude(d, b);
      assert false;
    }
  }

  /** The quotient is determined by its remainder conditions: any q with
      them is the one Quot returns. */
  lemma QuotUnique(a: int, b: int, q: int)
    requires b != 0
    requires Abs(a - q * b) < Abs(b)
    requires a - q * b == 0 || (a < 0 <==> a - q * b < 0)
    ensures q == Quot(a, b)
  {
    RemainderDeterminesQuotient(a, b, q, Quot(a, b));
  }
}
