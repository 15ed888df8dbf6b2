/**
 * Fixed-width machine integers as Rust uses them, stated over Dafny's
 * unbounded `int`: ranges, the arithmetic right shift, the truncating cast
 * `as i32`, `clamp`, and the integer dot product shared by the MNIST layers
 * and the vector test program.
 */
module MachineInts {

  const I8_MIN: int := -0x80
  const I8_MAX: int := 0x7F
  const I32_MIN: int := -0x8000_0000
  const I32_MAX: int := 0x7FFF_FFFF
  const I64_MIN: int := -0x8000_0000_0000_0000
  const I64_MAX: int := 0x7FFF_FFFF_FFFF_FFFF
  const U32_MAX: int := 0xFFFF_FFFF

  type u8 = x: int | 0 <= x <= 0xFF
  type i8 = x: int | -0x80 <= x <= 0x7F
  type i32 = x: int | -0x8000_0000 <= x <= 0x7FFF_FFFF
  type u32 = x: int | 0 <= x <= 0xFFFF_FFFF

  predicate IsI32(x: int) { I32_MIN <= x <= I32_MAX }
  predicate IsI64(x: int) { I64_MIN <= x <= I64_MAX }

  function Abs(x: int): nat { if x < 0 then -x else x }

  function Max(a: int, b: int): int { if a < b then b else a }

  /** `x.clamp(lo, hi)` of Rust's `Ord`. */
  function Clamp(x: int, lo: int, hi: int): (r: int)
    requires lo <= hi
    ensures lo <= r <= hi
    ensures lo <= x <= hi ==> r == x
  {
    if x < lo then lo else if x > hi then hi else x
  }

  function Pow2(n: nat): (r: nat)
    ensures r >= 1
  {
    if n == 0 then 1 else 2 * Pow2(n - 1)
  }

  lemma Pow2Values()
    ensures Pow2(1) == 2 && Pow2(8) == 0x100 && Pow2(16) == 0x1_0000
    ensures Pow2(24) == 0x100_0000 && Pow2(31) == 0x8000_0000 && Pow2(32) == 0x1_0000_0000
  {
    assert Pow2(2) == 4;
    assert Pow2(4) == 16;
    assert Pow2(6) == 64;
    assert Pow2(8) == 0x100;
    assert Pow2(10) == 0x400;
    assert Pow2(12) == 0x1000;
    assert Pow2(14) == 0x4000;
    assert Pow2(16) == 0x1_0000;
    assert Pow2(18) == 0x4_0000;
    assert Pow2(20) == 0x10_0000;
    assert Pow2(22) == 0x40_0000;
    assert Pow2(24) == 0x100_0000;
    assert Pow2(26) == 0x400_0000;
    assert Pow2(28) == 0x1000_0000;
    assert Pow2(30) == 0x4000_0000;
  }

  /**
   * The arithmetic (sign-extending) right shift `x >> s` on a signed integer,
   * as s one-place shifts, each a floor halving (Dafny's `/` is Euclidean,
   * which for a positive divisor is floor division). AsrIsDivision shows it
   * is the floor of x / 2^s.
   */
  function Asr(x: int, s: nat): int {
    if s == 0 then x else Asr(x, s - 1) / 2
  }

  /** The truncating cast `as i32` from a wider signed integer (two's complement wrap). */
  function WrapI32(x: int): (r: int)
    ensures IsI32(r)
    ensures IsI32(x) ==> r == x
    ensures (x - r) % 0x1_0000_0000 == 0
  {
    var m := (x + 0x8000_0000) % 0x1_0000_0000;
    DivMod(x + 0x8000_0000, 0x1_0000_0000);
    m - 0x8000_0000
  }

  // ----- division facts used by the shift lemmas -----

  lemma DivMod(x: int, d: int)
    requires d > 0
    ensures x == d * (x / d) + x % d && 0 <= x % d < d
  {
  }

  lemma DivUnique(x: int, d: int, q: int, r: int)
    requires d > 0 && 0 <= r < d && x == q * d + r
    ensures x / d == q && x % d == r
  {
    DivMod(x, d);
    var q', r' := x / d, x % d;
    if q' > q {
      MulLe(q + 1, q', d);
      assert false;
    } else if q' < q {
      MulLe(q' + 1, q, d);
      assert false;
    }
  }

  lemma MulLe(a: int, b: int, d: nat)
    requires a <= b
    ensures a * d <= b * d
  {
  }

  /** Shifting by s and then by one more place is shifting by s + 1. */
  lemma AsrStep(x: int, s: nat)
    ensures Asr(Asr(x, s), 1) == Asr(x, s + 1)
  {
  }

  /** `x >> s` is the floor of x / 2^s. */
  lemma {:induction false} AsrIsDivision(x: int, s: nat)
    ensures Asr(x, s) == x / Pow2(s)
  {
    if s > 0 {
      var p := Pow2(s - 1);
      assert Pow2(s) == 2 * p;
      AsrIsDivision(x, s - 1);
      assert Asr(x, s) == (x / p) / 2;
      HalveQuotient(x, p);
    }
  }

  /** Halving the quotient by p is dividing by 2p. */
  lemma HalveQuotient(x: int, p: int)
    requires p > 0
    ensures (x / p) / 2 == x / (2 * p)
  {
    var q, r := x / p, x % p;
    DivMod(x, p);
    var q2 := q / 2;
    DivMod(q, 2);
    if q % 2 == 0 {
      assert q == 2 * q2;
      assert p * q == (2 * p) * q2;
      DivUnique(x, 2 * p, q2, r);
    } else {
      assert q == 2 * q2 + 1;
      calc {
        p * q;
        p * (2 * q2 + 1);
        p * (2 * q2) + p;
        (2 * p) * q2 + p;
      }
      DivUnique(x, 2 * p, q2, p + r);
    }
  }

  /** The shift preserves the sign of its operand. */
  lemma {:induction false} AsrSign(x: int, s: nat)
    ensures x >= 0 ==> Asr(x, s) >= 0
    ensures x < 0 ==> Asr(x, s) < 0
  {
    if s > 0 {
      AsrSign(x, s - 1);
    }
  }

  lemma {:induction false} AsrMonotone(x: int, y: int, s: nat)
    requires x <= y
    ensures Asr(x, s) <= Asr(y, s)
  {
    if s > 0 {
      AsrMonotone(x, y, s - 1);
    }
  }

  /** Shifting a negated magnitude rounds down by at most one step below the negated shift. */
  lemma {:induction false} AsrNegated(m: int, s: nat)
    requires m >= 0
    ensures Asr(-m, s) >= -Asr(m, s) - 1
  {
    if s > 0 {
      AsrNegated(m, s - 1);
      AsrSign(m, s - 1);
      var q := Asr(m, s - 1);
      assert Asr(-m, s) >= (-q - 1) / 2;
    }
  }

  lemma {:induction false} AsrOfZero(s: nat)
    ensures Asr(0, s) == 0
  {
    if s > 0 {
      AsrOfZero(s - 1);
    }
  }

  // ----- the integer dot product -----

  /** Σ_{k < n} a[k] * b[k], accumulated left to right as the source's loops do. */
  function DotPrefix(a: seq<int>, b: seq<int>, n: nat): int
    requires n <= |a| && n <= |b|
  {
    if n == 0 then 0 else DotPrefix(a, b, n - 1) + a[n - 1] * b[n - 1]
  }

  /** A dot product with an all-zero operand is zero. */
  lemma {:induction false} DotPrefixZero(a: seq<int>, b: seq<int>, n: nat)
    requires n <= |a| && n <= |b|
    requires (forall k :: 0 <= k < n ==> a[k] == 0) || (forall k :: 0 <= k < n ==> b[k] == 0)
    ensures DotPrefix(a, b, n) == 0
  {
    if n > 0 {
      DotPrefixZero(a, b, n - 1);
    }
  }

  lemma MulAbsBound(x: int, y: int, xBound: nat, yBound: nat)
    requires Abs(x) <= xBound && Abs(y) <= yBound
    ensures Abs(x * y) <= xBound * yBound
  {
    var ax, ay := Abs(x), Abs(y);
    assert Abs(x * y) == ax * ay;
    MulLe(ax, xBound, ay);
    MulLe(ay, yBound, xBound);
  }

  /** Each term is at most xBound*yBound in magnitude, so n terms stay within n*xBound*yBound. */
  lemma {:induction false} DotPrefixBound(a: seq<int>, b: seq<int>, n: nat, xBound: nat, yBound: nat)
    requires n <= |a| && n <= |b|
    requires forall k :: 0 <= k < n ==> Abs(a[k]) <= xBound && Abs(b[k]) <= yBound
    ensures Abs(DotPrefix(a, b, n)) <= n * (xBound * yBound)
  {
    if n > 0 {
      var c := xBound * yBound;
      DotPrefixBound(a, b, n - 1, xBound, yBound);
      MulAbsBound(a[n - 1], b[n - 1], xBound, yBound);
      assert Abs(DotPrefix(a, b, n)) <= Abs(DotPrefix(a, b, n - 1)) + Abs(a[n - 1] * b[n - 1]);
      assert (n - 1) * c + c == n * c;
    }
  }

  /** With non-negative operands the partial sums only grow, and each term is below the total. */
  lemma {:induction false} DotPrefixNonnegGrows(a: seq<int>, b: seq<int>, j: nat, n: nat)
    requires j <= n <= |a| && n <= |b|
    requires forall k :: 0 <= k < n ==> a[k] >= 0 && b[k] >= 0
    ensures 0 <= DotPrefix(a, b, j) <= DotPrefix(a, b, n)
    ensures j < n ==> a[j] * b[j] <= DotPrefix(a, b, n)
    decreases n
  {
    if n > 0 {
      MulLe(0, a[n - 1], b[n - 1]);
      if j < n {
        DotPrefixNonnegGrows(a, b, j, n - 1);
      } else {
        DotPrefixNonnegGrows(a, b, n - 1, n - 1);
      }
    }
  }
}
