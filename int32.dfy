/**
 * Kotlin's `Int`: a 32-bit two's-complement integer whose arithmetic wraps
 * around silently on overflow.
 */
module Int32 {

  const MIN: int := -0x8000_0000
  const MAX: int := 0x7fff_ffff
  const MODULUS: int := 0x1_0000_0000

  /** The values a Kotlin `Int` can hold. */
  type Int32 = x: int | -0x8000_0000 <= x <= 0x7fff_ffff

  predicate Fits(x: int) {
    MIN <= x <= MAX
  }

  /** `a` and `b` denote the same 32-bit pattern. */
  predicate Congruent(a: int, b: int) {
    (a - b) % MODULUS == 0
  }

  /** The `Int` that the JVM computes for the mathematical result `x`. */
  function Wrap(x: int): (r: Int32)
    ensures Congruent(r, x)
    ensures Fits(x) ==> r == x
  {
    var m := x % MODULUS;
    assert x == MODULUS * (x / MODULUS) + m;
    if m > MAX then m - MODULUS else m
  }

  /** The only multiple of 2^32 strictly between -2^32 and 2^32 is zero. */
  lemma {:induction false} SmallMultipleIsZero(d: int)
    requires -MODULUS < d < MODULUS && d % MODULUS == 0
    ensures d == 0
  {
    assert d == MODULUS * (d / MODULUS) + d % MODULUS;
  }

  /** Two `Int`s with the same bit pattern are equal. */
  lemma {:induction false} CongruentFitsEqual(a: int, b: int)
    requires Fits(a) && Fits(b) && Congruent(a, b)
    ensures a == b
  {
    SmallMultipleIsZero(a - b);
  }

  /** `Wrap(x)` is the only `Int` congruent to `x`: the JVM result is determined by the exact one. */
  lemma {:induction false} WrapUnique(x: int, y: int)
    requires Fits(y) && Congruent(y, x)
    ensures y == Wrap(x)
  {
    var w := Wrap(x);
    assert (y - x) % MODULUS == 0 && (w - x) % MODULUS == 0;
    assert y - w == (y - x) - (w - x);
    assert (y - x) == MODULUS * ((y - x) / MODULUS);
    assert (w - x) == MODULUS * ((w - x) / MODULUS);
    assert y - w == MODULUS * ((y - x) / MODULUS - (w - x) / MODULUS);
    assert (y - w) % MODULUS == 0;
    CongruentFitsEqual(y, w);
  }

  /** A wrapped value is zero exactly when the mathematical value is, for values in `(-2^32, 2^32)`. */
  lemma {:induction false} WrapZero(x: int)
    requires -MODULUS < x < MODULUS
    ensures Wrap(x) == 0 <==> x == 0
  {
    if Wrap(x) == 0 {
      assert Congruent(0, x);
      SmallMultipleIsZero(-x);
    }
  }

  /** `Int.plus`: the sum, wrapped. */
  function Add(x: Int32, y: Int32): (r: Int32)
    ensures Congruent(r, x + y)
    ensures Fits(x + y) ==> r == x + y
  {
    Wrap(x + y)
  }

  /** `Int.minus`: the difference, wrapped. */
  function Sub(x: Int32, y: Int32): (r: Int32)
    ensures Congruent(r, x - y)
    ensures Fits(x - y) ==> r == x - y
  {
    Wrap(x - y)
  }

  /** `Int.times`: the product, wrapped. */
  function Mul(x: Int32, y: Int32): (r: Int32)
    ensures Congruent(r, x * y)
    ensures Fits(x * y) ==> r == x * y
  {
    Wrap(x * y)
  }
}
