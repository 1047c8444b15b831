/** Java's 32-bit `int` arithmetic written out over unbounded integers:
    wrap-around, truncating division, `<<` and `|`. */
module JavaInt {

  /** A Java `int`. */
  type Int32 = v: int | -0x8000_0000 <= v < 0x8000_0000

  function Pow2(n: nat): (p: nat)
    ensures p >= 1
  {
    if n == 0 then 1 else 2 * Pow2(n - 1)
  }

  lemma Pow2Values()
    ensures Pow2(8) == 0x100 && Pow2(16) == 0x1_0000 && Pow2(32) == 0x1_0000_0000
  {
    assert Pow2(8) == 0x100;
    assert Pow2(16) == 0x1_0000;
    assert Pow2(24) == 0x100_0000;
  }

  /** The low 32 bits of `v`, read as a two's-complement `int`. */
  function Wrap(v: int): Int32
  {
    (v + 0x8000_0000) % 0x1_0000_0000 - 0x8000_0000
  }

  lemma WrapInRange(v: int)
    requires -0x8000_0000 <= v < 0x8000_0000
    ensures Wrap(v) == v
  {
  }

  /** The 32-bit pattern of `v`, read as an unsigned number. */
  function Unsigned(v: Int32): (u: nat)
    ensures u < 0x1_0000_0000
    ensures Wrap(u) == v
  {
    if v >= 0 then v else v + 0x1_0000_0000
  }

  /** Division of Java integers: truncates toward zero. */
  function JavaDiv(a: int, b: int): (q: int)
    requires b > 0
    ensures a >= 0 ==> 0 <= a - q * b < b
    ensures a < 0 ==> -b < a - q * b <= 0
  {
    if a >= 0 then a / b else -((-a) / b)
  }

  /** `v << n` on a Java `int`: the bits shifted past bit 31 are lost. */
  function ShiftLeft(v: Int32, n: nat): Int32
    requires n < 32
  {
    Wrap(v * Pow2(n))
  }

  /** Bitwise or of the low `n` bits of two naturals. */
  function OrBits(a: nat, b: nat, n: nat): nat
  {
    if n == 0 then 0
    else 2 * OrBits(a / 2, b / 2, n - 1) + (if a % 2 == 1 || b % 2 == 1 then 1 else 0)
  }

  /** `a | b` on Java `int`s. */
  function BitOr(a: Int32, b: Int32): Int32
  {
    Wrap(OrBits(Unsigned(a), Unsigned(b), 32))
  }

  lemma {:induction false} OrBitsZero(b: nat, n: nat)
    requires b < Pow2(n)
    ensures OrBits(0, b, n) == b
  {
    if n > 0 {
      OrBitsZero(b / 2, n - 1);
    }
  }

  /** When the bits of `a` lie below bit `k` and those of the other operand at
      or above it, `|` is addition. */
  lemma {:induction false} OrBitsDisjoint(a: nat, b: nat, k: nat, n: nat)
    requires a < Pow2(k) && k <= n
    requires a + b * Pow2(k) < Pow2(n)
    ensures OrBits(a, b * Pow2(k), n) == a + b * Pow2(k)
  {
    if k == 0 {
      OrBitsZero(b, n);
    } else {
      var p := Pow2(k - 1);
      assert b * Pow2(k) == 2 * (b * p);
      assert (b * Pow2(k)) / 2 == b * p;
      assert (b * Pow2(k)) % 2 == 0;
      assert a / 2 < p;
      assert a / 2 + b * p < Pow2(n - 1);
      OrBitsDisjoint(a / 2, b, k - 1, n - 1);
    }
  }
}
