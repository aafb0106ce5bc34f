/**
 * Bitwise: unsigned 32-bit words and the bitwise operators the bit set uses,
 * defined on natural numbers one binary digit at a time. Each operator is
 * characterised by what it does to bit i.
 */
module Bitwise {

  /** A `uint32_t`. */
  type Word = w: int | 0 <= w < 0x1_0000_0000

  /** 2 raised to the power n (`1 << n` for n < 32). */
  function Pow2(n: nat): (r: nat)
    ensures r >= 1
  {
    if n == 0 then 1 else 2 * Pow2(n - 1)
  }

  /** Bit i of a. */
  predicate Bit(a: nat, i: nat)
  {
    if i == 0 then a % 2 == 1 else Bit(a / 2, i - 1)
  }

  /** `a & b`. */
  function And(a: nat, b: nat): (r: nat)
    ensures r <= a && r <= b
  {
    if a == 0 || b == 0 then 0
    else 2 * And(a / 2, b / 2) + (if a % 2 == 1 && b % 2 == 1 then 1 else 0)
  }

  /** `a | b`. */
  function Or(a: nat, b: nat): nat
    decreases a + b
  {
    if a == 0 then b
    else if b == 0 then a
    else 2 * Or(a / 2, b / 2) + (if a % 2 == 1 || b % 2 == 1 then 1 else 0)
  }

  /** `~a` on a 32-bit word. */
  function Not(a: Word): Word
  {
    0xFFFF_FFFF - a
  }

  /** `a << 1` on a 32-bit word: the top bit falls off. */
  function Shl1(a: Word): Word
  {
    (2 * a) % 0x1_0000_0000
  }

  lemma Pow2Values()
    ensures Pow2(8) == 0x100 && Pow2(16) == 0x1_0000 && Pow2(24) == 0x100_0000
    ensures Pow2(31) == 0x8000_0000 && Pow2(32) == 0x1_0000_0000
  {
    assert Pow2(8) == 0x100;
    assert Pow2(16) == 0x1_0000;
    assert Pow2(24) == 0x100_0000;
  }

  lemma {:induction false} Pow2Add(a: nat, b: nat)
    ensures Pow2(a + b) == Pow2(a) * Pow2(b)
    decreases a
  {
    if a > 0 {
      Pow2Add(a - 1, b);
    }
  }

  lemma {:induction false} Pow2Monotone(a: nat, b: nat)
    requires a <= b
    ensures Pow2(a) <= Pow2(b)
    decreases b
  {
    if a < b {
      Pow2Monotone(a, b - 1);
    }
  }

  lemma {:induction false} BitZero(i: nat)
    ensures !Bit(0, i)
  {
    if i > 0 {
      BitZero(i - 1);
    }
  }

  /** A number below 2^n has no bit at n or above. */
  lemma {:induction false} BitAbove(a: nat, n: nat, i: nat)
    requires a < Pow2(n) && n <= i
    ensures !Bit(a, i)
    decreases n
  {
    if n == 0 {
      BitZero(i);
    } else {
      BitAbove(a / 2, n - 1, i - 1);
    }
  }

  /** Two numbers below 2^n with the same n low bits are equal. */
  lemma {:induction false} BitsEqual(a: nat, b: nat, n: nat)
    requires a < Pow2(n) && b < Pow2(n)
    requires forall i :: 0 <= i < n ==> Bit(a, i) == Bit(b, i)
    ensures a == b
    decreases n
  {
    if n > 0 {
      assert Bit(a, 0) == Bit(b, 0);
      forall i | 0 <= i < n - 1
        ensures Bit(a / 2, i) == Bit(b / 2, i)
      {
        assert Bit(a, i + 1) == Bit(b, i + 1);
      }
      BitsEqual(a / 2, b / 2, n - 1);
    }
  }

  /** A number below 2^n is zero exactly when none of its n low bits is set. */
  lemma ZeroIff(a: nat, n: nat)
    requires a < Pow2(n)
    ensures a == 0 ==> forall i :: 0 <= i < n ==> !Bit(a, i)
    ensures (forall i :: 0 <= i < n ==> !Bit(a, i)) ==> a == 0
  {
    ghost var clear := forall i :: 0 <= i < n ==> !Bit(a, i);
    if a == 0 {
      forall i | 0 <= i < n
        ensures !Bit(a, i)
      {
        BitZero(i);
      }
    }
    if clear {
      forall i | 0 <= i < n
        ensures !Bit(0, i)
      {
        BitZero(i);
      }
      BitsEqual(a, 0, n);
    }
  }

  lemma {:induction false} BitAnd(a: nat, b: nat, i: nat)
    ensures Bit(And(a, b), i) == (Bit(a, i) && Bit(b, i))
    decreases i
  {
    if a == 0 || b == 0 {
      BitZero(i);
    } else if i > 0 {
      BitAnd(a / 2, b / 2, i - 1);
    }
  }

  lemma {:induction false} BitOr(a: nat, b: nat, i: nat)
    ensures Bit(Or(a, b), i) == (Bit(a, i) || Bit(b, i))
    decreases i
  {
    if a == 0 || b == 0 {
      BitZero(i);
    } else if i > 0 {
      BitOr(a / 2, b / 2, i - 1);
    }
  }

  lemma {:induction false} OrBound(a: nat, b: nat, n: nat)
    requires a < Pow2(n) && b < Pow2(n)
    ensures Or(a, b) < Pow2(n)
    decreases n
  {
    if a != 0 && b != 0 {
      assert n > 0;
      OrBound(a / 2, b / 2, n - 1);
    }
  }

  /** Bits of 2^n - 1 - a are the complements of a's n low bits. */
  lemma {:induction false} BitComplement(a: nat, n: nat, i: nat)
    requires a < Pow2(n) && i < n
    ensures Bit(Pow2(n) - 1 - a, i) == !Bit(a, i)
    decreases n
  {
    var c := Pow2(n) - 1 - a;
    assert c == 2 * (Pow2(n - 1) - 1 - a / 2) + (1 - a % 2);
    if i > 0 {
      BitComplement(a / 2, n - 1, i - 1);
    }
  }

  lemma BitNot(a: Word, i: nat)
    requires i < 32
    ensures Bit(Not(a), i) == !Bit(a, i)
  {
    Pow2Values();
    BitComplement(a, 32, i);
  }

  lemma {:induction false} BitMod(a: nat, n: nat, i: nat)
    ensures Bit(a % Pow2(n), i) == (i < n && Bit(a, i))
    decreases n
  {
    if n == 0 {
      BitZero(i);
    } else {
      var h := (a / 2) % Pow2(n - 1);
      var q := (a / 2) / Pow2(n - 1);
      assert a / 2 == Pow2(n - 1) * q + h;
      assert a == Pow2(n) * q + (2 * h + a % 2);
      ModOf(a, Pow2(n), q, 2 * h + a % 2);
      if i > 0 {
        BitMod(a / 2, n - 1, i - 1);
      }
    }
  }

  lemma ModOf(a: nat, d: nat, q: nat, r: nat)
    requires d > 0 && a == d * q + r && r < d
    ensures a % d == r
  {
    var q', r' := a / d, a % d;
    assert a == d * q' + r';
    assert d * (q - q') == r' - r;
    MulSmall(q - q', d);
  }

  lemma MulSmall(k: int, d: int)
    requires d > 0 && -d < d * k < d
    ensures k == 0
  {
    assert k >= 1 ==> d * k == d * (k - 1) + d;
    assert k <= -1 ==> d * k == d * (k + 1) - d;
  }

  lemma BitDouble(a: nat, i: nat)
    ensures Bit(2 * a, i) == (i > 0 && Bit(a, i - 1))
  {
    assert (2 * a) / 2 == a;
  }

  lemma BitShl1(a: Word, i: nat)
    requires i < 32
    ensures Bit(Shl1(a), i) == (i > 0 && Bit(a, i - 1))
  {
    Pow2Values();
    BitMod(2 * a, 32, i);
    BitDouble(a, i);
  }

  lemma {:induction false} BitPow2(r: nat, i: nat)
    ensures Bit(Pow2(r), i) == (i == r)
    decreases r
  {
    if r == 0 {
      if i > 0 {
        BitZero(i - 1);
      }
    } else if i > 0 {
      BitPow2(r - 1, i - 1);
    }
  }

  /** 2^hi - 2^lo has exactly the bits lo..hi-1 set. */
  lemma {:induction false} BitRange(lo: nat, hi: nat, i: nat)
    requires lo <= hi
    ensures Pow2(lo) <= Pow2(hi)
    ensures Bit(Pow2(hi) - Pow2(lo), i) == (lo <= i < hi)
    decreases lo
  {
    Pow2Monotone(lo, hi);
    if lo == 0 {
      assert Pow2(lo) == 1;
      if i < hi {
        BitComplement(0, hi, i);
        BitZero(i);
      } else {
        BitAbove(Pow2(hi) - 1, hi, i);
      }
    } else {
      var c := Pow2(hi) - Pow2(lo);
      assert c == 2 * (Pow2(hi - 1) - Pow2(lo - 1));
      if i > 0 {
        BitRange(lo - 1, hi - 1, i - 1);
      }
    }
  }
}
