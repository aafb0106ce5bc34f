/**
 * Float32: IEEE-754 single precision words. The codec moves floats as
 * uninterpreted 32-bit words; this module gives them the numeric meaning needed by
 * the few places that compare or convert them (detail sizes and errors, the
 * smallest visible size, the mesh radius).
 */
module Float32 {
  import opened Bytes
  import Bitwise

  /** The bit pattern of a float, as an unsigned 32-bit value. */
  type Bits = b: int | 0 <= b < 0x1_0000_0000

  /** What a bit pattern denotes. Both zeros are Finite(0.0). */
  datatype Value = NaN | Infinite(negative: bool) | Finite(r: real)

  const PositiveZero: Bits := 0
  const MinusOne: Bits := 0xBF80_0000
  const PlusOne: Bits := 0x3F80_0000
  const TenThousand: Bits := 0x461C_4000
  const FltMax: Bits := 0x7F7F_FFFF
  /** What x86 hardware produces for a float-to-int32 conversion out of range. */
  const IntegerIndefinite: int := -0x8000_0000

  /** 2 raised to an integer power, as a real. */
  function Pow2(e: int): (r: real)
    ensures r > 0.0
  {
    if e >= 0 then Bitwise.Pow2(e) as real else 1.0 / (Bitwise.Pow2(-e) as real)
  }

  /** The bits of the 32-bit integer word w (given as a signed value). */
  function OfWord(w: int): Bits
  {
    w % 0x1_0000_0000
  }

  function SignOf(b: Bits): nat { b / 0x8000_0000 }
  function ExponentOf(b: Bits): nat { (b / 0x80_0000) % 0x100 }
  function FractionOf(b: Bits): nat { b % 0x80_0000 }

  /** The numeric meaning of a bit pattern. */
  function Decode(b: Bits): Value
  {
    var s, e, f := SignOf(b), ExponentOf(b), FractionOf(b);
    if e == 0xFF then
      (if f == 0 then Infinite(s == 1) else NaN)
    else
      var magnitude :=
        if e == 0 then (f as real) * Pow2(-149)
        else ((0x80_0000 + f) as real) * Pow2(e - 150);
      Finite(if s == 1 then -magnitude else magnitude)
  }

  /** The C++ `<` on floats (false whenever a NaN is involved). */
  predicate Less(a: Value, b: Value)
  {
    match (a, b)
    case (Finite(x), Finite(y)) => x < y
    case (Infinite(n), Finite(_)) => n
    case (Finite(_), Infinite(n)) => !n
    case (Infinite(n), Infinite(m)) => n && !m
    case _ => false
  }

  /** The C++ `==` on floats (a NaN equals nothing, the two zeros are equal). */
  predicate Equal(a: Value, b: Value)
  {
    a != NaN && a == b
  }

  /** The C++ `>=`. */
  predicate AtLeast(a: Value, b: Value)
  {
    Less(b, a) || Equal(a, b)
  }

  /** floor(log2 m). */
  function Log2(m: nat): (e: nat)
    requires m >= 1
    ensures Bitwise.Pow2(e) <= m < 2 * Bitwise.Pow2(e)
  {
    if m == 1 then 0 else 1 + Log2(m / 2)
  }

  /** Assemble a finite float from its sign, biased exponent and a 24-bit
      significand whose top bit is implicit. */
  function Pack(negative: bool, e: nat, q: nat): Bits
    requires 1 <= e < 0xFF
    requires 0x80_0000 <= q < 0x100_0000
  {
    (if negative then 0x8000_0000 else 0) + e * 0x80_0000 + (q - 0x80_0000)
  }

  /** The 24-bit significand of m, whose leading bit is bit e: m itself
      shifted up when it is short, otherwise shifted down and rounded to
      nearest with ties to even (the result may round up to 2^24). */
  function Significand(m: nat, e: nat): (q: nat)
    requires Bitwise.Pow2(e) <= m < 2 * Bitwise.Pow2(e)
    ensures 0x80_0000 <= q <= 0x100_0000
    ensures e <= 23 ==> q < 0x100_0000
  {
    Pow2Constants();
    if e <= 23 then
      Bitwise.Pow2Add(e, 23 - e);
      ScaleUpBounds(m, Bitwise.Pow2(e), Bitwise.Pow2(23 - e));
      m * Bitwise.Pow2(23 - e)
    else
      var sh := e - 23;
      ShiftBounds(m, e, sh);
      assert e - sh == 23;
      var q, rem, half := m / Bitwise.Pow2(sh), m % Bitwise.Pow2(sh), Bitwise.Pow2(sh - 1);
      if rem > half || (rem == half && q % 2 == 1) then q + 1 else q
  }

  /** `static_cast<float>(i)` for a 32-bit signed or unsigned integer: round
      to nearest, ties to even. */
  function FromInt(i: int): (b: Bits)
    requires -0x8000_0000 <= i < 0x1_0000_0000
  {
    if i == 0 then PositiveZero
    else
      var m := if i < 0 then -i else i;
      var e := Log2(m);
      Pow2Constants();
      Log2Le(m, 31);
      var q := Significand(m, e);
      if q == 0x100_0000 then Pack(i < 0, e + 128, 0x80_0000)
      else Pack(i < 0, e + 127, q)
  }

  /** `static_cast<int32_t>(f)`: truncation toward zero. A NaN, an infinity or
      a value out of range is undefined behaviour in C++; the model yields
      what x86 hardware yields. */
  function TruncToInt(b: Bits): (i: int)
    ensures InSignedRange(i, 4)
  {
    match Decode(b)
    case Finite(r) =>
      var t := if r >= 0.0 then r.Floor else -((-r).Floor);
      if -0x8000_0000 <= t < 0x8000_0000 then t else IntegerIndefinite
    case _ => IntegerIndefinite
  }

  /** `static_cast<uint32_t>(f)`: undefined in C++ outside [0, 2^32); the
      model yields what x86-64 compilers produce, a conversion to a 64-bit
      integer whose low 32 bits are kept. */
  function TruncToUnsigned(b: Bits): (u: nat)
    ensures u < 0x1_0000_0000
  {
    match Decode(b)
    case Finite(r) =>
      var t := if r >= 0.0 then r.Floor else -((-r).Floor);
      if -0x8000_0000_0000_0000 <= t < 0x8000_0000_0000_0000 then t % 0x1_0000_0000 else 0
    case _ => 0
  }

  lemma Pow2Constants()
    ensures Bitwise.Pow2(23) == 0x80_0000
    ensures Bitwise.Pow2(24) == 0x100_0000
    ensures Bitwise.Pow2(31) == 0x8000_0000
  {
    assert Bitwise.Pow2(8) == 0x100;
    assert Bitwise.Pow2(16) == 0x1_0000;
    assert Bitwise.Pow2(24) == 0x100_0000;
  }

  /** The fields of a packed float are the ones it was packed from. */
  lemma PackFields(negative: bool, e: nat, q: nat)
    requires 1 <= e < 0xFF
    requires 0x80_0000 <= q < 0x100_0000
    ensures SignOf(Pack(negative, e, q)) == (if negative then 1 else 0)
    ensures ExponentOf(Pack(negative, e, q)) == e
    ensures FractionOf(Pack(negative, e, q)) == q - 0x80_0000
  {
    var s := if negative then 1 else 0;
    var f := q - 0x80_0000;
    var b := Pack(negative, e, q);
    assert b == s * 0x8000_0000 + e * 0x80_0000 + f;
    assert b / 0x80_0000 == s * 0x100 + e;
    assert b / 0x8000_0000 == s;
  }

  lemma {:induction false} Log2Le(m: nat, k: nat)
    requires 1 <= m < 2 * Bitwise.Pow2(k)
    ensures Log2(m) <= k
    decreases m
  {
    if m > 1 {
      assert k >= 1;
      Log2Le(m / 2, k - 1);
    }
  }

  lemma MulLe(a: nat, b: nat, c: nat)
    requires a <= b
    ensures a * c <= b * c
  {
  }

  lemma MulLt(a: nat, b: nat, c: nat)
    requires a < b && c >= 1
    ensures a * c < b * c
  {
  }

  /** Bounds of a product: a <= m < 2 * a gives a * p <= m * p < 2 * a * p. */
  lemma ScaleUpBounds(m: nat, a: nat, p: nat)
    requires p >= 1
    requires a <= m < 2 * a
    ensures a * p <= m * p < 2 * (a * p)
  {
    MulLe(a, m, p);
    MulLt(m, 2 * a, p);
    assert (2 * a) * p == 2 * (a * p);
  }

  /** Bounds of a quotient: a * p <= m < 2 * a * p gives a <= m / p < 2 * a. */
  lemma DivBounds(m: nat, a: nat, p: nat)
    requires p >= 1
    requires a * p <= m < 2 * a * p
    ensures a <= m / p < 2 * a
  {
    var q, r := m / p, m % p;
    assert m == q * p + r && 0 <= r < p;
    if q < a {
      MulLe(q, a - 1, p);
      assert false;
    }
    if q >= 2 * a {
      MulLe(2 * a, q, p);
      assert false;
    }
  }

  lemma ShiftBounds(m: nat, e: nat, sh: nat)
    requires 1 <= sh <= e
    requires Bitwise.Pow2(e) <= m < 2 * Bitwise.Pow2(e)
    ensures Bitwise.Pow2(e - sh) <= m / Bitwise.Pow2(sh) < 2 * Bitwise.Pow2(e - sh)
    ensures Bitwise.Pow2(sh) == 2 * Bitwise.Pow2(sh - 1)
  {
    Bitwise.Pow2Add(e - sh, sh);
    assert 2 * Bitwise.Pow2(e - sh) * Bitwise.Pow2(sh) == 2 * Bitwise.Pow2(e);
    DivBounds(m, Bitwise.Pow2(e - sh), Bitwise.Pow2(sh));
  }

  /** The float 16777216.0 (2^24) truncates to the integer 2^24. */
  lemma TruncTwoToThe24()
    ensures Decode(0x4B80_0000) == Finite(0x100_0000 as real)
    ensures TruncToUnsigned(0x4B80_0000) == 0x100_0000
  {
    assert ExponentOf(0x4B80_0000) == 151 && FractionOf(0x4B80_0000) == 0;
    Pow2Constants();
    assert Pow2(151 - 150) == 2.0;
  }

  /** The integer 1 converts to the float 1.0. */
  lemma FromOne()
    ensures FromInt(1) == 0x3F80_0000
  {
    Pow2Constants();
    assert Log2(1) == 0;
    assert Significand(1, 0) == 0x80_0000;
  }
}
