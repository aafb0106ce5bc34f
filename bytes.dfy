/**
 * Bytes: byte strings and the little-endian two's-complement encoding of
 * fixed-width integers. The DTS file format stores every integer in this
 * encoding; the packed shape buffer is read back as 32-, 16- and 8-bit views
 * of the same bytes.
 */
module Bytes {

  datatype Option<T> = None | Some(value: T)

  /** An octet, the unit every stream and memory buffer is made of. */
  type byte = b: int | 0 <= b < 0x100

  /** 256 raised to the power k: the number of distinct k-byte values. */
  function Pow256(k: nat): (r: nat)
    ensures r > 0
    ensures k > 0 ==> r % 2 == 0
  {
    if k == 0 then 1 else 0x100 * Pow256(k - 1)
  }

  /** The low-order byte of n (two's complement when n is negative). */
  function LowByte(n: int): byte
  {
    n % 0x100
  }

  /** Unsigned value of a little-endian byte string. */
  function Unsigned(bs: seq<byte>): (r: nat)
    ensures r < Pow256(|bs|)
  {
    if |bs| == 0 then 0 else bs[0] + 0x100 * Unsigned(bs[1..])
  }

  /** Half the number of k-byte values: the bound of the signed range. */
  function HalfRange(k: nat): int
  {
    Pow256(k) / 2
  }

  /** Two's-complement value of a non-empty little-endian byte string. */
  function Signed(bs: seq<byte>): (r: int)
    requires |bs| > 0
    ensures -HalfRange(|bs|) <= r < HalfRange(|bs|)
  {
    var u := Unsigned(bs);
    if u < HalfRange(|bs|) then u else u - Pow256(|bs|)
  }

  /** The k low-order bytes of n, least significant first: the memory image of
      n stored in a k-byte integer on a little-endian machine. */
  function LeBytes(n: int, k: nat): (r: seq<byte>)
    ensures |r| == k
    decreases k
  {
    if k == 0 then [] else [LowByte(n)] + LeBytes(n / 0x100, k - 1)
  }

  /** v fits a signed integer of k bytes. */
  predicate InSignedRange(v: int, k: nat)
  {
    -HalfRange(k) <= v < HalfRange(k)
  }

  /** The 32-bit ranges: 2^32 values, signed ones from -2^31. */
  lemma Int32Range()
    ensures Pow256(4) == 0x1_0000_0000 && HalfRange(4) == 0x8000_0000
  {
    assert Pow256(4) == 0x1_0000_0000;
  }

  /** Conversion of v to a k-byte signed integer (keeps the low k bytes);
      models a narrowing cast or a wrapping increment. */
  function Wrap(v: int, k: nat): int
    requires k > 0
  {
    Signed(LeBytes(v, k))
  }

  lemma {:induction false} UnsignedLeBytes(n: int, k: nat)
    requires 0 <= n < Pow256(k)
    ensures Unsigned(LeBytes(n, k)) == n
  {
    if k > 0 {
      assert n / 0x100 < Pow256(k - 1);
      UnsignedLeBytes(n / 0x100, k - 1);
      var e := LeBytes(n, k);
      assert e[0] == LowByte(n);
      assert e[1..] == LeBytes(n / 0x100, k - 1);
    }
  }

  lemma {:induction false} LeBytesUnsigned(bs: seq<byte>)
    ensures LeBytes(Unsigned(bs), |bs|) == bs
  {
    if |bs| > 0 {
      LeBytesUnsigned(bs[1..]);
      var n := Unsigned(bs);
      assert n % 0x100 == bs[0];
      assert n / 0x100 == Unsigned(bs[1..]);
      assert LowByte(n) == bs[0];
    }
  }

  /** Adding 256^k does not change the k low-order bytes. */
  lemma {:induction false} LeBytesAddPow(n: int, k: nat)
    ensures LeBytes(n + Pow256(k), k) == LeBytes(n, k)
    decreases k
  {
    if k > 0 {
      var p := Pow256(k - 1);
      assert (n + 0x100 * p) % 0x100 == n % 0x100;
      assert (n + 0x100 * p) / 0x100 == n / 0x100 + p;
      LeBytesAddPow(n / 0x100, k - 1);
    }
  }

  /** Adding a multiple of 256^k does not change the k low-order bytes. */
  lemma {:induction false} LeBytesAddMultiple(n: int, q: int, k: nat)
    ensures LeBytes(n + q * Pow256(k), k) == LeBytes(n, k)
    decreases k
  {
    if k > 0 {
      var t := q * Pow256(k - 1);
      assert q * Pow256(k) == 0x100 * t;
      assert (n + 0x100 * t) % 0x100 == n % 0x100;
      assert (n + 0x100 * t) / 0x100 == n / 0x100 + t;
      LeBytesAddMultiple(n / 0x100, q, k - 1);
    }
  }

  /** A wrapping conversion to k bytes only sees v modulo 256^k. */
  lemma WrapModular(v: int, q: int, k: nat)
    requires k > 0
    ensures Wrap(v + q * Pow256(k), k) == Wrap(v, k)
  {
    LeBytesAddMultiple(v, q, k);
  }

  /** Writing a k-byte signed integer and reading it back gives the value. */
  lemma SignedLeBytes(v: int, k: nat)
    requires k > 0 && InSignedRange(v, k)
    ensures Signed(LeBytes(v, k)) == v
  {
    var p := Pow256(k);
    if v >= 0 {
      UnsignedLeBytes(v, k);
    } else {
      LeBytesAddPow(v, k);
      UnsignedLeBytes(v + p, k);
    }
  }

  /** Reading a k-byte signed integer and writing it back gives the bytes. */
  lemma LeBytesSigned(bs: seq<byte>)
    requires |bs| > 0
    ensures LeBytes(Signed(bs), |bs|) == bs
  {
    var k, u := |bs|, Unsigned(bs);
    LeBytesUnsigned(bs);
    assert LeBytes(u, k) == bs;
    if u >= HalfRange(k) {
      var v := u - Pow256(k);
      LeBytesAddPow(v, k);
      assert LeBytes(v, k) == LeBytes(u, k);
    }
  }

  /** A wrapping conversion always fits and is the identity on values that
      already fit. */
  lemma WrapProperties(v: int, k: nat)
    requires k > 0
    ensures InSignedRange(Wrap(v, k), k)
    ensures InSignedRange(v, k) ==> Wrap(v, k) == v
  {
    if InSignedRange(v, k) {
      SignedLeBytes(v, k);
    }
  }

  /** Concatenation of the encodings of a sequence of k-byte values. */
  function LeBytesAll(vs: seq<int>, k: nat): (r: seq<byte>)
    ensures |r| == k * |vs|
  {
    if |vs| == 0 then [] else LeBytes(vs[0], k) + LeBytesAll(vs[1..], k)
  }

  /** Appending a and then b appends a + b. */
  lemma AppendedInTurn<T>(o: seq<T>, o1: seq<T>, o2: seq<T>, a: seq<T>, b: seq<T>)
    requires o1 == o + a && o2 == o1 + b
    ensures o2 == o + (a + b)
  {
  }

  /** What follows a + b follows b. */
  lemma Regrouped<T>(a: seq<T>, b: seq<T>, rest: seq<T>)
    ensures (a + b) + rest == a + (b + rest)
  {
  }

  /** Three parts with an empty part in front or behind. */
  lemma FramedByEmpty<T>(a: seq<T>, b: seq<T>, c: seq<T>)
    ensures a + b + c == [] + a + (b + c) && a + b + c == (a + b) + c + []
  {
  }

  /** A slice inside a prefix is the same slice of the whole. */
  lemma SliceInPrefix<T>(s: seq<T>, m: nat, a: nat, b: nat)
    requires a <= b <= m <= |s|
    ensures s[..m][a..b] == s[a..b]
  {
  }

  /** The fields of a record laid out as a + (b + c), followed by d, are
      found again at their offsets. */
  lemma FieldsAt<T>(a: seq<T>, b: seq<T>, c: seq<T>, d: seq<T>)
    ensures var s := (a + (b + c)) + d;
      s[..|a|] == a && s[|a|..|a| + |b|] == b
  {
    var s := (a + (b + c)) + d;
    assert s[..|a|] == a;
    assert s[|a|..|a| + |b|] == b by {
      forall i | 0 <= i < |b| ensures s[|a| + i] == b[i] {
      }
    }
  }

  /** A slice that lies past a lies in b. */
  lemma SliceAfter<T>(a: seq<T>, b: seq<T>, j: nat, m: nat)
    requires j + m <= |b|
    ensures (a + b)[|a| + j .. |a| + j + m] == b[j .. j + m]
  {
  }
}
