/**
 * Endian: the byte-order helpers of the library. The host byte order is a
 * parameter of the model (the source probes it at run time). Values are the
 * unsigned bit patterns of the C++ integer types; a signed type is converted
 * through its unsigned counterpart of the same width, which leaves the bit
 * pattern unchanged.
 */
module Endian {
  import opened Bytes
  import Float32

  /** Byte order of the machine the library runs on. */
  datatype Host = LittleEndian | BigEndian

  /** How a host lays out the k bytes of the unsigned value v in memory. */
  function MemoryImage(host: Host, v: int, k: nat): (r: seq<byte>)
    ensures |r| == k
  {
    if host == LittleEndian then LeBytes(v, k) else Reverse(LeBytes(v, k))
  }

  /** The unsigned value a host sees in the k bytes bs. */
  function HostLoad(host: Host, bs: seq<byte>): nat
  {
    if host == LittleEndian then Unsigned(bs) else Unsigned(Reverse(bs))
  }

  function Reverse(bs: seq<byte>): (r: seq<byte>)
    ensures |r| == |bs|
    ensures forall i :: 0 <= i < |bs| ==> r[i] == bs[|bs| - 1 - i]
  {
    if |bs| == 0 then [] else Reverse(bs[1..]) + [bs[0]]
  }

  /** The run-time probe: the first byte in memory of the 32-bit value 1. */
  function IsLittleEndian(host: Host): (r: bool)
    ensures r <==> MemoryImage(host, 1, 4)[0] == 1
  {
    assert LeBytes(1, 4) == [1, 0, 0, 0];
    host == LittleEndian
  }

  /** Byte swap of a 16-bit value: `(x >> 8) & 0xff` keeps the high byte
      moved down, `(x << 8) & 0xff00` the low byte moved up. */
  function Swap16(x: nat): (r: nat)
    requires x < 0x1_0000
    ensures r < 0x1_0000
    ensures LeBytes(r, 2) == Reverse(LeBytes(x, 2))
  {
    var r := (x / 0x100) % 0x100 + (x * 0x100) % 0x1_0000;
    Swap16Bytes(x);
    LeBytesUnsigned(Reverse(LeBytes(x, 2)));
    r
  }

  /** Byte swap of a 32-bit value; each term is one shift-and-mask of the
      source: `(x >> 24) & 0xff`, `(x >> 8) & 0xff00`, `(x << 8) & 0xff0000`
      and `(x << 24) & 0xff000000`. */
  function Swap32(x: nat): (r: nat)
    requires x < 0x1_0000_0000
    ensures r < 0x1_0000_0000
    ensures LeBytes(r, 4) == Reverse(LeBytes(x, 4))
  {
    var r := (x / 0x100_0000) % 0x100
      + ((x / 0x1_0000) % 0x100) * 0x100
      + ((x / 0x100) % 0x100) * 0x1_0000
      + (x % 0x100) * 0x100_0000;
    Swap32Bytes(x);
    LeBytesUnsigned(Reverse(LeBytes(x, 4)));
    r
  }

  /** EndianSwap for the widths the library instantiates it with: one byte is
      returned unchanged. */
  function Swap(v: nat, k: nat): (r: nat)
    requires k == 1 || k == 2 || k == 4
    requires v < Pow256(k)
    ensures r < Pow256(k)
    ensures LeBytes(r, k) == Reverse(LeBytes(v, k))
  {
    if k == 1 then
      assert Reverse(LeBytes(v, 1)) == LeBytes(v, 1);
      v
    else if k == 2 then Swap16(v)
    else Swap32(v)
  }

  /** Host order to little-endian (file) order. */
  function ConvertHostToLEndian(host: Host, v: nat, k: nat): (r: nat)
    requires k == 1 || k == 2 || k == 4
    requires v < Pow256(k)
    ensures r < Pow256(k)
  {
    if IsLittleEndian(host) then v else Swap(v, k)
  }

  /** Little-endian (file) order to host order. */
  function ConvertLEndianToHost(host: Host, v: nat, k: nat): (r: nat)
    requires k == 1 || k == 2 || k == 4
    requires v < Pow256(k)
    ensures r < Pow256(k)
  {
    if IsLittleEndian(host) then v else Swap(v, k)
  }

  lemma Swap16Bytes(x: nat)
    requires x < 0x1_0000
    ensures (x / 0x100) % 0x100 + (x * 0x100) % 0x1_0000 == Unsigned(Reverse(LeBytes(x, 2)))
  {
    var lo, hi := x % 0x100, x / 0x100;
    assert LeBytes(x, 2) == [lo, hi % 0x100];
    assert x * 0x100 == hi * 0x1_0000 + lo * 0x100;
    assert (x * 0x100) % 0x1_0000 == lo * 0x100;
  }

  lemma Swap32Bytes(x: nat)
    requires x < 0x1_0000_0000
    ensures (x / 0x100_0000) % 0x100 + ((x / 0x1_0000) % 0x100) * 0x100
      + ((x / 0x100) % 0x100) * 0x1_0000 + (x % 0x100) * 0x100_0000
      == Unsigned(Reverse(LeBytes(x, 4)))
  {
    assert x / 0x100 / 0x100 == x / 0x1_0000;
    assert x / 0x1_0000 / 0x100 == x / 0x100_0000;
    var b := [x % 0x100, (x / 0x100) % 0x100, (x / 0x1_0000) % 0x100, (x / 0x100_0000) % 0x100];
    assert LeBytes(x, 4) == b;
    var r := [b[3], b[2], b[1], b[0]];
    assert Reverse(b) == r;
    assert Unsigned(r[3..]) == b[0];
    assert Unsigned(r[2..]) == b[1] + 0x100 * b[0];
    assert Unsigned(r[1..]) == b[2] + 0x100 * (b[1] + 0x100 * b[0]);
  }

  lemma ReverseReverse(bs: seq<byte>)
    ensures Reverse(Reverse(bs)) == bs
  {
  }

  /** EndianSwap is an involution. */
  lemma SwapInvolution(v: nat, k: nat)
    requires k == 1 || k == 2 || k == 4
    requires v < Pow256(k)
    ensures Swap(Swap(v, k), k) == v
  {
    var w := Swap(Swap(v, k), k);
    assert LeBytes(w, k) == Reverse(Reverse(LeBytes(v, k)));
    ReverseReverse(LeBytes(v, k));
    UnsignedLeBytes(w, k);
    UnsignedLeBytes(v, k);
  }

  /** The two conversions undo each other on every host. */
  lemma ConversionsInverse(host: Host, v: nat, k: nat)
    requires k == 1 || k == 2 || k == 4
    requires v < Pow256(k)
    ensures ConvertLEndianToHost(host, ConvertHostToLEndian(host, v, k), k) == v
    ensures ConvertHostToLEndian(host, ConvertLEndianToHost(host, v, k), k) == v
  {
    SwapInvolution(v, k);
  }

  /** Reading k little-endian bytes into host memory and converting them to
      host order gives their little-endian value on every host. */
  lemma LoadIsHostIndependent(host: Host, bs: seq<byte>)
    requires |bs| == 1 || |bs| == 2 || |bs| == 4
    ensures HostLoad(host, bs) < Pow256(|bs|)
    ensures ConvertLEndianToHost(host, HostLoad(host, bs), |bs|) == Unsigned(bs)
  {
    var k := |bs|;
    if host == BigEndian {
      var u := Unsigned(Reverse(bs));
      LeBytesUnsigned(Reverse(bs));
      assert LeBytes(Swap(u, k), k) == Reverse(Reverse(bs));
      ReverseReverse(bs);
      UnsignedLeBytes(Swap(u, k), k);
    }
  }

  /** Converting a value to little-endian order and storing it in host memory
      puts its little-endian bytes there on every host. */
  lemma StoreIsHostIndependent(host: Host, v: nat, k: nat)
    requires k == 1 || k == 2 || k == 4
    requires v < Pow256(k)
    ensures MemoryImage(host, ConvertHostToLEndian(host, v, k), k) == LeBytes(v, k)
  {
    if host == BigEndian {
      ReverseReverse(LeBytes(v, k));
    }
  }

  /** EndianSwap for the signed types: cast to the unsigned type of the same
      width, swap, cast back. */
  function SwapSigned(x: int, k: nat): (r: int)
    requires k == 1 || k == 2 || k == 4
    requires InSignedRange(x, k)
    ensures InSignedRange(r, k)
    ensures LeBytes(r, k) == Reverse(LeBytes(x, k))
  {
    var u := Unsigned(LeBytes(x, k));
    LeBytesUnsigned(LeBytes(x, k));
    var r := Signed(LeBytes(Swap(u, k), k));
    LeBytesSigned(LeBytes(Swap(u, k), k));
    r
  }

  /** The signed swap is the unsigned swap of the same bit pattern. */
  lemma SignedSwapIsUnsignedSwap(x: int, k: nat)
    requires k == 1 || k == 2 || k == 4
    requires InSignedRange(x, k)
    ensures Unsigned(LeBytes(SwapSigned(x, k), k)) == Swap(Unsigned(LeBytes(x, k)), k)
  {
    var u := Unsigned(LeBytes(x, k));
    LeBytesUnsigned(LeBytes(x, k));
    LeBytesUnsigned(Reverse(LeBytes(x, k)));
    UnsignedLeBytes(Swap(u, k), k);
  }

  function ConvertHostToLEndianSigned(host: Host, v: int, k: nat): (r: int)
    requires k == 1 || k == 2 || k == 4
    requires InSignedRange(v, k)
    ensures InSignedRange(r, k)
  {
    if IsLittleEndian(host) then v else SwapSigned(v, k)
  }

  function ConvertLEndianToHostSigned(host: Host, v: int, k: nat): (r: int)
    requires k == 1 || k == 2 || k == 4
    requires InSignedRange(v, k)
    ensures InSignedRange(r, k)
  {
    if IsLittleEndian(host) then v else SwapSigned(v, k)
  }

  /** The signed value a host sees in the k bytes bs. */
  function HostLoadSigned(host: Host, bs: seq<byte>): (r: int)
    requires |bs| > 0
    ensures InSignedRange(r, |bs|)
  {
    if host == LittleEndian then Signed(bs) else Signed(Reverse(bs))
  }

  /** How a host lays out the signed k-byte value v in memory. */
  function MemoryImageSigned(host: Host, v: int, k: nat): (r: seq<byte>)
    ensures |r| == k
  {
    if host == LittleEndian then LeBytes(v, k) else Reverse(LeBytes(v, k))
  }

  /** Signed loads are host independent too. */
  lemma LoadSignedIsHostIndependent(host: Host, bs: seq<byte>)
    requires |bs| == 1 || |bs| == 2 || |bs| == 4
    ensures ConvertLEndianToHostSigned(host, HostLoadSigned(host, bs), |bs|) == Signed(bs)
  {
    if host == BigEndian {
      var k := |bs|;
      var t := Signed(Reverse(bs));
      LeBytesSigned(Reverse(bs));
      ReverseReverse(bs);
      assert LeBytes(SwapSigned(t, k), k) == bs;
      SignedLeBytes(SwapSigned(t, k), k);
    }
  }

  /** Signed stores are host independent. */
  lemma StoreSignedIsHostIndependent(host: Host, v: int, k: nat)
    requires k == 1 || k == 2 || k == 4
    requires InSignedRange(v, k)
    ensures MemoryImageSigned(host, ConvertHostToLEndianSigned(host, v, k), k) == LeBytes(v, k)
  {
    if host == BigEndian {
      ReverseReverse(LeBytes(v, k));
    }
  }

  /** EndianSwap(float) as written: the float is converted to uint32 by
      value (not reinterpreted), the integer is swapped and converted back to
      float by value. */
  function SwapFloatAsWritten(f: Float32.Bits): Float32.Bits
  {
    Float32.FromInt(Swap32(Float32.TruncToUnsigned(f)))
  }

  /** The byte swap of a float: its bit pattern with the bytes reversed.
      The model's float conversions use this one. */
  function SwapFloat(f: Float32.Bits): (r: Float32.Bits)
    ensures LeBytes(r, 4) == Reverse(LeBytes(f, 4))
  {
    Swap32(f)
  }

  /** Host conversion of a float, as the source intends it. */
  function ConvertFloatLEndianToHost(host: Host, f: Float32.Bits): Float32.Bits
  {
    if IsLittleEndian(host) then f else SwapFloat(f)
  }

  /** Swapping the bytes of a float twice gives the float back. */
  lemma SwapFloatInvolution(f: Float32.Bits)
    ensures SwapFloat(SwapFloat(f)) == f
  {
    SwapInvolution(f, 4);
  }

  lemma SwapFloatAsWrittenOfTwoToThe24()
    ensures SwapFloatAsWritten(0x4B80_0000) == 0x3F80_0000
  {
    Float32.TruncTwoToThe24();
    SwapTwoToThe24();
    Float32.FromOne();
  }

  lemma SwapTwoToThe24()
    ensures Swap32(0x100_0000) == 1
  {
  }

  lemma SwapFloatOfTwoToThe24()
    ensures SwapFloat(0x4B80_0000) == 0x0000_804B
  {
    var x := 0x4B80_0000;
    assert (x / 0x100_0000) % 0x100 == 0x4B;
    assert ((x / 0x1_0000) % 0x100) * 0x100 == 0x8000;
    assert ((x / 0x100) % 0x100) * 0x1_0000 == 0;
    assert (x % 0x100) * 0x100_0000 == 0;
  }

  /** Reading a float on a big-endian host, as written: the swap of the
      float 16777216.0 goes through the integer 2^24, whose byte swap is 1,
      and yields the float 1.0, where a byte swap of the bits yields the bit
      pattern 0x0000804B. */
  lemma SwapFloatAsWrittenIsNotAByteSwap()
    ensures SwapFloatAsWritten(0x4B80_0000) == 0x3F80_0000
    ensures SwapFloat(0x4B80_0000) == 0x0000_804B
    ensures SwapFloatAsWritten(0x4B80_0000) != SwapFloat(0x4B80_0000)
  {
    SwapFloatAsWrittenOfTwoToThe24();
    SwapFloatOfTwoToThe24();
  }
}
