/**
 * Stream: the binary stream wrappers. Every scalar travels in little-endian
 * order whatever the host byte order; a bool is one byte; a string is a
 * length byte followed by that many characters.
 *
 * The input side is a class over a fixed byte string with a read position
 * and the stream's good flag; `Reader` is the same state as a value, and the
 * `Take*` functions say what each read does to it. The codecs of the other
 * modules are specified with these functions. The output side appends to a
 * byte string; the `Put*` functions give the bytes each write appends.
 */
module Stream {
  import opened Bytes
  import Endian
  import Float32
  import Bitwise

  /** Input stream state: the bytes, the read position and the good flag. */
  datatype Reader = Reader(data: seq<byte>, pos: nat, good: bool)
  {
    predicate Valid() { pos <= |data| }
  }

  /** A value read and the stream state after the read. */
  datatype Got<T> = Got(rest: Reader, value: T)

  /** n zero bytes: what the model yields for bytes a failed read did not
      deliver (uninitialised memory in the source). */
  function Zeros(n: nat): (r: seq<byte>)
    ensures |r| == n && forall i :: 0 <= i < n ==> r[i] == 0
  {
    seq(n, i => 0)
  }

  /** `is.read(buf, n)` behind the good-flag test: nothing happens on a
      stream that already failed or for n = 0; a read past the end consumes
      what is left and fails the stream. */
  function Take(r: Reader, n: nat): (g: Got<seq<byte>>)
    requires r.Valid()
    ensures g.rest.Valid() && g.rest.data == r.data && |g.value| == n
    ensures g.rest.pos >= r.pos
    ensures g.rest.good ==> r.good
  {
    if !r.good then Got(r, Zeros(n))
    else if n == 0 then Got(r, [])
    else if n <= |r.data| - r.pos then Got(r.(pos := r.pos + n), r.data[r.pos .. r.pos + n])
    else Got(r.(pos := |r.data|, good := false), Zeros(n))
  }

  /** A read on a failed stream changes nothing and fails; a zero-length
      read on a good stream succeeds and changes nothing. */
  lemma TakeNothing(r: Reader, n: nat)
    requires r.Valid() && (!r.good || n == 0)
    ensures Take(r, n).rest == r
    ensures Take(r, n).rest.good == r.good
  {
  }

  /** The reader holds the bytes bs at its position and has not failed. */
  predicate At(r: Reader, bs: seq<byte>)
  {
    r.good && r.pos + |bs| <= |r.data| && r.data[r.pos .. r.pos + |bs|] == bs
  }

  /** The reader moved past n bytes. */
  function Skip(r: Reader, n: nat): Reader
  {
    r.(pos := r.pos + n)
  }

  /** Reading the bytes at the position gives them and moves past them. */
  lemma TakeAt(r: Reader, bs: seq<byte>)
    requires r.Valid() && At(r, bs)
    ensures Take(r, |bs|) == Got(Skip(r, |bs|), bs)
  {
  }

  /** Bytes written one after the other are read one after the other. */
  lemma AtConcat(r: Reader, a: seq<byte>, b: seq<byte>)
    requires At(r, a + b)
    ensures At(r, a) && At(Skip(r, |a|), b)
  {
    assert r.data[r.pos .. r.pos + |a|] == (a + b)[..|a|];
    assert r.data[r.pos + |a| .. r.pos + |a| + |b|] == (a + b)[|a|..];
  }

  /** `Read<T>` of an unsigned k-byte type. */
  function TakeUnsigned(r: Reader, k: nat): (g: Got<nat>)
    requires r.Valid()
    ensures g.rest.Valid() && g.value < Pow256(k)
  {
    var b := Take(r, k);
    Got(b.rest, Unsigned(b.value))
  }

  /** `Read<T>` of a signed k-byte type. */
  function TakeSigned(r: Reader, k: nat): (g: Got<int>)
    requires r.Valid() && k > 0
    ensures g.rest.Valid() && InSignedRange(g.value, k)
  {
    var b := Take(r, k);
    Got(b.rest, Signed(b.value))
  }

  /** `Read(bool*)`: one byte, true iff it is not zero. When the read
      fails the source returns before storing, so the caller's variable
      keeps the value it had, `prior`. */
  function TakeBool(r: Reader, prior: bool): (g: Got<bool>)
    requires r.Valid()
    ensures g.rest.Valid()
    ensures !g.rest.good ==> g.value == prior
  {
    var b := Take(r, 1);
    Got(b.rest, if b.rest.good then b.value[0] != 0 else prior)
  }

  /** A C++ char as a Dafny character and back: chars are bytes. */
  function CharOf(b: byte): char
  {
    b as char
  }

  function ByteOf(c: char): byte
  {
    (c as int) % 0x100
  }

  function Chars(bs: seq<byte>): (s: string)
    ensures |s| == |bs| && forall i :: 0 <= i < |bs| ==> s[i] == CharOf(bs[i])
  {
    seq(|bs|, i requires 0 <= i < |bs| => CharOf(bs[i]))
  }

  function BytesOf(s: string): (bs: seq<byte>)
    ensures |bs| == |s| && forall i :: 0 <= i < |s| ==> bs[i] == ByteOf(s[i])
  {
    seq(|s|, i requires 0 <= i < |s| => ByteOf(s[i]))
  }

  /** Every character of s fits a C++ char. */
  predicate Narrow(s: string)
  {
    forall i :: 0 <= i < |s| ==> s[i] as int < 0x100
  }

  predicate NoNul(s: string)
  {
    forall i :: 0 <= i < |s| ==> s[i] != '\0'
  }

  /** The C string held by a character buffer: everything before the first
      NUL. */
  function CStr(s: string): (r: string)
    ensures |r| <= |s| && r == s[..|r|] && NoNul(r)
    ensures |r| < |s| ==> s[|r|] == '\0'
  {
    if |s| == 0 || s[0] == '\0' then [] else [s[0]] + CStr(s[1..])
  }

  lemma {:induction false} CStrNoNul(s: string)
    requires NoNul(s)
    ensures CStr(s) == s
  {
    if |s| > 0 {
      CStrNoNul(s[1..]);
    }
  }

  /** `ReadString`: a length byte, that many characters, and a NUL after
      them; the caller sees the C string in the buffer. */
  function TakeString(r: Reader): (g: Got<string>)
    requires r.Valid()
    ensures g.rest.Valid() && |g.value| <= 0xFF && NoNul(g.value)
  {
    var len := TakeUnsigned(r, 1);
    var buf := Take(len.rest, len.value);
    Got(buf.rest, CStr(Chars(buf.value)))
  }

  /** The bytes `Write<T>` appends for a k-byte value. */
  function PutUnsigned(v: nat, k: nat): (bs: seq<byte>)
    requires v < Pow256(k)
    ensures |bs| == k
  {
    LeBytes(v, k)
  }

  function PutBool(b: bool): (bs: seq<byte>)
    ensures |bs| == 1
  {
    [if b then 1 else 0]
  }

  /** The length `WriteString` uses: strlen, capped at 255. */
  function StringLength(s: string): (n: nat)
    ensures n <= 0xFF && n <= |CStr(s)|
  {
    if |CStr(s)| > 0xFF then 0xFF else |CStr(s)|
  }

  /** The bytes `WriteString` appends. */
  function PutString(s: string): (bs: seq<byte>)
    ensures |bs| == 1 + StringLength(s)
  {
    [StringLength(s)] + BytesOf(CStr(s)[..StringLength(s)])
  }

  lemma TakeUnsignedPut(r: Reader, v: nat, k: nat)
    requires r.Valid() && v < Pow256(k) && At(r, PutUnsigned(v, k))
    ensures TakeUnsigned(r, k) == Got(Skip(r, k), v)
  {
    TakeAt(r, LeBytes(v, k));
    UnsignedLeBytes(v, k);
  }

  lemma TakeSignedPut(r: Reader, v: int, k: nat)
    requires r.Valid() && k > 0 && InSignedRange(v, k) && At(r, LeBytes(v, k))
    ensures TakeSigned(r, k) == Got(Skip(r, k), v)
  {
    TakeAt(r, LeBytes(v, k));
    SignedLeBytes(v, k);
  }

  /** A bool reads back as written. */
  lemma TakeBoolPut(r: Reader, b: bool, prior: bool)
    requires r.Valid() && At(r, PutBool(b))
    ensures TakeBool(r, prior) == Got(Skip(r, 1), b)
  {
    TakeAt(r, PutBool(b));
  }

  lemma CharsBytesOf(s: string)
    requires Narrow(s)
    ensures Chars(BytesOf(s)) == s
  {
  }

  /** `ReadString` after `WriteString` gives back the C string of what was
      written, cut to 255 characters; in particular any string of at most
      255 characters without NULs comes back unchanged. */
  lemma TakeStringPut(r: Reader, s: string)
    requires r.Valid() && Narrow(s) && At(r, PutString(s))
    ensures TakeString(r) == Got(Skip(r, |PutString(s)|), CStr(s)[..StringLength(s)])
    ensures NoNul(s) && |s| <= 0xFF ==> TakeString(r).value == s
  {
    var n := StringLength(s);
    var t := CStr(s)[..n];
    AtConcat(r, [n], BytesOf(t));
    TakeAt(r, [n]);
    assert Unsigned([n]) == n by {
      assert [n][1..] == [];
    }
    var r1 := Skip(r, 1);
    TakeAt(r1, BytesOf(t));
    assert Narrow(t);
    CharsBytesOf(t);
    CStrNoNul(t);
    if NoNul(s) && |s| <= 0xFF {
      CStrNoNul(s);
    }
  }

  /** `Read(uint32_t*)` and `Read(float*)`: the four bytes' unsigned
      value. */
  function TakeWord(r: Reader): (g: Got<Bitwise.Word>)
    requires r.Valid()
    ensures g.rest.Valid()
  {
    var g := TakeUnsigned(r, 4);
    Int32Range();
    Got(g.rest, g.value)
  }

  /** What `Write(uint32_t)` and `Write(float)` append. */
  function PutWord(w: Bitwise.Word): (bs: seq<byte>)
    ensures |bs| == 4
  {
    Int32Range();
    PutUnsigned(w, 4)
  }

  lemma WordNext(r: Reader, w: Bitwise.Word, rest: seq<byte>)
    requires r.Valid() && At(r, PutWord(w) + rest)
    ensures TakeWord(r) == Got(Skip(r, 4), w)
    ensures At(Skip(r, 4), rest)
  {
    Int32Range();
    AtConcat(r, PutWord(w), rest);
    TakeUnsignedPut(r, w, 4);
  }

  /** The input stream object. */
  class IStream {
    const host: Endian.Host
    const data: seq<byte>
    var pos: nat
    var good: bool

    function State(): Reader
      reads this
    {
      Reader(data, pos, good)
    }

    ghost predicate Valid()
      reads this
    {
      pos <= |data|
    }

    constructor (host: Endian.Host, data: seq<byte>)
      ensures Valid() && State() == Reader(data, 0, true) && this.host == host
    {
      this.host := host;
      this.data := data;
      pos := 0;
      good := true;
    }

    /** `Read(buffer, num_bytes)`; the result is the good flag afterwards. */
    method Read(n: nat) returns (ok: bool, bs: seq<byte>)
      requires Valid()
      modifies this
      ensures Valid() && State() == Take(old(State()), n).rest && bs == Take(old(State()), n).value
      ensures ok == good
    {
      if !good {
        return false, Zeros(n);
      }
      if n != 0 {
        if n <= |data| - pos {
          bs := data[pos .. pos + n];
          pos := pos + n;
        } else {
          bs := Zeros(n);
          pos := |data|;
          good := false;
        }
        return good, bs;
      }
      return true, [];
    }

    /** `Read<T>` for an unsigned k-byte T: the bytes land in host memory
        and are converted from little-endian order to host order. */
    method ReadUnsigned(k: nat) returns (ok: bool, v: nat)
      requires Valid() && (k == 1 || k == 2 || k == 4)
      modifies this
      ensures Valid() && State() == TakeUnsigned(old(State()), k).rest
      ensures v == TakeUnsigned(old(State()), k).value && ok == good
    {
      var bs;
      ok, bs := Read(k);
      var temp := Endian.HostLoad(host, bs);
      Endian.LoadIsHostIndependent(host, bs);
      v := Endian.ConvertLEndianToHost(host, temp, k);
    }

    /** `Read<T>` for a signed k-byte T. */
    method ReadSigned(k: nat) returns (ok: bool, v: int)
      requires Valid() && (k == 1 || k == 2 || k == 4)
      modifies this
      ensures Valid() && State() == TakeSigned(old(State()), k).rest
      ensures v == TakeSigned(old(State()), k).value && ok == good
    {
      var bs;
      ok, bs := Read(k);
      var temp := Endian.HostLoadSigned(host, bs);
      Endian.LoadSignedIsHostIndependent(host, bs);
      v := Endian.ConvertLEndianToHostSigned(host, temp, k);
    }

    /** `Read(float*)`: the bit pattern, converted with the byte swap of
        `Endian.SwapFloat`. */
    method ReadFloat() returns (ok: bool, f: nat)
      requires Valid()
      modifies this
      ensures Valid() && State() == TakeUnsigned(old(State()), 4).rest
      ensures f == TakeUnsigned(old(State()), 4).value && ok == good
    {
      var bs;
      ok, bs := Read(4);
      var temp := Endian.HostLoad(host, bs);
      Endian.LoadIsHostIndependent(host, bs);
      f := Endian.ConvertFloatLEndianToHost(host, temp);
    }

    /** `Read(bool*)`. `prior` is what the caller's variable holds before
        the call; a failed read leaves it alone. */
    method ReadBool(prior: bool) returns (ok: bool, b: bool)
      requires Valid()
      modifies this
      ensures Valid() && State() == TakeBool(old(State()), prior).rest
      ensures ok == good && b == TakeBool(old(State()), prior).value
    {
      var translate;
      ok, translate := ReadUnsigned(1);
      if !ok {
        return false, prior;
      }
      b := translate != 0;
    }

    /** `ReadString`. */
    method ReadString() returns (s: string)
      requires Valid()
      modifies this
      ensures Valid() && State() == TakeString(old(State())).rest
      ensures s == TakeString(old(State())).value
    {
      var _, len := ReadUnsigned(1);
      var _, buf := Read(len);
      s := CStr(Chars(buf));
    }
  }

  /** The output stream object. Errors of the medium are not modelled: a
      stream that starts good stays good. */
  class OStream {
    const host: Endian.Host
    var out: seq<byte>
    var good: bool

    constructor (host: Endian.Host)
      ensures out == [] && good && this.host == host
    {
      this.host := host;
      out := [];
      good := true;
    }

    /** `Write(buffer, num_bytes)`. */
    method Write(bs: seq<byte>) returns (ok: bool)
      modifies this
      ensures out == old(out) + (if old(good) then bs else []) && good == old(good)
      ensures ok == good
    {
      if !good {
        return false;
      }
      if |bs| != 0 {
        out := out + bs;
      }
      return true;
    }

    /** `Write<T>` for an unsigned k-byte T: converted to little-endian order
        and stored from host memory. */
    method WriteUnsigned(v: nat, k: nat) returns (ok: bool)
      requires (k == 1 || k == 2 || k == 4) && v < Pow256(k)
      modifies this
      ensures out == old(out) + (if old(good) then PutUnsigned(v, k) else []) && good == old(good)
      ensures ok == good
    {
      var temp := Endian.ConvertHostToLEndian(host, v, k);
      Endian.StoreIsHostIndependent(host, v, k);
      ok := Write(Endian.MemoryImage(host, temp, k));
    }

    /** `Write<T>` for a signed k-byte T. */
    method WriteSigned(v: int, k: nat) returns (ok: bool)
      requires (k == 1 || k == 2 || k == 4) && InSignedRange(v, k)
      modifies this
      ensures out == old(out) + (if old(good) then LeBytes(v, k) else []) && good == old(good)
      ensures ok == good
    {
      var temp := Endian.ConvertHostToLEndianSigned(host, v, k);
      Endian.StoreSignedIsHostIndependent(host, v, k);
      ok := Write(Endian.MemoryImageSigned(host, temp, k));
    }

    /** `Write<float>`: the bit pattern, converted with the byte swap of
        `Endian.SwapFloat`. */
    method WriteFloat(f: Float32.Bits) returns (ok: bool)
      modifies this
      ensures out == old(out) + (if old(good) then PutUnsigned(f, 4) else []) && good == old(good)
      ensures ok == good
    {
      assert Pow256(4) == 0x1_0000_0000;
      var temp := Endian.ConvertFloatLEndianToHost(host, f);
      assert temp == Endian.ConvertHostToLEndian(host, f, 4);
      Endian.StoreIsHostIndependent(host, f, 4);
      ok := Write(Endian.MemoryImage(host, temp, 4));
    }

    /** `Write(bool)`: 1 or 0 in one byte. */
    method WriteBool(b: bool) returns (ok: bool)
      modifies this
      ensures out == old(out) + (if old(good) then PutBool(b) else []) && good == old(good)
      ensures ok == good
    {
      var translate := if b then 1 else 0;
      ok := WriteUnsigned(translate, 1);
      assert LeBytes(translate, 1) == PutBool(b);
    }

    /** `WriteString` with the default limit of 255 characters. */
    method WriteString(s: string)
      modifies this
      ensures out == old(out) + (if old(good) then PutString(s) else []) && good == old(good)
    {
      var str := CStr(s);
      var len := |str|;
      if len > 0xFF {
        len := 0xFF;
      }
      var _ := WriteUnsigned(len, 1);
      assert LeBytes(len, 1) == [len];
      if len != 0 {
        var _ := Write(BytesOf(str[..len]));
      }
    }
  }
}
