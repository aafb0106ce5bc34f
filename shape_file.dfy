/**
 * The shape file as `TSShape::WriteToStream` writes it: the version word,
 * the three packed buffers behind their sizes, the sequences and the
 * material list; and what the loader reads back from those bytes.
 */
module ShapeFile {
  import opened Bytes
  import opened ShapeAlloc
  import Stream
  import ShapeLoad
  import Sequences
  import MaterialLists
  import ShapeWrite
  import Shape
  import Normals

  // ---------------------------------------------------------------------
  // The packed buffer in the file
  // ---------------------------------------------------------------------

  /** The 16-bit buffer's size in 32-bit words: an odd element count is
      rounded up to the next whole word. */
  function Words16(n: nat): (r: nat)
    ensures 2 * r >= n && 2 * r < n + 2
  {
    (if n % 2 == 1 then n + 2 else n) / 2
  }

  /** The 8-bit buffer's size in 32-bit words, rounded up. */
  function Words8(n: nat): (r: nat)
    ensures 4 * r >= n && 4 * r < n + 4
  {
    (if n % 4 != 0 then n + 4 else n) / 4
  }

  /** The sizes in words: the whole buffer, and where the 16-bit and 8-bit
      parts start. */
  function Total(b: PerWidth<seq<int>>): nat
  {
    |b.w32| + Words16(|b.w16|) + Words8(|b.w8|)
  }

  function Start16(b: PerWidth<seq<int>>): nat
  {
    |b.w32|
  }

  function Start8(b: PerWidth<seq<int>>): nat
  {
    |b.w32| + Words16(|b.w16|)
  }

  /** Every size the writer keeps in an `int32_t`, the byte counts of the
      buffers included, fits. */
  predicate Small(b: PerWidth<seq<int>>)
  {
    4 * Total(b) < 0x8000_0000
  }

  /** The bytes of `words` 32-bit words written from a buffer of width w
      holding vs: its little-endian image, then the bytes past its end
      (zeros in this model). */
  function Region(vs: seq<int>, w: Width, words: nat): (bs: seq<byte>)
    requires w.Size() * |vs| <= 4 * words
    ensures |bs| == 4 * words
  {
    Encode(vs, w) + Stream.Zeros(4 * words - w.Size() * |vs|)
  }

  /** The three buffers as the file holds them. */
  function Image(b: PerWidth<seq<int>>): (bs: seq<byte>)
    ensures |bs| == 4 * Total(b)
  {
    Region(b.w32, W32, |b.w32|) + Region(b.w16, W16, Words16(|b.w16|)) + Region(b.w8, W8, Words8(|b.w8|))
  }

  /** The sizes in front of the image: the whole size, the start of the
      16-bit part and the start of the 8-bit part, in words. */
  function PackedHeader(b: PerWidth<seq<int>>): (bs: seq<byte>)
    ensures |bs| == 12
  {
    LeBytes(Total(b), 4) + LeBytes(Start16(b), 4) + LeBytes(Start8(b), 4)
  }

  /** What the loader takes the buffer to be. */
  function PackedOf(b: PerWidth<seq<int>>): ShapeLoad.Packed
  {
    ShapeLoad.Packed(Image(b), 4 * Start16(b), 4 * Start8(b))
  }

  /** An unsigned 32-bit word written in front of rest reads back. */
  lemma WordNext(r: Stream.Reader, v: nat, rest: seq<byte>)
    requires v < 0x1_0000_0000 && r.Valid() && Stream.At(r, LeBytes(v, 4) + rest)
    ensures Stream.TakeUnsigned(r, 4) == Stream.Got(Stream.Skip(r, 4), v)
    ensures Stream.At(Stream.Skip(r, 4), rest)
  {
    Int32Range();
    Stream.AtConcat(r, LeBytes(v, 4), rest);
    Stream.TakeUnsignedPut(r, v, 4);
  }

  lemma Assoc(a: seq<byte>, b: seq<byte>, c: seq<byte>)
    ensures a + b + c == a + (b + c)
  {
  }

  lemma Regroup3(a: seq<byte>, b: seq<byte>, c: seq<byte>, d: seq<byte>)
    ensures a + b + c + d == a + (b + (c + d))
  {
  }

  /** The loader reads back the sizes and the image the writer wrote. */
  lemma PackedReadBack(r: Stream.Reader, b: PerWidth<seq<int>>, rest: seq<byte>)
    requires Small(b) && r.Valid() && Stream.At(r, PackedHeader(b) + (Image(b) + rest))
    ensures ShapeLoad.TakePacked(r) == Stream.Got(Stream.Skip(r, 12 + 4 * Total(b)), PackedOf(b))
    ensures Stream.At(Stream.Skip(r, 12 + 4 * Total(b)), rest)
  {
    var t, s16, s8 := LeBytes(Total(b), 4), LeBytes(Start16(b), 4), LeBytes(Start8(b), 4);
    Regroup3(t, s16, s8, Image(b) + rest);
    WordNext(r, Total(b), s16 + (s8 + (Image(b) + rest)));
    var r1 := Stream.Skip(r, 4);
    WordNext(r1, Start16(b), s8 + (Image(b) + rest));
    var r2 := Stream.Skip(r1, 4);
    WordNext(r2, Start8(b), Image(b) + rest);
    var r3 := Stream.Skip(r2, 4);
    Stream.AtConcat(r3, Image(b), rest);
    assert Stream.Skip(r3, 4 * Total(b)) == Stream.Skip(r, 12 + 4 * Total(b));
    assert Stream.Take(r3, 4 * Total(b)) == Stream.Got(Stream.Skip(r3, 4 * Total(b)), Image(b)) by {
      Stream.TakeAt(r3, Image(b));
    }
  }

  /** Where the part of width w starts in the image, in bytes: where the
      loader's cursor for that width starts. */
  function ByteStart(b: PerWidth<seq<int>>, w: Width): nat
  {
    match w
    case W32 => 0
    case W16 => 4 * Start16(b)
    case W8 => 4 * Start8(b)
  }

  /** Element j of values encoded between pre and post loads back from
      where its bytes start, when it fits its width. */
  lemma LoadInside(pre: seq<byte>, vs: seq<int>, w: Width, post: seq<byte>, j: nat)
    requires j < |vs| && InSignedRange(vs[j], w.Size())
    ensures Load(pre + Encode(vs, w) + post, |pre| + j * w.Size(), w) == vs[j]
  {
    var k := w.Size();
    var e := Encode(vs, w);
    assert j * k + k <= |e| by {
      assert (j + 1) * k <= |vs| * k;
    }
    assert Slice(pre + e + post, |pre| + j * k, k) == e[j * k .. j * k + k];
    EncodeAt(vs, w, j);
    SignedLeBytes(vs[j], k);
  }

  /** The same inside a region, padding and all, of an image img. */
  lemma RegionLoad(img: seq<byte>, pre: seq<byte>, vs: seq<int>, w: Width, words: nat, post: seq<byte>, j: nat)
    requires w.Size() * |vs| <= 4 * words && img == pre + Region(vs, w, words) + post
    requires j < |vs| && InSignedRange(vs[j], w.Size())
    ensures Load(img, |pre| + j * w.Size(), w) == vs[j]
  {
    var e, z := Encode(vs, w), Stream.Zeros(4 * words - w.Size() * |vs|);
    assert img == pre + e + (z + post);
    LoadInside(pre, vs, w, z + post, j);
  }

  /** Element j of the buffer of width w is where the loader's cursor for
      w reaches it, and loads back as written when it fits its width. */
  lemma ImageLoad(b: PerWidth<seq<int>>, w: Width, j: nat)
    requires j < |b.At(w)| && InSignedRange(b.At(w)[j], w.Size())
    ensures Load(Image(b), ByteStart(b, w) + j * w.Size(), w) == b.At(w)[j]
  {
    match w {
      case W32 => ImageLoad32(b, j);
      case W16 => ImageLoad16(b, j);
      case W8 => ImageLoad8(b, j);
    }
  }

  lemma ImageLoad32(b: PerWidth<seq<int>>, j: nat)
    requires j < |b.w32| && InSignedRange(b.w32[j], 4)
    ensures Load(Image(b), j * 4, W32) == b.w32[j]
  {
    var r32, r16, r8 := Region(b.w32, W32, |b.w32|), Region(b.w16, W16, Words16(|b.w16|)), Region(b.w8, W8, Words8(|b.w8|));
    FramedByEmpty(r32, r16, r8);
    RegionLoad(Image(b), [], b.w32, W32, |b.w32|, r16 + r8, j);
  }

  lemma ImageLoad16(b: PerWidth<seq<int>>, j: nat)
    requires j < |b.w16| && InSignedRange(b.w16[j], 2)
    ensures Load(Image(b), 4 * Start16(b) + j * 2, W16) == b.w16[j]
  {
    var r32, r16, r8 := Region(b.w32, W32, |b.w32|), Region(b.w16, W16, Words16(|b.w16|)), Region(b.w8, W8, Words8(|b.w8|));
    RegionLoad(Image(b), r32, b.w16, W16, Words16(|b.w16|), r8, j);
  }

  lemma ImageLoad8(b: PerWidth<seq<int>>, j: nat)
    requires j < |b.w8| && InSignedRange(b.w8[j], 1)
    ensures Load(Image(b), 4 * Start8(b) + j, W8) == b.w8[j]
  {
    var r32, r16, r8 := Region(b.w32, W32, |b.w32|), Region(b.w16, W16, Words16(|b.w16|)), Region(b.w8, W8, Words8(|b.w8|));
    FramedByEmpty(r32, r16, r8);
    RegionLoad(Image(b), r32 + r16, b.w8, W8, Words8(|b.w8|), [], j);
  }

  /** The padding words the writer sends past the end of a 16-bit or 8-bit
      buffer lie inside its allocation, whose size is a whole number of
      pages. */
  lemma PaddingInside(n: nat, capacity: nat)
    requires n <= capacity && capacity % PageSize == 0
    ensures 2 * Words16(n) <= capacity && 4 * Words8(n) <= capacity
  {
    var q := capacity / PageSize;
    assert capacity == 4 * (256 * q);
  }

  // ---------------------------------------------------------------------
  // Sequences and material list
  // ---------------------------------------------------------------------

  /** Every sequence can be written. */
  predicate SequencesFit(sqs: seq<Sequences.Sequence>)
  {
    forall i :: 0 <= i < |sqs| ==> sqs[i].Fits()
  }

  /** Byte strings one after another. */
  function Concat(parts: seq<seq<byte>>): seq<byte>
  {
    if |parts| == 0 then [] else parts[0] + Concat(parts[1..])
  }

  /** One more part adds its bytes at the end. */
  lemma {:induction false} ConcatSnoc(parts: seq<seq<byte>>, x: seq<byte>)
    ensures Concat(parts + [x]) == Concat(parts) + x
    decreases |parts|
  {
    if |parts| == 0 {
      assert parts + [x] == [x];
      assert [x][1..] == [];
    } else {
      assert (parts + [x])[1..] == parts[1..] + [x];
      ConcatSnoc(parts[1..], x);
    }
  }

  /** Each sequence's bytes, with its name index. */
  function Puts(sqs: seq<Sequences.Sequence>): (ps: seq<seq<byte>>)
    requires SequencesFit(sqs)
    ensures |ps| == |sqs| && forall i :: 0 <= i < |sqs| ==> ps[i] == Sequences.PutSequence(sqs[i], true)
  {
    seq(|sqs|, i requires 0 <= i < |sqs| => Sequences.PutSequence(sqs[i], true))
  }

  /** The sequences one after another, each with its name index. */
  function PutSequences(sqs: seq<Sequences.Sequence>): seq<byte>
    requires SequencesFit(sqs)
  {
    Concat(Puts(sqs))
  }

  /** The suffix from i is its first element and the suffix from i + 1. */
  lemma SuffixStep<T>(s: seq<T>, i: nat)
    requires i < |s|
    ensures s[i..] == [s[i]] + s[i + 1..] && s[i..][1..] == s[i + 1..]
  {
  }

  /** The loader reads back sequences i onwards as written, whatever
      sequences the shape held before. */
  lemma {:induction false} SequencesReadBack(r: Stream.Reader, prior: seq<Sequences.Sequence>, sqs: seq<Sequences.Sequence>,
                                             i: nat, rest: seq<byte>)
    requires SequencesFit(sqs) && i <= |sqs|
    requires r.Valid() && Stream.At(r, Concat(Puts(sqs)[i..]) + rest)
    ensures ShapeLoad.TakeSequences(r, prior, i, |sqs|, ShapeLoad.ShapeVersion)
      == Stream.Got(Stream.Skip(r, |Concat(Puts(sqs)[i..])|), sqs[i..])
    ensures Stream.At(Stream.Skip(r, |Concat(Puts(sqs)[i..])|), rest)
    decreases |sqs| - i
  {
    var ps := Puts(sqs);
    if i == |sqs| {
      assert ps[i..] == [] && sqs[i..] == [];
      assert Concat(ps[i..]) == [];
      assert Concat(ps[i..]) + rest == rest;
      assert Stream.Skip(r, 0) == r;
      assert ShapeLoad.TakeSequences(r, prior, i, |sqs|, ShapeLoad.ShapeVersion) == Stream.Got(r, []);
    } else {
      var one := ps[i];
      var more := Concat(ps[i + 1..]);
      SuffixStep(ps, i);
      SuffixStep(sqs, i);
      assert Concat(ps[i..]) == one + more;
      Assoc(one, more, rest);
      Stream.AtConcat(r, one, more + rest);
      var r1 := Stream.Skip(r, |one|);
      var g1 := Sequences.TakeSequence(r, ShapeLoad.StartOf(prior, i), ShapeLoad.ShapeVersion, true);
      assert g1 == Stream.Got(r1, sqs[i]) by {
        Sequences.LoadWritten(r, sqs[i], ShapeLoad.StartOf(prior, i), ShapeLoad.ShapeVersion, true);
      }
      var g2 := ShapeLoad.TakeSequences(r1, prior, i + 1, |sqs|, ShapeLoad.ShapeVersion);
      assert g2 == Stream.Got(Stream.Skip(r1, |more|), sqs[i + 1..]) && Stream.At(Stream.Skip(r1, |more|), rest) by {
        SequencesReadBack(r1, prior, sqs, i + 1, rest);
      }
      ShapeLoad.SequencesStep(r, prior, i, |sqs|, ShapeLoad.ShapeVersion);
      assert Stream.Skip(r1, |more|) == Stream.Skip(r, |Concat(ps[i..])|);
    }
  }

  /** What `WriteToStream` writes after the version word: the packed
      buffer, the sequence count as a 32-bit integer, the sequences and the
      material list. */
  function Body(b: PerWidth<seq<int>>, sqs: seq<Sequences.Sequence>, names: seq<string>, attrs: MaterialLists.Attributes)
    : seq<byte>
    requires SequencesFit(sqs) && |sqs| < 0x8000_0000 && |names| < 0x1_0000_0000
  {
    PackedHeader(b) + (Image(b) + (LeBytes(|sqs|, 4) + (PutSequences(sqs) + MaterialList(names, attrs))))
  }

  function MaterialList(names: seq<string>, attrs: MaterialLists.Attributes): seq<byte>
    requires |names| < 0x1_0000_0000
  {
    MaterialLists.PutNameList(names) + MaterialLists.PutAttributes(attrs)
  }

  /** The loader reads back everything the writer wrote after the version
      word: the packed buffer, the sequences (whatever the shape held
      before) and the material list's names and attributes, and stops at the
      end of it. */
  lemma BodyReadBack(r: Stream.Reader, b: PerWidth<seq<int>>, sqs: seq<Sequences.Sequence>, prior: seq<Sequences.Sequence>,
                     names: seq<string>, attrs: MaterialLists.Attributes)
    requires Small(b) && SequencesFit(sqs) && |sqs| < 0x8000_0000
    requires |names| < 0x1_0000_0000 && (forall i :: 0 <= i < |names| ==> MaterialLists.PlainName(names[i]))
    requires attrs.Sized(|names|)
    requires r.Valid() && Stream.At(r, Body(b, sqs, names, attrs))
    ensures ShapeLoad.PartsRead(r, prior, ShapeLoad.ShapeVersion, PackedOf(b), true, sqs, names, attrs,
                                Stream.Skip(r, |Body(b, sqs, names, attrs)|))
  {
    Int32Range();
    var list := MaterialList(names, attrs);
    var puts := PutSequences(sqs);
    PackedReadBack(r, b, LeBytes(|sqs|, 4) + (puts + list));
    var r1 := Stream.Skip(r, 12 + 4 * Total(b));
    Sequences.IntNext(r1, |sqs|, puts + list);
    var r2 := Stream.Skip(r1, 4);
    assert Puts(sqs)[0..] == Puts(sqs);
    SequencesReadBack(r2, prior, sqs, 0, list);
    var r3 := Stream.Skip(r2, |puts|);
    MaterialLists.ListWritten(r3, names, attrs, ShapeLoad.ShapeVersion);
    assert Stream.Skip(r3, |list|) == Stream.Skip(r, |Body(b, sqs, names, attrs)|);
  }

  /** `stream.Write(sequences_.size())` as written: the count is a
      `size_t`, eight bytes on a 64-bit host, while the loader reads four. */
  function BodyAsWritten(b: PerWidth<seq<int>>, sqs: seq<Sequences.Sequence>, names: seq<string>, attrs: MaterialLists.Attributes)
    : seq<byte>
    requires SequencesFit(sqs) && |sqs| < 0x8000_0000 && |names| < 0x1_0000_0000
  {
    PackedHeader(b) + (Image(b) + (LeBytes(|sqs|, 8) + (PutSequences(sqs) + MaterialList(names, attrs))))
  }

  /** The zero bytes of 0 split anywhere. */
  lemma {:induction false} ZeroBytesSplit(a: nat, b: nat)
    ensures LeBytes(0, a + b) == LeBytes(0, a) + LeBytes(0, b)
    decreases a
  {
    if a > 0 {
      ZeroBytesSplit(a - 1, b);
      assert LeBytes(0, a + b) == [0] + LeBytes(0, a - 1 + b);
    }
  }

  /** On a 64-bit host, a shape without sequences is not read back: the
      loader takes the count's high half for the start of the material
      list, so the list's format byte is 0 and its names are lost. */
  lemma SequenceCountMisread(r: Stream.Reader, b: PerWidth<seq<int>>, prior: seq<Sequences.Sequence>,
                             names: seq<string>, attrs: MaterialLists.Attributes, after: Stream.Reader)
    requires Small(b) && 0 < |names| < 0x1_0000_0000
    requires r.Valid() && Stream.At(r, BodyAsWritten(b, [], names, attrs))
    ensures !ShapeLoad.PartsRead(r, prior, ShapeLoad.ShapeVersion, PackedOf(b), true, [], names, attrs, after)
  {
    Int32Range();
    var list := MaterialList(names, attrs);
    var z4, z3, z1 := LeBytes(0, 4), LeBytes(0, 3), LeBytes(0, 1);
    assert PutSequences([]) + list == list;
    ZeroBytesSplit(4, 4);
    Assoc(z4, z4, list);
    assert LeBytes(0, 8) + (PutSequences([]) + list) == z4 + (z4 + list);
    assert BodyAsWritten(b, [], names, attrs) == PackedHeader(b) + (Image(b) + (z4 + (z4 + list)));
    PackedReadBack(r, b, z4 + (z4 + list));
    var r1 := Stream.Skip(r, 12 + 4 * Total(b));
    Sequences.IntNext(r1, 0, z4 + list);
    var r2 := Stream.Skip(r1, 4);
    assert ShapeLoad.TakeSequences(r2, prior, 0, 0, ShapeLoad.ShapeVersion).rest == r2;
    assert Stream.TakeUnsigned(r2, 1).value == 0 by {
      ZeroBytesSplit(1, 3);
      Assoc(z1, z3, list);
      Stream.AtConcat(r2, z1, z3 + list);
      Stream.TakeUnsignedPut(r2, 0, 1);
    }
  }

  // ---------------------------------------------------------------------
  // WriteToStream
  // ---------------------------------------------------------------------

  /** The empty buffers and counters `SetWrite` leaves. */
  const Fresh: ShapeWrite.Out := ShapeWrite.Out(PerWidth([], [], []), PerWidth(0, 0, 0))

  /** The whole file: the version word, then the body. */
  function FileBytes(b: PerWidth<seq<int>>, sqs: seq<Sequences.Sequence>, names: seq<string>, attrs: MaterialLists.Attributes)
    : seq<byte>
    requires SequencesFit(sqs) && |sqs| < 0x8000_0000 && |names| < 0x1_0000_0000
  {
    LeBytes(ShapeLoad.VersionWord(ShapeLoad.ShapeVersion, ShapeLoad.ExporterVersion), 4) + Body(b, sqs, names, attrs)
  }

  /** A write on a stream that is good exactly when good holds. */
  lemma Wrote(o0: seq<byte>, before: seq<byte>, after: seq<byte>, parts: seq<seq<byte>>, x: seq<byte>, good: bool)
    requires before == o0 + (if good then Concat(parts) else [])
    requires after == before + (if good then x else [])
    ensures after == o0 + (if good then Concat(parts + [x]) else [])
  {
    ConcatSnoc(parts, x);
  }

  /** The parts of a file in writing order, regrouped as the file. */
  lemma FileParts(v: seq<byte>, h: seq<byte>, r32: seq<byte>, r16: seq<byte>, r8: seq<byte>, c: seq<byte>,
                  s: seq<byte>, l: seq<byte>)
    ensures Concat([v, h, r32, r16, r8, c, s, l]) == v + (h + ((r32 + r16 + r8) + (c + (s + l))))
  {
    var ps: seq<seq<byte>> := [v, h, r32, r16, r8, c, s, l];
    assert Concat(ps[7..]) == l by { assert |ps[7..][1..]| == 0; }
    assert Concat(ps[6..]) == s + l by { assert ps[6..][1..] == ps[7..]; }
    assert Concat(ps[5..]) == c + (s + l) by { assert ps[5..][1..] == ps[6..]; }
    assert Concat(ps[4..]) == r8 + (c + (s + l)) by { assert ps[4..][1..] == ps[5..]; }
    assert Concat(ps[3..]) == r16 + (r8 + (c + (s + l))) by { assert ps[3..][1..] == ps[4..]; }
    assert Concat(ps[2..]) == r32 + (r16 + (r8 + (c + (s + l)))) by { assert ps[2..][1..] == ps[3..]; }
    assert Concat(ps[1..]) == h + (r32 + (r16 + (r8 + (c + (s + l))))) by { assert ps[1..][1..] == ps[2..]; }
    assert ps[0..] == ps;
  }

  /** The sizes of the three buffers in words (odd 16-bit and 8-bit sizes
      rounded up), where the 16-bit and 8-bit parts start, then the three
      buffers, each written to its last whole word. */
  method WritePacked(output: Stream.OStream, b: PerWidth<seq<int>>)
    requires Small(b)
    modifies output
    ensures output.good == old(output.good)
    ensures output.out == old(output.out) + (if old(output.good) then PackedHeader(b) + Image(b) else [])
  {
    ghost var o0, good := output.out, output.good;
    var size32, size16, size8 := WriteSizes(output, b);
    ghost var o1 := output.out;
    WriteRegion(output, b.w32, W32, size32);
    ghost var o2 := output.out;
    WriteRegion(output, b.w16, W16, size16);
    ghost var o3 := output.out;
    WriteRegion(output, b.w8, W8, size8);
    if good {
      ImageWritten(b, o1, o2, o3, output.out);
      Assoc(o0, PackedHeader(b), Image(b));
    }
  }

  /** The buffer sizes in words, as computed and as written. */
  method WriteSizes(output: Stream.OStream, b: PerWidth<seq<int>>) returns (size32: nat, size16: nat, size8: nat)
    requires Small(b)
    modifies output
    ensures size32 == |b.w32| && size16 == Words16(|b.w16|) && size8 == Words8(|b.w8|)
    ensures output.good == old(output.good)
    ensures output.out == old(output.out) + (if old(output.good) then PackedHeader(b) else [])
  {
    Int32Range();
    size32, size16, size8 := WordCounts(b);
    var sizeMemBuffer := size32 + size16 + size8;
    var start16 := size32;
    var start8 := start16 + size16;
    ghost var o0 := output.out;
    var _ := output.WriteSigned(sizeMemBuffer, 4);
    ghost var o1 := output.out;
    var _ := output.WriteSigned(start16, 4);
    ghost var o2 := output.out;
    var _ := output.WriteSigned(start8, 4);
    if old(output.good) {
      HeaderWritten(b, o0, o1, o2, output.out);
    }
  }

  /** The element counts converted to words: an odd 16-bit count gains
      two, an 8-bit count not a multiple of four gains four, before the
      division. */
  method WordCounts(b: PerWidth<seq<int>>) returns (size32: nat, size16: nat, size8: nat)
    ensures size32 == |b.w32| && size16 == Words16(|b.w16|) && size8 == Words8(|b.w8|)
  {
    size32 := |b.w32|;
    size16 := |b.w16|;
    if size16 % 2 == 1 {
      size16 := size16 + 2;
    }
    size16 := size16 / 2;
    size8 := |b.w8|;
    if size8 % 4 != 0 {
      size8 := size8 + 4;
    }
    size8 := size8 / 4;
  }

  /** The three sizes written in turn are the header. */
  lemma HeaderWritten(b: PerWidth<seq<int>>, o0: seq<byte>, o1: seq<byte>, o2: seq<byte>, o3: seq<byte>)
    requires o1 == o0 + LeBytes(Total(b), 4)
    requires o2 == o1 + LeBytes(Start16(b), 4)
    requires o3 == o2 + LeBytes(Start8(b), 4)
    ensures o3 == o0 + PackedHeader(b)
  {
    Regroup3(o0, LeBytes(Total(b), 4), LeBytes(Start16(b), 4), LeBytes(Start8(b), 4));
  }

  /** One buffer, written up to its last whole word. */
  method WriteRegion(output: Stream.OStream, vs: seq<int>, w: Width, words: nat)
    requires w.Size() * |vs| <= 4 * words
    modifies output
    ensures output.good == old(output.good)
    ensures output.out == old(output.out) + (if old(output.good) then Region(vs, w, words) else [])
  {
    var _ := output.Write(Region(vs, w, words));
  }

  /** The three buffers written in turn are the image. */
  lemma ImageWritten(b: PerWidth<seq<int>>, o0: seq<byte>, o1: seq<byte>, o2: seq<byte>, o3: seq<byte>)
    requires o1 == o0 + Region(b.w32, W32, |b.w32|)
    requires o2 == o1 + Region(b.w16, W16, Words16(|b.w16|))
    requires o3 == o2 + Region(b.w8, W8, Words8(|b.w8|))
    ensures o3 == o0 + Image(b)
  {
  }

  /** The sequence count as a 32-bit integer, then each sequence with its
      name index. */
  method WriteSequences(output: Stream.OStream, sqs: seq<Sequences.Sequence>)
    requires SequencesFit(sqs) && |sqs| < 0x8000_0000
    modifies output
    ensures output.good == old(output.good)
    ensures output.out == old(output.out) + (if old(output.good) then LeBytes(|sqs|, 4) + PutSequences(sqs) else [])
  {
    Int32Range();
    ghost var o0, good := output.out, output.good;
    var _ := output.WriteSigned(|sqs|, 4);
    WriteEachSequence(output, sqs);
    if good {
      Assoc(o0, LeBytes(|sqs|, 4), PutSequences(sqs));
    }
  }

  /** The sequence loop: each sequence with its name index. */
  method WriteEachSequence(output: Stream.OStream, sqs: seq<Sequences.Sequence>)
    requires SequencesFit(sqs)
    modifies output
    ensures output.good == old(output.good)
    ensures output.out == old(output.out) + (if old(output.good) then PutSequences(sqs) else [])
  {
    ghost var o1, good := output.out, output.good;
    assert Puts(sqs)[..0] == [];
    for i := 0 to |sqs|
      invariant output.good == good
      invariant output.out == o1 + (if good then Concat(Puts(sqs)[..i]) else [])
    {
      WriteNth(output, sqs, i, o1, good);
    }
    assert Puts(sqs)[..|sqs|] == Puts(sqs);
  }

  /** One turn of the sequence loop: sequence i after those before it. */
  method WriteNth(output: Stream.OStream, sqs: seq<Sequences.Sequence>, i: nat, ghost o1: seq<byte>, ghost good: bool)
    requires SequencesFit(sqs) && i < |sqs|
    requires output.good == good && output.out == o1 + (if good then Concat(Puts(sqs)[..i]) else [])
    modifies output
    ensures output.good == good && output.out == o1 + (if good then Concat(Puts(sqs)[..i + 1]) else [])
  {
    ghost var ps := Puts(sqs);
    var _ := Sequences.WriteToStream(output, sqs[i], true);
    ConcatPrefixSnoc(ps, i);
    if good {
      Assoc(o1, Concat(ps[..i]), ps[i]);
    }
  }

  /** One more part of a prefix adds its bytes at the end. */
  lemma ConcatPrefixSnoc(ps: seq<seq<byte>>, i: nat)
    requires i < |ps|
    ensures Concat(ps[..i + 1]) == Concat(ps[..i]) + ps[i]
  {
    assert ps[..i + 1] == ps[..i] + [ps[i]];
    ConcatSnoc(ps[..i], ps[i]);
  }

  /** Everything after the version word, from the filled buffers b: their
      sizes and the buffers, the sequence count, the sequences and the
      material list. */
  method WriteBody(output: Stream.OStream, b: PerWidth<seq<int>>, sqs: seq<Sequences.Sequence>,
                   list: MaterialLists.TSMaterialList)
    requires Small(b) && SequencesFit(sqs) && |sqs| < 0x8000_0000
    requires |list.names| < 0x1_0000_0000 && list.Attrs().Sized(|list.names|)
    modifies output
    ensures output.good == old(output.good)
    ensures output.out == old(output.out) + (if old(output.good) then Body(b, sqs, list.names, list.Attrs()) else [])
  {
    ghost var o0, good := output.out, output.good;
    WritePacked(output, b);
    ghost var o1 := output.out;
    WriteSequences(output, sqs);
    ghost var o2 := output.out;
    var _ := list.WriteToStream(output);
    if good {
      BodyWritten(b, sqs, list.names, list.Attrs(), o0, o1, o2, output.out);
    }
  }

  /** The three parts of the body written in turn are the body. */
  lemma BodyWritten(b: PerWidth<seq<int>>, sqs: seq<Sequences.Sequence>, names: seq<string>, attrs: MaterialLists.Attributes,
                    o0: seq<byte>, o1: seq<byte>, o2: seq<byte>, o3: seq<byte>)
    requires Small(b) && SequencesFit(sqs) && |sqs| < 0x8000_0000 && |names| < 0x1_0000_0000
    requires o1 == o0 + (PackedHeader(b) + Image(b))
    requires o2 == o1 + (LeBytes(|sqs|, 4) + PutSequences(sqs))
    requires o3 == o2 + MaterialList(names, attrs)
    ensures o3 == o0 + Body(b, sqs, names, attrs)
  {
    var h, i, c, p, l := PackedHeader(b), Image(b), LeBytes(|sqs|, 4), PutSequences(sqs), MaterialList(names, attrs);
    assert Body(b, sqs, names, attrs) == h + (i + (c + (p + l)));
    Regroup5(o0, h, i, c, p, l);
  }

  lemma Regroup5(o: seq<byte>, h: seq<byte>, i: seq<byte>, c: seq<byte>, p: seq<byte>, l: seq<byte>)
    ensures o + (h + i) + (c + p) + l == o + (h + (i + (c + (p + l))))
  {
  }

  /** The state `SetWrite` leaves: empty buffers, no guard words yet. */
  predicate Cleared(o: ShapeWrite.Out)
  {
    o == Fresh
  }

  /** b is what `DisassembleShape` leaves for p in cleared buffers. */
  ghost predicate FilledFrom(b: PerWidth<seq<int>>, p: ShapeWrite.Parts, dot: (seq<int>, Normals.Normal) -> real)
  {
    forall o {:trigger ShapeWrite.Disassembled(p, o, dot)} :: Cleared(o) ==> b == ShapeWrite.Disassembled(p, o, dot).buffer
  }

  /** The buffers `DisassembleShape` computes from `Fresh` are filled from
      the shape's parts... */
  lemma FreshFilled(p: ShapeWrite.Parts, dot: (seq<int>, Normals.Normal) -> real)
    ensures FilledFrom(ShapeWrite.Disassembled(p, Fresh, dot).buffer, p, dot)
  {
  }

  /** ...and the only ones. */
  lemma FilledFromCleared(b: PerWidth<seq<int>>, p: ShapeWrite.Parts, dot: (seq<int>, Normals.Normal) -> real,
                          start: ShapeWrite.Out)
    requires Cleared(start) && FilledFrom(b, p, dot)
    ensures b == ShapeWrite.Disassembled(p, start, dot).buffer
  {
  }

  /** `TSShape::WriteToStream`, for the buffers b the shape disassembles
      into: the version word; the shape disassembled into cleared buffers;
      their sizes and the three buffers; the sequence count, the sequences
      and the material list. The result is whether the stream is good. */
  method WriteToStream(output: Stream.OStream, shape: Shape.TSShape, alloc: OTSShapeAlloc,
                       dot: (seq<int>, Normals.Normal) -> real, ghost b: PerWidth<seq<int>>) returns (ok: bool)
    requires alloc.Valid()
    requires ShapeWrite.Fits(ShapeWrite.PartsOf(shape)) && ShapeWrite.RangesInside(shape.objects, |shape.meshes|)
    requires FilledFrom(b, ShapeWrite.PartsOf(shape), dot) && Small(b)
    requires SequencesFit(shape.sequences) && |shape.sequences| < 0x8000_0000
    requires shape.materialList != null && |shape.materialList.names| < 0x1_0000_0000
    requires shape.materialList.Attrs().Sized(|shape.materialList.names|)
    modifies output, alloc
    ensures alloc.buffer == b
    ensures output.good == old(output.good) && ok == output.good
    ensures output.out == old(output.out) +
      (if old(output.good)
       then FileBytes(b, old(shape.sequences), old(shape.materialList.names), old(shape.materialList.Attrs()))
       else [])
  {
    ghost var o0, good, parts := output.out, output.good, ShapeWrite.PartsOf(shape);
    var sqs, list := shape.sequences, shape.materialList;
    var version := ShapeLoad.VersionWord(ShapeLoad.ShapeVersion, ShapeLoad.ExporterVersion);
    Int32Range();
    var _ := output.WriteSigned(version, 4);
    DisassembleFresh(alloc, shape, dot, parts, b);
    WriteBody(output, alloc.buffer, sqs, list);
    ok := output.good;
    if good {
      Assoc(o0, LeBytes(version, 4), Body(b, sqs, list.names, list.Attrs()));
    }
  }

  /** `SetWrite`, then `DisassembleShape`: the buffers b of the shape, whose
      parts are parts, from cleared buffers. */
  method DisassembleFresh(alloc: OTSShapeAlloc, shape: Shape.TSShape, dot: (seq<int>, Normals.Normal) -> real,
                          ghost parts: ShapeWrite.Parts, ghost b: PerWidth<seq<int>>)
    requires alloc.Valid() && parts == ShapeWrite.PartsOf(shape) && FilledFrom(b, parts, dot)
    requires ShapeWrite.Fits(parts) && ShapeWrite.RangesInside(shape.objects, |shape.meshes|)
    modifies alloc
    ensures alloc.buffer == b
  {
    alloc.SetWrite();
    ghost var start := ShapeWrite.Now(alloc);
    assert Cleared(start);
    ShapeWrite.DisassembleShape(alloc, shape, dot);
  }
}
