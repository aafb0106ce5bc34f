/**
 * PrimitiveRuns: reading back, in the copying pass, the primitives and
 * indices `TSMesh::Disassemble` writes: a count and one material word per
 * primitive, an index count, and in the 16-bit buffer two int16 values per
 * primitive and one per index.
 */
module PrimitiveRuns {
  import opened Bytes
  import opened ShapeAlloc
  import opened Mesh
  import opened ReadCursor
  import opened ReadSteps
  import Bitwise

  /** Every primitive's start and element count fit an int16 and its
      material word an int32, so the writer's truncation keeps them. */
  predicate PrimitivesFit(prims: seq<Primitive>)
  {
    forall i :: 0 <= i < |prims| ==>
      InSignedRange(prims[i].start, 2) && InSignedRange(prims[i].numElements, 2) && InSignedRange(prims[i].matIndex, 4)
  }

  /** Every index is an int16 sign-extended into a 32-bit word, so the
      writer's truncation and the reader's widening give it back. */
  predicate IndicesFit(indices: seq<Bitwise.Word>)
  {
    forall i :: 0 <= i < |indices| ==> indices[i] < 0x8000 || 0x1_0000_0000 - 0x8000 <= indices[i]
  }

  /** Entry i of the material words is primitive i's material. */
  lemma {:induction false} MatsAt(prims: seq<Primitive>, i: nat)
    requires i < |prims|
    ensures Mats(prims)[i] == prims[i].matIndex
  {
    if i < |prims| - 1 {
      MatsAt(prims[..|prims| - 1], i);
    }
  }

  /** Entries 2i and 2i + 1 of the halves are primitive i's start and
      element count, truncated. */
  lemma {:induction false} HalvesAt(prims: seq<Primitive>, i: nat)
    requires i < |prims|
    ensures Halves(prims)[2 * i] == Wrap(prims[i].start, 2) && Halves(prims)[2 * i + 1] == Wrap(prims[i].numElements, 2)
  {
    if i < |prims| - 1 {
      HalvesAt(prims[..|prims| - 1], i);
    }
  }

  /** Entry i of the shorts is index i, truncated. */
  lemma {:induction false} ShortsAt(indices: seq<Bitwise.Word>, i: nat)
    requires i < |indices|
    ensures Shorts(indices)[i] == Wrap(indices[i], 2)
  {
    if i < |indices| - 1 {
      ShortsAt(indices[..|indices| - 1], i);
    }
  }

  /** The halves are int16 values. */
  lemma {:induction false} HalvesFit(prims: seq<Primitive>)
    ensures AllFit(Halves(prims), W16)
  {
    if |prims| > 0 {
      var p := prims[|prims| - 1];
      HalvesFit(prims[..|prims| - 1]);
      WrapProperties(p.start, 2);
      WrapProperties(p.numElements, 2);
      FitsJoined(Halves(prims[..|prims| - 1]), [Wrap(p.start, 2)], W16);
      FitsJoined(Halves(prims[..|prims| - 1]) + [Wrap(p.start, 2)], [Wrap(p.numElements, 2)], W16);
    }
  }

  /** Primitives that fit come back from their halves and material words. */
  lemma PrimitivesRead(prims: seq<Primitive>)
    requires PrimitivesFit(prims)
    ensures AllFit(Halves(prims), W16) && AllFit(Mats(prims), W32)
    ensures PrimitivesOf(Halves(prims), Mats(prims), |prims|) == prims
  {
    var h, w := Halves(prims), Mats(prims);
    var r := PrimitivesOf(h, w, |prims|);
    forall i | 0 <= i < |prims| ensures r[i] == prims[i] && InSignedRange(w[i], 4) {
      HalvesAt(prims, i);
      MatsAt(prims, i);
      WrapProperties(prims[i].start, 2);
      WrapProperties(prims[i].numElements, 2);
    }
    HalvesFit(prims);
  }

  /** An index that is a sign-extended int16 survives truncation to int16
      and widening back. */
  lemma IndexRead(v: Bitwise.Word)
    requires v < 0x8000 || 0x1_0000_0000 - 0x8000 <= v
    ensures InSignedRange(Wrap(v, 2), 2) && Widen(Wrap(v, 2)) == v
  {
    assert Pow256(2) == 0x1_0000 && HalfRange(2) == 0x8000 by {
      assert Pow256(1) == 0x100 * Pow256(0);
      assert Pow256(2) == 0x100 * Pow256(1);
    }
    if v < 0x8000 {
      WrapProperties(v, 2);
    } else {
      var u := v - 0x1_0000_0000;
      WrapModular(u, 0x1_0000, 2);
      WrapProperties(u, 2);
    }
  }

  /** Indices that fit come back from their shorts. */
  lemma IndicesRead(indices: seq<Bitwise.Word>)
    requires IndicesFit(indices)
    ensures AllFit(Shorts(indices), W16) && IndicesOf(Shorts(indices)) == indices
  {
    var h := Shorts(indices);
    forall i | 0 <= i < |indices| ensures InSignedRange(h[i], 2) && Widen(h[i]) == indices[i] {
      ShortsAt(indices, i);
      IndexRead(indices[i]);
    }
  }

  /** The state after `ReadPrimitives` read n primitives and m indices:
      the 32-bit cursor past the two counts and the material words, the
      16-bit cursor past the halves and the indices. */
  function PrimitivesAfter(s: ReadState, n: int, m: int): ReadState
  {
    s.(c := s.c.(pos := PerWidth(s.c.pos.w32 + 8 + n * 4, s.c.pos.w16 + n * 4 + m * 2, s.c.pos.w8)))
  }

  /** `ReadPrimitives` when the counts read are n and m: the halves, the
      material words and the indices are the bytes behind the cursors. */
  lemma PrimitivesSteps(s: ReadState, n: int, m: int)
    requires Load(s.input, s.c.pos.w32, W32) == n && Load(s.input, s.c.pos.w32 + 4 + n * 4, W32) == m
    ensures ReadPrimitives(s) ==
      Read((PrimitivesOf(Decode(Slice(s.input, s.c.pos.w16, Count(n) * 2 * 2), W16), Decode(Slice(s.input, s.c.pos.w32 + 4, Count(n) * 4), W32), Count(n)),
            IndicesOf(Decode(Slice(s.input, s.c.pos.w16 + n * 2 * 2, Count(m) * 2), W16))),
           true, PrimitivesAfter(s, n, m))
  {
    var p := s.c.pos;
    var s1 := s.Get(W32).1;
    assert s1.c.pos == PerWidth(p.w32 + 4, p.w16, p.w8) && s.Get(W32).0 == n;
    var s2 := s1.GetPointer(W16, n * 2).1;
    assert s2.c.pos == PerWidth(p.w32 + 4, p.w16 + n * 2 * 2, p.w8);
    var s3 := s2.GetPointer(W32, n).1;
    assert s3.c.pos == PerWidth(p.w32 + 4 + n * 4, p.w16 + n * 2 * 2, p.w8);
    var s4 := s3.Get(W32).1;
    assert s4.c.pos == PerWidth(p.w32 + 8 + n * 4, p.w16 + n * 2 * 2, p.w8) && s3.Get(W32).0 == m;
    var s5 := s4.GetPointer(W16, m).1;
    assert s5 == PrimitivesAfter(s, n, m);
  }

  /** The primitive words: the count, the material words, the index count,
      then the rest. */
  lemma PrimitiveWords(input: seq<byte>, p: int, np: nat, ni: int, mats: seq<int>, x32: seq<int>)
    requires |mats| == np && EntriesAt(input, p, [np] + (mats + ([ni] + x32)))
    ensures Load(input, p, W32) == np && Load(input, p + 4 + np * 4, W32) == ni
    ensures Decode(Slice(input, p + 4, Count(np) * 4), W32) == mats
    ensures EntriesAt(input, p + 8 + np * 4, x32)
  {
    var q := p + 4 + np * 4;
    assert EntriesAt(input, q, [ni] + x32) by {
      CountedWords(input, p, np, mats, [ni] + x32);
    }
    Leading(input, q, ni, x32);
    CountedWords(input, p, np, mats, [ni] + x32);
  }

  /** A count n, the n words after it, then the rest. */
  lemma CountedWords(input: seq<byte>, p: int, n: int, ws: seq<int>, rest: seq<int>)
    requires |ws| == Count(n) && EntriesAt(input, p, [n] + (ws + rest))
    ensures Load(input, p, W32) == n && Decode(Slice(input, p + 4, Count(n) * 4), W32) == ws
    ensures EntriesAt(input, p + 4 + Count(n) * 4, rest)
  {
    Leading(input, p, n, ws + rest);
    Split32(input, p + 4, ws, rest);
    assert Count(n) * 4 == 4 * |ws| == |ws| * 4;
    DecodeEncode(ws, W32);
  }

  /** The 16-bit entries: two halves per primitive, one short per index,
      then the rest. */
  lemma PrimitiveHalves(s: ReadState, np: nat, ni: nat, halves: seq<int>, shorts: seq<int>, x16: seq<int>)
    requires |halves| == 2 * np && |shorts| == ni && Entries16(s, halves + (shorts + x16))
    ensures var p := s.c.pos.w16;
      Decode(Slice(s.input, p, Count(np) * 2 * 2), W16) == halves &&
      Decode(Slice(s.input, p + np * 2 * 2, Count(ni) * 2), W16) == shorts &&
      Slice(s.input, p + np * 4 + ni * 2, 2 * |x16|) == Encode(x16, W16) && AllFit(x16, W16)
  {
    var p := s.c.pos.w16;
    var q := p + np * 2 * 2;
    assert Decode(Slice(s.input, p, Count(np) * 2 * 2), W16) == halves &&
           Slice(s.input, q, 2 * |shorts + x16|) == Encode(shorts + x16, W16) && AllFit(shorts + x16, W16) by {
      SplitAt(s.input, p, halves, shorts + x16, W16);
      assert Count(np) * 2 * 2 == 2 * |halves| && q == p + 2 * |halves|;
      DecodeEncode(halves, W16);
    }
    SplitAt(s.input, q, shorts, x16, W16);
    assert Count(ni) * 2 == 2 * |shorts| && q + 2 * |shorts| == p + np * 4 + ni * 2;
    DecodeEncode(shorts, W16);
  }

  /** In the copying pass, the primitive and index counts, the material
      words and the 16-bit halves and indices read back as the primitives
      and indices, when they fit; the reader is then ready for what
      follows, with the same room. */
  lemma PrimitivesBack(s: ReadState, prims: seq<Primitive>, indices: seq<Bitwise.Word>, np: nat, ni: nat,
                       x32: seq<int>, x16: seq<int>, e8: seq<int>, g: PerWidth<int>, room: int)
    requires np == |prims| && ni == |indices| && PrimitivesFit(prims) && IndicesFit(indices)
    requires Ready(s, PerWidth([np] + (Mats(prims) + ([ni] + x32)), Halves(prims) + (Shorts(indices) + x16), e8), g, room)
    ensures ReadPrimitives(s).value == (prims, indices)
    ensures Ready(ReadPrimitives(s).state, PerWidth(x32, x16, e8), g, room)
  {
    PrimitiveWords(s.input, s.c.pos.w32, np, ni, Mats(prims), x32);
    PrimitiveHalves(s, np, ni, Halves(prims), Shorts(indices), x16);
    PrimitivesSteps(s, np, ni);
    PrimitivesRead(prims);
    IndicesRead(indices);
    assert Count(np) == |prims|;
    ReadyAfterPrimitives(s, np, ni, x32, x16, e8, g, room);
  }

  /** The reader after the primitives is ready for the rest. */
  lemma ReadyAfterPrimitives(s: ReadState, np: int, ni: int, x32: seq<int>, x16: seq<int>, e8: seq<int>, g: PerWidth<int>, room: int)
    requires EntriesAt(s.input, s.c.pos.w32 + 8 + np * 4, x32)
    requires Slice(s.input, s.c.pos.w16 + np * 4 + ni * 2, 2 * |x16|) == Encode(x16, W16) && AllFit(x16, W16)
    requires Entries8(s, e8) && s.c.guard == g && Copying(CursorOf(s), room)
    ensures Ready(PrimitivesAfter(s, np, ni), PerWidth(x32, x16, e8), g, room)
  {
  }
}
