/**
 * Decal: `TSDecalMesh`, a deprecated mesh kind kept so that old files load.
 * It carries its own primitives (three words each), 16-bit indices, the
 * first primitive of each decal frame, two texture-generation planes per
 * frame (four words each) and one material index. Nothing of it is copied
 * into the shape block: its arrays are views of the packed buffer, or of the
 * shape block where nothing was copied.
 */
module Decal {
  import opened Bytes
  import opened ShapeAlloc
  import opened Mesh
  import Vector
  import SortedMesh

  datatype DecalMesh = DecalMesh(
    primitives: seq<Primitive>, indices: seq<int>, startPrimitive: seq<int>,
    texgenS: seq<int>, texgenT: seq<int>, materialIndex: int)

  /** Words per `TSDrawPrimitive` (start, element count, material word). */
  const PrimitiveWords: nat := 3

  /** Words per `Point4F`. */
  const PlaneWords: nat := 4

  /** Current versions store decals on their own; before version 20 a decal
      was written as an empty mesh first. */
  const DecalSplitVersion: int := 20

  // ---------------------------------------------------------------------
  // TSDecalMesh::Assemble
  // ---------------------------------------------------------------------

  /** Memory holding `TSDrawPrimitive` records, as primitives. */
  function PrimitivesOfWords(words: seq<int>): (r: seq<Primitive>)
    ensures |r| == |words| / PrimitiveWords
    ensures forall i :: 0 <= i < |r| ==>
      r[i] == Primitive(words[PrimitiveWords * i], words[PrimitiveWords * i + 1], words[PrimitiveWords * i + 2])
  {
    seq(|words| / PrimitiveWords, i requires 0 <= i < |words| / PrimitiveWords =>
      Primitive(words[PrimitiveWords * i], words[PrimitiveWords * i + 1], words[PrimitiveWords * i + 2]))
  }

  /** A 16-bit element read as `uint16_t`. */
  function Unsigned16(v: int): (u: int)
    ensures 0 <= u < 0x1_0000
    ensures 0 <= v < 0x1_0000 ==> u == v
    ensures -0x8000 <= v < 0 ==> u == v + 0x1_0000
  {
    v % 0x1_0000
  }

  /** Every element read as `uint16_t`. */
  function Unsigned16All(vs: seq<int>): (us: seq<int>)
    ensures |us| == |vs|
    ensures forall i :: 0 <= i < |vs| ==> us[i] == Unsigned16(vs[i])
  {
    seq(|vs|, i requires 0 <= i < |vs| => Unsigned16(vs[i]))
  }

  /** One pass of the loop that steps over the primitives: two 16-bit and
      one 32-bit element. */
  function SkipOne(s: ReadState): ReadState
  {
    s.GetPointer(W16, 2).1.GetPointer(W32, 1).1
  }

  /** The loop run k times (not at all for k <= 0). */
  function SkipPrimitives(s: ReadState, k: int): ReadState
    decreases if k < 0 then 0 else k
  {
    if k <= 0 then s else SkipOne(SkipPrimitives(s, k - 1))
  }

  /** The loop ends having skipped all sz primitives, or none when sz is not
      positive. */
  lemma SkipsAll(s: ReadState, sz: int, i: int)
    requires 0 <= i <= Count(sz) && i >= sz
    ensures SkipPrimitives(s, i) == SkipPrimitives(s, sz)
  {
    assert sz <= 0 ==> i == 0;
  }

  /** Closed form of the loop: the 16-bit and the 32-bit cursors each move 4
      bytes per primitive; nothing else changes. */
  lemma {:induction false} SkipPrimitivesMoves(s: ReadState, k: int)
    ensures SkipPrimitives(s, k) ==
      s.(c := s.c.(pos := PerWidth(s.c.pos.w32 + 4 * Count(k), s.c.pos.w16 + 4 * Count(k), s.c.pos.w8)))
    decreases if k < 0 then 0 else k
  {
    if k > 0 {
      SkipPrimitivesMoves(s, k - 1);
    }
  }

  /** Nothing reserved or copied between s and t. */
  predicate Untouched(s: ReadState, t: ReadState)
  {
    t.shape == s.shape && t.input == s.input && t.dest == s.dest && t.c.size == s.c.size && t.c.mult == s.c.mult
  }

  /** Between s and t only alignment was reserved: size_ rounded up to a
      multiple of 4 (kept while skipping), dest_ moved by as much, and
      nothing copied. */
  predicate Aligns(s: ReadState, t: ReadState)
  {
    t.shape == s.shape && t.input == s.input && t.c.mult == s.c.mult &&
    t.c.size == (if s.c.mult == 1 then RoundUp4(s.c.size) else s.c.size) &&
    (s.dest.None? ==> t.dest.None?) &&
    (s.dest.Some? ==> t.dest.Some? && t.dest.value == s.dest.value + (t.c.size - s.c.size))
  }

  /** Before version 20: the guard and the 15 words of the empty mesh that
      used to precede a decal. */
  function ReadOldHead(s: ReadState, version: int): (r: Read<()>)
    ensures version >= DecalSplitVersion ==> r == Read((), true, s)
    ensures Untouched(s, r.state)
  {
    if version < DecalSplitVersion then
      var (ok, s1) := s.CheckGuard();
      Read((), ok, s1.GetPointer(W32, 15).1)
    else
      Read((), true, s)
  }

  /** The primitive count, then the current shape address (nothing copied),
      the loop over the primitives, an alignment; the primitives are the
      count records found at that shape address. */
  function ReadDecalPrimitives(s: ReadState): (r: Read<seq<Primitive>>)
    ensures r.state.shape == s.shape && r.state.input == s.input && r.state.c.mult == s.c.mult
  {
    var (n, s1) := s.Get(W32);
    var (p, s2) := s1.CopyToShape(W32, 0, false);
    SkipPrimitivesMoves(s2, n);
    var s3 := SkipPrimitives(s2, n).Align32();
    Read(PrimitivesOfWords(VectorAt(s3, p, n, PrimitiveWords, W32)), true, s3)
  }

  /** No primitive is loaded from the file: while sizing there are none, and
      when copying they are the records already at the current shape address,
      where nothing was copied. */
  lemma DecalPrimitivesFromShape(s: ReadState)
    ensures s.dest.None? ==> ReadDecalPrimitives(s).value == []
    ensures s.dest.Some? ==> (ReadDecalPrimitives(s).value ==
      PrimitivesOfWords(Decode(Slice(s.shape, s.dest.value, 4 * PrimitiveWords * Count(s.Next(W32))), W32)))
  {
    var (n, s1) := s.Get(W32);
    var (p, s2) := s1.CopyToShape(W32, 0, false);
    SkipPrimitivesMoves(s2, n);
    var s3 := SkipPrimitives(s2, n).Align32();
    assert s3.shape == s.shape;
    assert Count(n) * PrimitiveWords * 4 == 4 * PrimitiveWords * Count(n);
  }

  /** The index count, the indices viewed in place in the 16-bit input, an
      alignment. */
  function ReadDecalIndices(s: ReadState): (r: Read<seq<int>>)
    ensures r.value == Unsigned16All(Decode(Slice(s.input, s.c.pos.w16, 2 * Count(s.Next(W32))), W16))
    ensures forall i :: 0 <= i < |r.value| ==> 0 <= r.value[i] < 0x1_0000
    ensures r.state.shape == s.shape && r.state.input == s.input && r.state.c.mult == s.c.mult
  {
    var (n, s1) := s.Get(W32);
    var (p, s2) := s1.GetPointer(W16, n);
    var s3 := s2.Align32();
    Read(Unsigned16All(VectorAt(s3, p, n, 1, W16)), true, s3)
  }

  /** Before version 20: three more words of the empty mesh and a guard. */
  function ReadOldTail(s: ReadState, version: int): (r: Read<()>)
    ensures version >= DecalSplitVersion ==> r == Read((), true, s)
    ensures Untouched(s, r.state)
  {
    if version < DecalSplitVersion then
      var (ok, s1) := s.GetPointer(W32, 3).1.CheckGuard();
      Read((), ok, s1)
    else
      Read((), true, s)
  }

  /** The frame count, the start primitives and the two planes of each
      frame, all viewed in place in the 32-bit input; the material index and
      a guard. */
  function ReadDecalFrames(s: ReadState): (r: Read<(seq<int>, seq<int>, seq<int>, int)>)
    ensures Untouched(s, r.state)
  {
    var (n, s1) := s.Get(W32);
    var (p1, s2) := s1.GetPointer(W32, n);
    var start := VectorAt(s2, p1, n, 1, W32);
    var (p2, s3) := s2.GetPointer(W32, n * PlaneWords);
    var (p3, s4) := s3.GetPointer(W32, n * PlaneWords);
    var (material, s5) := s4.Get(W32);
    var (ok, s6) := s5.CheckGuard();
    Read((start, VectorAt(s3, p2, |start|, PlaneWords, W32), VectorAt(s4, p3, |start|, PlaneWords, W32), material), ok, s6)
  }

  /** `TSDecalMesh::Assemble`. The skip flag plays no part. */
  function ReadDecal(s: ReadState, version: int): (r: Read<DecalMesh>)
    ensures r.state.shape == s.shape && r.state.input == s.input && r.state.c.mult == s.c.mult
    ensures forall i :: 0 <= i < |r.value.indices| ==> 0 <= r.value.indices[i] < 0x1_0000
  {
    var h := ReadOldHead(s, version);
    var p := ReadDecalPrimitives(h.state);
    var x := ReadDecalIndices(p.state);
    var t := ReadOldTail(x.state, version);
    var f := ReadDecalFrames(t.state);
    var (start, texgenS, texgenT, material) := f.value;
    Read(DecalMesh(p.value, x.value, start, texgenS, texgenT, material), h.ok && t.ok && f.ok, f.state)
  }

  /** `TSDecalMesh::Assemble` on the allocator. */
  method AssembleDecal(alloc: ITSShapeAlloc, version: int) returns (d: DecalMesh, ok: bool)
    modifies alloc
    ensures Read(d, ok, alloc.State()) == ReadDecal(old(alloc.State()), version)
  {
    var ok1 := AssembleOldHead(alloc, version);
    var prims := AssembleDecalPrimitives(alloc);
    var indices := AssembleDecalIndices(alloc);
    var ok2 := AssembleOldTail(alloc, version);
    var start, texgenS, texgenT, material, ok3 := AssembleDecalFrames(alloc);
    d := DecalMesh(prims, indices, start, texgenS, texgenT, material);
    ok := ok1 && ok2 && ok3;
  }

  method AssembleOldHead(alloc: ITSShapeAlloc, version: int) returns (ok: bool)
    modifies alloc
    ensures Read((), ok, alloc.State()) == ReadOldHead(old(alloc.State()), version)
  {
    ok := true;
    if version < DecalSplitVersion {
      ok := alloc.CheckGuard();
      var _ := alloc.GetPointer(W32, 15);
    }
  }

  /** The loop steps over the primitives one at a time. */
  method AssembleDecalPrimitives(alloc: ITSShapeAlloc) returns (prims: seq<Primitive>)
    modifies alloc
    ensures Read(prims, true, alloc.State()) == ReadDecalPrimitives(old(alloc.State()))
  {
    var sz := alloc.Get(W32);
    var ptr32 := alloc.CopyToShape(W32, 0, false);
    ghost var s2 := alloc.State();
    var i := 0;
    while i < sz
      invariant 0 <= i <= Count(sz)
      invariant alloc.State() == SkipPrimitives(s2, i)
      decreases sz - i
    {
      var _ := alloc.GetPointer(W16, 2);
      var _ := alloc.GetPointer(W32, 1);
      i := i + 1;
    }
    SkipsAll(s2, sz, i);
    alloc.Align32();
    prims := PrimitivesOfWords(VectorAt(alloc.State(), ptr32, sz, PrimitiveWords, W32));
  }

  method AssembleDecalIndices(alloc: ITSShapeAlloc) returns (indices: seq<int>)
    modifies alloc
    ensures Read(indices, true, alloc.State()) == ReadDecalIndices(old(alloc.State()))
  {
    var sz := alloc.Get(W32);
    var ptr16 := alloc.GetPointer(W16, sz);
    alloc.Align32();
    indices := Unsigned16All(VectorAt(alloc.State(), ptr16, sz, 1, W16));
  }

  method AssembleOldTail(alloc: ITSShapeAlloc, version: int) returns (ok: bool)
    modifies alloc
    ensures Read((), ok, alloc.State()) == ReadOldTail(old(alloc.State()), version)
  {
    ok := true;
    if version < DecalSplitVersion {
      var _ := alloc.GetPointer(W32, 3);
      ok := alloc.CheckGuard();
    }
  }

  method AssembleDecalFrames(alloc: ITSShapeAlloc) returns (start: seq<int>, texgenS: seq<int>, texgenT: seq<int>, material: int, ok: bool)
    modifies alloc
    ensures Read((start, texgenS, texgenT, material), ok, alloc.State()) == ReadDecalFrames(old(alloc.State()))
  {
    var sz := alloc.Get(W32);
    var ptr32 := alloc.GetPointer(W32, sz);
    start := VectorAt(alloc.State(), ptr32, sz, 1, W32);
    ptr32 := alloc.GetPointer(W32, sz * PlaneWords);
    texgenS := VectorAt(alloc.State(), ptr32, |start|, PlaneWords, W32);
    ptr32 := alloc.GetPointer(W32, sz * PlaneWords);
    texgenT := VectorAt(alloc.State(), ptr32, |start|, PlaneWords, W32);
    material := alloc.Get(W32);
    ok := alloc.CheckGuard();
  }

  /** `Align32` in the sense of `Aligns`. */
  lemma AlignAligns(s: ReadState)
    requires s.c.mult == 0 || s.c.mult == 1
    ensures Aligns(s, s.Align32())
  {
    var t := s.Align32();
    if s.c.mult == 1 {
      assert t.c.size == s.c.size + (RoundUp4(s.c.size) - s.c.size);
    } else {
      assert t.c.size == s.c.size;
    }
  }

  /** Rounding up twice is rounding up once. */
  lemma RoundUp4Twice(n: int)
    ensures RoundUp4(RoundUp4(n)) == RoundUp4(n)
  {
    assert RoundUp4(n) % 4 == 0;
  }

  /** Two stretches of alignment are one. */
  lemma AlignsTwice(a: ReadState, b: ReadState, c: ReadState)
    requires Aligns(a, b) && Aligns(b, c)
    ensures Aligns(a, c)
  {
    RoundUp4Twice(a.c.size);
  }

  /** Reading the primitives only aligns. */
  lemma PrimitivesAlign(s: ReadState)
    requires s.c.mult == 0 || s.c.mult == 1
    ensures Aligns(s, ReadDecalPrimitives(s).state)
  {
    var (n, s1) := s.Get(W32);
    var (p, s2) := s1.CopyToShape(W32, 0, false);
    SkipPrimitivesMoves(s2, n);
    var s3 := SkipPrimitives(s2, n);
    assert Untouched(s, s3);
    AlignAligns(s3);
  }

  /** Reading the indices only aligns. */
  lemma IndicesAlign(s: ReadState)
    requires s.c.mult == 0 || s.c.mult == 1
    ensures Aligns(s, ReadDecalIndices(s).state)
  {
    var (n, s1) := s.Get(W32);
    var (p, s2) := s1.GetPointer(W16, n);
    AlignAligns(s2);
  }

  /** A decal takes nothing from the shape block but alignment: whatever the
      version and the input, the load copies nothing, leaves the input as it
      was, and only rounds size_ up to a multiple of 4 while filling it. */
  lemma DecalCopiesNothing(s: ReadState, version: int)
    requires s.c.mult == 0 || s.c.mult == 1
    ensures Aligns(s, ReadDecal(s, version).state)
  {
    var h := ReadOldHead(s, version);
    var p := ReadDecalPrimitives(h.state);
    var x := ReadDecalIndices(p.state);
    var t := ReadOldTail(x.state, version);
    PrimitivesAlign(h.state);
    IndicesAlign(p.state);
    AlignsTwice(h.state, p.state, x.state);
  }

  // ---------------------------------------------------------------------
  // TSDecalMesh::Disassemble
  // ---------------------------------------------------------------------

  /** The memory of a `TSDrawPrimitive` array: three words per primitive. */
  function PrimitiveRecords(prims: seq<Primitive>): (ws: seq<int>)
    ensures |ws| == PrimitiveWords * |prims|
    ensures forall i :: 0 <= i < |prims| ==>
      ws[PrimitiveWords * i] == prims[i].start && ws[PrimitiveWords * i + 1] == prims[i].numElements &&
      ws[PrimitiveWords * i + 2] == prims[i].matIndex
  {
    if |prims| == 0 then []
    else [prims[0].start, prims[0].numElements, prims[0].matIndex] + PrimitiveRecords(prims[1..])
  }

  /** Reading records back as primitives inverts the layout. */
  lemma RecordsRead(prims: seq<Primitive>)
    ensures PrimitivesOfWords(PrimitiveRecords(prims)) == prims
  {
    var r := PrimitivesOfWords(PrimitiveRecords(prims));
    assert |r| == |prims|;
  }

  /** The `uint16_t` index memory seen as 32-bit words, two indices per word;
      the words past its end, which the writer also copies, read as zero. */
  function IndexWords(indices: seq<int>): (ws: seq<int>)
    ensures |ws| == |indices|
  {
    Decode(Encode(indices, W16) + seq(2 * |indices|, _ => 0), W32)
  }

  /** The words copied for the indices are the bytes of the indices followed
      by as many zero bytes. */
  lemma IndexWordsBytes(indices: seq<int>)
    ensures Encode(IndexWords(indices), W32) == Encode(indices, W16) + seq(2 * |indices|, _ => 0)
  {
    EncodeDecode(Encode(indices, W16) + seq(2 * |indices|, _ => 0), W32);
  }

  /** What the writer appends to the 32-bit buffer: each of the three arrays
      after its count, as many words as the array has elements (so a third of
      the primitive records, and the indices reinterpreted as words), the two
      plane arrays without counts, and the material index. */
  function Decal32(d: DecalMesh): seq<int>
  {
    Topology32(d) + Frames32(d)
  }

  /** The primitives and the indices, each after its count. */
  function Topology32(d: DecalMesh): seq<int>
  {
    SortedMesh.CountedEntries(|d.primitives|, PrimitiveRecords(d.primitives), |d.primitives|)
      + SortedMesh.CountedEntries(|d.indices|, IndexWords(d.indices), |d.indices|)
  }

  /** The start primitives after their count, the planes and the material. */
  function Frames32(d: DecalMesh): seq<int>
  {
    SortedMesh.CountedEntries(|d.startPrimitive|, d.startPrimitive, |d.startPrimitive|)
      + Copied(Vector.Address(d.texgenS), |d.texgenS| / PlaneWords * PlaneWords)
      + Copied(Vector.Address(d.texgenT), |d.texgenT| / PlaneWords * PlaneWords)
      + [Wrap(d.materialIndex, 4)]
  }

  /** Everything the writer appends, with g the guard counters before it. */
  function DecalEntries(d: DecalMesh, g: PerWidth<int>): PerWidth<seq<int>>
  {
    Appended(Only(W32, Decal32(d)), GuardEntries(g))
  }

  /** `TSDecalMesh::Disassemble`. */
  method DisassembleDecal(out: OTSShapeAlloc, d: DecalMesh)
    requires out.Valid() && GuardsFit(out.guard)
    modifies out
    ensures out.Valid() && GuardsFit(out.guard)
    ensures out.buffer == Appended(old(out.buffer), DecalEntries(d, old(out.guard)))
    ensures out.guard == NextGuards(old(out.guard))
  {
    ghost var b := out.buffer;
    ghost var g := out.guard;
    PutTopology(out, d);
    PutDecalFrames(out, d);
    AppendedTwice(b, W32, Topology32(d), Frames32(d));
    out.SetGuard();
    AppendedAssoc(b, Only(W32, Decal32(d)), GuardEntries(g));
  }

  method PutTopology(out: OTSShapeAlloc, d: DecalMesh)
    requires out.Valid()
    modifies out
    ensures out.Valid() && out.guard == old(out.guard)
    ensures out.buffer == Appended(old(out.buffer), Only(W32, Topology32(d)))
  {
    ghost var b := out.buffer;
    SortedMesh.PutCounted(out, |d.primitives|, PrimitiveRecords(d.primitives), |d.primitives|);
    ghost var ws := SortedMesh.CountedEntries(|d.primitives|, PrimitiveRecords(d.primitives), |d.primitives|);
    SortedMesh.PutCounted(out, |d.indices|, IndexWords(d.indices), |d.indices|);
    AppendedTwice(b, W32, ws, SortedMesh.CountedEntries(|d.indices|, IndexWords(d.indices), |d.indices|));
  }

  method PutDecalFrames(out: OTSShapeAlloc, d: DecalMesh)
    requires out.Valid()
    modifies out
    ensures out.Valid() && out.guard == old(out.guard)
    ensures out.buffer == Appended(old(out.buffer), Only(W32, Frames32(d)))
  {
    ghost var b := out.buffer;
    SortedMesh.PutCounted(out, |d.startPrimitive|, d.startPrimitive, |d.startPrimitive|);
    ghost var ws := SortedMesh.CountedEntries(|d.startPrimitive|, d.startPrimitive, |d.startPrimitive|);
    var planes := |d.texgenS| / PlaneWords;
    out.CopyToBuffer(W32, Vector.Address(d.texgenS), planes * PlaneWords);
    ghost var e := Copied(Vector.Address(d.texgenS), planes * PlaneWords);
    AppendedTwice(b, W32, ws, e);
    ws := ws + e;
    planes := |d.texgenT| / PlaneWords;
    out.CopyToBuffer(W32, Vector.Address(d.texgenT), planes * PlaneWords);
    e := Copied(Vector.Address(d.texgenT), planes * PlaneWords);
    AppendedTwice(b, W32, ws, e);
    ws := ws + e;
    var m := out.Set(W32, d.materialIndex);
    AppendedTwice(b, W32, ws, [m]);
  }

  /** The 32-bit entries start with the two counted arrays the reader
      takes from elsewhere. */
  lemma TopologyWords(d: DecalMesh)
    ensures var n := |d.primitives|;
      Topology32(d) == [Wrap(n, 4)] + PrimitiveRecords(d.primitives)[..n] + [Wrap(|d.indices|, 4)] + IndexWords(d.indices)
  {
    var n := |d.primitives|;
    var recs := PrimitiveRecords(d.primitives);
    assert Copied(Vector.Address(recs), n) == recs[..n];
    CopiedAll(IndexWords(d.indices));
  }

  /** The writer puts nothing but the guards into the 16- and 8-bit buffers,
      where the reader takes the indices from the 16-bit buffer; and it
      writes no leading guard. */
  lemma DecalWriterGuardsOnly(d: DecalMesh, g: PerWidth<int>)
    ensures DecalEntries(d, g).w16 == [g.w16] && DecalEntries(d, g).w8 == [g.w8]
    ensures Decal32(d)[|Decal32(d)| - 1] == Wrap(d.materialIndex, 4)
    ensures DecalEntries(d, g).w32 == Decal32(d) + [g.w32]
  {
  }

  /** Where the 32-bit entries part from the reader's layout: only the
      first |p| words of the 3|p| words of primitive records follow their
      count (the reader consumes none), and the index words are the raw index
      bytes padded with zeros. */
  lemma DecalWriterLayout(d: DecalMesh)
    requires InSignedRange(|d.primitives|, 4) && InSignedRange(|d.indices|, 4)
    ensures var t, n := Topology32(d), |d.primitives|;
      t[0] == n && t[1 .. 1 + n] == PrimitiveRecords(d.primitives)[..n] &&
      t[1 + n] == |d.indices| &&
      Encode(t[2 + n ..], W32) == Encode(d.indices, W16) + seq(2 * |d.indices|, _ => 0)
  {
    var n, k := |d.primitives|, |d.indices|;
    WrapProperties(n, 4);
    WrapProperties(k, 4);
    TopologyWords(d);
    var t := Topology32(d);
    assert t[2 + n ..] == IndexWords(d.indices);
    IndexWordsBytes(d.indices);
  }
}
