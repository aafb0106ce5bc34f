/**
 * Mesh: the mesh record of the shape codec (`TSMesh` and `TSSkinMesh`).
 *
 * A mesh is a value here: the assembling methods build a fresh one from the
 * packed buffer, as the source does into a freshly constructed object.
 * Point, normal, box and matrix members are kept as the 32-bit words the
 * buffer holds (three words per point, sixteen per matrix), floats as their
 * bit patterns. The shared scratch tables of the source (`verts_list_`,
 * `data_copied_`, ...) are an explicit `Scratch` argument, and the shape's
 * `current_read_version_` an explicit version argument.
 */
module Mesh {
  import opened Bytes
  import opened ShapeAlloc
  import Bitwise
  import Float32
  import Vector
  import Normals

  // ---------------------------------------------------------------------
  // TSDrawPrimitive: the material word of a primitive
  // ---------------------------------------------------------------------

  /** `kStrip`, `kFan`, `kIndexed`, `kNoMaterial`; `kTriangles` is 0. */
  const Strip: nat := 0x4000_0000
  const Fan: nat := 0x8000_0000
  const IndexedFlag: nat := 0x2000_0000
  const NoMaterialFlag: nat := 0x1000_0000
  /** `kMaterialMask`: every bit the four above leave, bits 0 to 27. */
  const MaterialMask: nat := 0x0FFF_FFFF

  /** The element type in bits 30 and 31: 0 triangles, 1 strip, 2 fan. */
  function ElementType(matIndex: Bitwise.Word): nat
  {
    matIndex / 0x4000_0000
  }

  /** Bit 29: draw with an index list. */
  predicate IsIndexed(matIndex: Bitwise.Word)
  {
    (matIndex / IndexedFlag) % 2 == 1
  }

  /** Bit 28: the material is missing. */
  predicate HasNoMaterial(matIndex: Bitwise.Word)
  {
    (matIndex / NoMaterialFlag) % 2 == 1
  }

  /** `mat_index & kMaterialMask`. */
  function Material(matIndex: Bitwise.Word): nat
  {
    matIndex % (MaterialMask + 1)
  }

  /** The material word with the given fields. */
  function MatIndex(elementType: nat, indexed: bool, noMaterial: bool, material: nat): (m: Bitwise.Word)
    requires elementType < 4 && material <= MaterialMask
  {
    elementType * Strip + (if indexed then IndexedFlag else 0) + (if noMaterial then NoMaterialFlag else 0) + material
  }

  /** The fields come back out of the word they were put in. */
  lemma MatIndexFields(elementType: nat, indexed: bool, noMaterial: bool, material: nat)
    requires elementType < 4 && material <= MaterialMask
    ensures var m := MatIndex(elementType, indexed, noMaterial, material);
      ElementType(m) == elementType && IsIndexed(m) == indexed &&
      HasNoMaterial(m) == noMaterial && Material(m) == material
  {
  }

  /** Every word is made of its four fields: nothing lies outside them. */
  lemma MatIndexOfFields(m: Bitwise.Word)
    ensures ElementType(m) < 4 && Material(m) <= MaterialMask
    ensures MatIndex(ElementType(m), IsIndexed(m), HasNoMaterial(m), Material(m)) == m
  {
  }

  // ---------------------------------------------------------------------
  // Mesh type and flags (stored together in mesh_type_)
  // ---------------------------------------------------------------------

  const StandardMeshType: nat := 0
  const SkinMeshType: nat := 1
  const DecalMeshType: nat := 2
  const SortedMeshType: nat := 3
  const NullMeshType: nat := 4
  /** `kTypeMask`: the OR of the five type codes. */
  const TypeMask: nat := 7

  /** `GetMeshType`: `mesh_type_ & kTypeMask`. */
  function GetMeshType(meshType: Bitwise.Word): nat
  {
    Bitwise.And(meshType, TypeMask)
  }

  /** `SetFlags(flag)`: `mesh_type_ |= flag`, written on 32-bit words as
      `~(~mesh_type_ & ~flag)`. */
  function SetFlags(meshType: Bitwise.Word, flag: Bitwise.Word): (r: Bitwise.Word)
    ensures meshType <= r && flag <= r
  {
    Bitwise.Not(Bitwise.And(Bitwise.Not(meshType), Bitwise.Not(flag)))
  }

  /** Each bit of the result is set exactly when it is set in the mesh type
      or in the flag. */
  lemma SetFlagsBits(meshType: Bitwise.Word, flag: Bitwise.Word)
    ensures forall i :: Bitwise.Bit(SetFlags(meshType, flag), i) <==> Bitwise.Bit(meshType, i) || Bitwise.Bit(flag, i)
  {
    var both := Bitwise.And(Bitwise.Not(meshType), Bitwise.Not(flag));
    Bitwise.Pow2Values();
    forall i ensures Bitwise.Bit(Bitwise.Not(both), i) <==> Bitwise.Bit(meshType, i) || Bitwise.Bit(flag, i) {
      if i < 32 {
        Bitwise.BitNot(both, i);
        Bitwise.BitAnd(Bitwise.Not(meshType), Bitwise.Not(flag), i);
        Bitwise.BitNot(meshType, i);
        Bitwise.BitNot(flag, i);
      } else {
        Bitwise.BitAbove(Bitwise.Not(both), 32, i);
        Bitwise.BitAbove(meshType, 32, i);
        Bitwise.BitAbove(flag, 32, i);
      }
    }
  }

  /** `GetFlags(flag)`: `mesh_type_ & flag`. */
  function GetFlags(meshType: Bitwise.Word, flag: Bitwise.Word): (r: Bitwise.Word)
    ensures r <= meshType && r <= flag
  {
    Bitwise.And(meshType, flag)
  }

  /** Each bit of the result is set exactly when it is set in both. */
  lemma GetFlagsBits(meshType: Bitwise.Word, flag: Bitwise.Word)
    ensures forall i :: Bitwise.Bit(GetFlags(meshType, flag), i) <==> Bitwise.Bit(meshType, i) && Bitwise.Bit(flag, i)
  {
    forall i ensures Bitwise.Bit(Bitwise.And(meshType, flag), i) <==> Bitwise.Bit(meshType, i) && Bitwise.Bit(flag, i) {
      Bitwise.BitAnd(meshType, flag, i);
    }
  }

  /** `GetMeshType` of one of the five codes is that code, and flags set
      above the low three bits never change it. */
  lemma MeshTypeOfFlags(code: nat, flags: Bitwise.Word)
    requires code <= NullMeshType && flags % 8 == 0
    ensures GetMeshType(code) == code
    ensures GetMeshType(SetFlags(code, flags)) == code
  {
    var t := SetFlags(code, flags);
    SetFlagsBits(code, flags);
    Bitwise.Pow2Values();
    assert Bitwise.Pow2(3) == 8;
    forall i | 0 <= i < 3
      ensures Bitwise.Bit(Bitwise.And(code, TypeMask), i) == Bitwise.Bit(code, i)
      ensures Bitwise.Bit(Bitwise.And(t, TypeMask), i) == Bitwise.Bit(code, i)
    {
      Bitwise.BitAnd(code, TypeMask, i);
      Bitwise.BitAnd(t, TypeMask, i);
      Bitwise.BitRange(0, 3, i);
      assert TypeMask == Bitwise.Pow2(3) - Bitwise.Pow2(0);
      Bitwise.BitMod(flags, 3, i);
      Bitwise.BitZero(i);
    }
    AndBelow(code, TypeMask, 3);
    AndBelow(t, TypeMask, 3);
    Bitwise.BitsEqual(Bitwise.And(code, TypeMask), code, 3);
    Bitwise.BitsEqual(Bitwise.And(t, TypeMask), code, 3);
  }

  /** `GetFlags()` with the default all-ones mask is the whole of mesh_type_. */
  lemma GetAllFlags(meshType: Bitwise.Word)
    ensures GetFlags(meshType, 0xFFFF_FFFF) == meshType
  {
    GetFlagsBits(meshType, 0xFFFF_FFFF);
    Bitwise.Pow2Values();
    forall i | 0 <= i < 32
      ensures Bitwise.Bit(GetFlags(meshType, 0xFFFF_FFFF), i) == Bitwise.Bit(meshType, i)
    {
      Bitwise.BitRange(0, 32, i);
    }
    Bitwise.BitsEqual(GetFlags(meshType, 0xFFFF_FFFF), meshType, 32);
  }

  /** `a & b` stays below 2^n when b does. */
  lemma {:induction false} AndBelow(a: nat, b: nat, n: nat)
    requires b < Bitwise.Pow2(n)
    ensures Bitwise.And(a, b) < Bitwise.Pow2(n)
    decreases n
  {
    if a != 0 && b != 0 {
      AndBelow(a / 2, b / 2, n - 1);
    }
  }

  // ---------------------------------------------------------------------
  // The mesh record
  // ---------------------------------------------------------------------

  /** `TSDrawPrimitive`. */
  datatype Primitive = Primitive(start: int, numElements: int, matIndex: int)

  /** The members `TSSkinMesh` adds. */
  datatype SkinData = SkinData(
    initialVerts: seq<int>, initialNorms: seq<int>, initialTransforms: seq<int>,
    vertexIndex: seq<int>, boneIndex: seq<int>, weight: seq<int>, nodeIndex: seq<int>)

  /** The members `TSSortedMesh` adds; a cluster is eight words. */
  datatype SortedData = SortedData(
    clusters: seq<int>, startCluster: seq<int>, firstVerts: seq<int>,
    numVerts: seq<int>, firstTVerts: seq<int>, alwaysWriteDepth: bool)

  datatype Extra = Standard | Skin(skin: SkinData) | Sorted(sorted: SortedData)

  /** `TSMesh`: mesh_type_ holds the type code and the flags. */
  datatype Mesh = Mesh(
    meshType: Bitwise.Word, parent: int, numFrames: int, numMatFrames: int, vertsPerFrame: int,
    bounds: seq<int>, center: seq<int>, radius: Float32.Bits,
    verts: seq<int>, tverts: seq<int>, norms: seq<int>, encodedNorms: seq<byte>,
    primitives: seq<Primitive>, indices: seq<Bitwise.Word>, extra: Extra)

  /** The scratch tables that let a detail level share the data of the mesh
      it names as its parent: where each earlier mesh's vectors are, and
      whether its data went into the shape block. */
  datatype Scratch = Scratch(
    verts: seq<Ptr>, tverts: seq<Ptr>, norms: seq<Ptr>, encodedNorms: seq<Ptr>,
    initTransforms: seq<Ptr>, vertexIndex: seq<Ptr>, boneIndex: seq<Ptr>,
    weight: seq<Ptr>, nodeIndex: seq<Ptr>, dataCopied: seq<bool>)

  /** `source[parent]`; an index past the table reads as null. */
  function Entry(source: seq<Ptr>, i: int): Ptr
  {
    if 0 <= i < |source| then source[i] else Null
  }

  /** `data_copied_[parent]`; an index past the table reads as false. */
  predicate CopiedAt(copied: seq<bool>, i: int)
  {
    0 <= i < |copied| && copied[i]
  }

  /** An element count read from the buffer, as a vector size; a negative
      count gives an empty vector. */
  function Count(n: int): nat
  {
    if n < 0 then 0 else n
  }

  /** `Vector::Set(v, ptr, n)` for a vector whose elements are `words` values
      of width w: empty for a null pointer, otherwise the n elements behind
      it. */
  function VectorAt(s: ReadState, p: Ptr, n: int, words: nat, w: Width): (v: seq<int>)
    ensures p.Null? ==> v == []
    ensures !p.Null? ==> v == Decode(s.Deref(p, Count(n) * words * w.Size()), w)
  {
    DecodeLength(Count(n) * words, w);
    Vector.Set(if p.Null? then None else Some(Decode(s.Deref(p, Count(n) * words * w.Size()), w)),
               if p.Null? then 0 else Count(n) * words)
  }

  /** `Vector::Set(v, ptr, n)` for a vector of bytes. */
  function BytesAt(s: ReadState, p: Ptr, n: int): (v: seq<byte>)
    ensures p.Null? ==> v == []
    ensures !p.Null? ==> v == s.Deref(p, Count(n))
  {
    Vector.Set(if p.Null? then None else Some(s.Deref(p, Count(n))), if p.Null? then 0 else Count(n))
  }

  lemma DecodeLength(k: nat, w: Width)
    ensures |Decode(seq<byte>(k * w.Size(), _ => 0), w)| == k
    ensures (k * w.Size()) / w.Size() == k
  {
  }

  /** A value the writer wrote with `Set` is what `Get` reads back. */
  lemma GetWritten(s: ReadState, w: Width, v: int)
    requires InSignedRange(v, w.Size())
    requires Slice(s.input, s.c.pos.At(w), w.Size() * |[v]|) == Encode([v], w)
    ensures s.Get(w).0 == v
  {
    var k := w.Size();
    assert [v][1..] == [];
    assert Encode([v], w) == LeBytes(v, k) + LeBytesAll([], k) == LeBytes(v, k);
    assert Slice(s.input, s.c.pos.At(w), k) == LeBytes(v, k);
    SignedLeBytes(v, k);
  }

  /** Data the writer wrote with `CopyToBuffer` is copied into the shape
      block by `CopyToShape` in the copying pass and read back whole by
      `Vector::Set`. */
  lemma CopiedWritten(s: ReadState, n: nat, v: seq<int>, words: nat)
    requires |v| == n * words && AllFit(v, W32)
    requires s.dest.Some? && s.c.mult == 1 && 0 <= s.dest.value && s.dest.value + 4 * |v| <= |s.shape|
    requires Slice(s.input, s.c.pos.w32, 4 * |v|) == Encode(v, W32)
    ensures var (p, t) := s.CopyToShape(W32, n * words, false);
      VectorAt(t, p, n, words, W32) == v && t.dest == Some(s.dest.value + 4 * |v|)
  {
    var bs := Slice(s.input, s.c.pos.w32, 4 * |v|);
    var (p, t) := s.CopyToShape(W32, n * words, false);
    StoreThenSlice(s.shape, s.dest.value, bs);
    assert t.Deref(p, Count(n) * words * 4) == bs;
    DecodeEncode(v, W32);
  }

  /** `Get()` of an element count n, then `CopyToShape(n * words)`: the
      count, the pointer to the copied elements and the new state. */
  function ReadCount(s: ReadState, words: nat): (r: (int, Ptr, ReadState))
    ensures r.0 == s.Next(W32) && r.2.input == s.input
  {
    var (n, s1) := s.Get(W32);
    var (p, s2) := s1.CopyToShape(W32, n * words, false);
    (n, p, s2)
  }

  method GetCount(alloc: ITSShapeAlloc, words: nat) returns (n: int, p: Ptr)
    modifies alloc
    ensures (n, p, alloc.State()) == ReadCount(old(alloc.State()), words)
  {
    n := alloc.Get(W32);
    p := alloc.CopyToShape(W32, n * words, false);
  }

  /** A vector the writer wrote as its element count followed by its data
      (`Set(size)`, `CopyToBuffer`) is read back whole by `Get`,
      `CopyToShape` and `Vector::Set` in the copying pass, which move the
      cursor and dest_ past it. */
  lemma CountedWritten(s: ReadState, n: nat, v: seq<int>, words: nat)
    requires |v| == n * words && InSignedRange(n, 4) && AllFit(v, W32)
    requires s.dest.Some? && s.c.mult == 1 && 0 <= s.dest.value && s.dest.value + 4 * |v| <= |s.shape|
    requires Slice(s.input, s.c.pos.w32, 4 * |[n] + v|) == Encode([n] + v, W32)
    ensures var r := ReadCount(s, words);
      r.0 == n && VectorAt(r.2, r.1, n, words, W32) == v &&
      r.2.c.pos == s.c.pos.With(W32, s.c.pos.w32 + 4 * |[n] + v|) && r.2.c.guard == s.c.guard && r.2.c.mult == 1 &&
      r.2.input == s.input && r.2.dest == Some(s.dest.value + 4 * |v|) && |r.2.shape| == |s.shape|
  {
    EncodedSplit(s.input, s.c.pos.w32, [n], v, W32);
    GetWritten(s, W32, n);
    var s1 := s.Get(W32).1;
    assert s1.c.pos.w32 == s.c.pos.w32 + 4 * |[n]|;
    assert s1.input == s.input && s1.dest == s.dest && s1.shape == s.shape && s1.c.mult == 1;
    CopiedWritten(s1, n, v, words);
    assert |[n] + v| == 1 + |v|;
  }

  /** Two counted vectors written one after the other are read back one
      after the other. */
  lemma TwoCountedWritten(s: ReadState, n1: nat, v1: seq<int>, words1: nat, n2: nat, v2: seq<int>, words2: nat)
    requires |v1| == n1 * words1 && InSignedRange(n1, 4) && AllFit(v1, W32)
    requires |v2| == n2 * words2 && InSignedRange(n2, 4) && AllFit(v2, W32)
    requires s.dest.Some? && s.c.mult == 1 && 0 <= s.dest.value && s.dest.value + 4 * (|v1| + |v2|) <= |s.shape|
    requires Slice(s.input, s.c.pos.w32, 4 * |([n1] + v1) + ([n2] + v2)|) == Encode(([n1] + v1) + ([n2] + v2), W32)
    ensures var r1 := ReadCount(s, words1);
      r1.0 == n1 && VectorAt(r1.2, r1.1, n1, words1, W32) == v1
    ensures var r2 := ReadCount(ReadCount(s, words1).2, words2);
      r2.0 == n2 && VectorAt(r2.2, r2.1, n2, words2, W32) == v2
  {
    TwoCountedSteps(s, n1, v1, words1, n2, v2, words2);
    CountedWritten(ReadCount(s, words1).2, n2, v2, words2);
  }

  /** Reading two counted vectors moves the 32-bit cursor past both and dest_
      past their data; nothing else moves. */
  lemma TwoCountedMoves(s: ReadState, n1: nat, v1: seq<int>, words1: nat, n2: nat, v2: seq<int>, words2: nat)
    requires |v1| == n1 * words1 && InSignedRange(n1, 4) && AllFit(v1, W32)
    requires |v2| == n2 * words2 && InSignedRange(n2, 4) && AllFit(v2, W32)
    requires s.dest.Some? && s.c.mult == 1 && 0 <= s.dest.value && s.dest.value + 4 * (|v1| + |v2|) <= |s.shape|
    requires Slice(s.input, s.c.pos.w32, 4 * |([n1] + v1) + ([n2] + v2)|) == Encode(([n1] + v1) + ([n2] + v2), W32)
    ensures var r2 := ReadCount(ReadCount(s, words1).2, words2);
      r2.2.c.pos == s.c.pos.With(W32, s.c.pos.w32 + 4 * |([n1] + v1) + ([n2] + v2)|) &&
      r2.2.c.guard == s.c.guard && r2.2.c.mult == 1 && r2.2.input == s.input &&
      r2.2.dest == Some(s.dest.value + 4 * (|v1| + |v2|)) && |r2.2.shape| == |s.shape|
  {
    TwoCountedSteps(s, n1, v1, words1, n2, v2, words2);
    CountedWritten(ReadCount(s, words1).2, n2, v2, words2);
    assert |([n1] + v1) + ([n2] + v2)| == |[n1] + v1| + |[n2] + v2|;
  }

  /** The two `CountedWritten` steps, the second at the state the first
      leaves. */
  lemma TwoCountedSteps(s: ReadState, n1: nat, v1: seq<int>, words1: nat, n2: nat, v2: seq<int>, words2: nat)
    requires |v1| == n1 * words1 && InSignedRange(n1, 4) && AllFit(v1, W32)
    requires |v2| == n2 * words2 && InSignedRange(n2, 4) && AllFit(v2, W32)
    requires s.dest.Some? && s.c.mult == 1 && 0 <= s.dest.value && s.dest.value + 4 * (|v1| + |v2|) <= |s.shape|
    requires Slice(s.input, s.c.pos.w32, 4 * |([n1] + v1) + ([n2] + v2)|) == Encode(([n1] + v1) + ([n2] + v2), W32)
    ensures var s1 := ReadCount(s, words1).2;
      s1.dest.Some? && s1.c.mult == 1 && 0 <= s1.dest.value && s1.dest.value + 4 * |v2| <= |s1.shape| &&
      Slice(s1.input, s1.c.pos.w32, 4 * |[n2] + v2|) == Encode([n2] + v2, W32)
    ensures var r1 := ReadCount(s, words1);
      r1.0 == n1 && VectorAt(r1.2, r1.1, n1, words1, W32) == v1 &&
      r1.2.c.pos == s.c.pos.With(W32, s.c.pos.w32 + 4 * |[n1] + v1|) && r1.2.c.guard == s.c.guard &&
      r1.2.input == s.input && r1.2.dest == Some(s.dest.value + 4 * |v1|) && |r1.2.shape| == |s.shape|
  {
    EncodedSplit(s.input, s.c.pos.w32, [n1] + v1, [n2] + v2, W32);
    CountedWritten(s, n1, v1, words1);
  }

  // ---------------------------------------------------------------------
  // GetSharedData
  // ---------------------------------------------------------------------

  /** `GetSharedData<T>(parent_mesh, size, source, skip)`. Without a parent
      it consumes size input elements (a pointer into the input when
      skipping, a copy into the shape otherwise). With a parent it consumes
      no input and answers the parent's recorded pointer, unless the parent's
      data was not copied and this mesh is not skipped: then it reserves size
      elements and copies `size * 4` bytes of the parent's data there,
      whatever the width. */
  function SharedData(s: ReadState, w: Width, parent: int, size: int, source: seq<Ptr>, copied: seq<bool>, skip: bool): (r: (Ptr, ReadState))
    ensures parent < 0 && skip ==> r == s.GetPointer(w, size)
    ensures parent < 0 && !skip ==> r == s.CopyToShape(w, size, false)
    ensures parent < 0 ==> r.1.c.pos == s.c.pos.With(w, s.c.pos.At(w) + size * w.Size())
    ensures parent >= 0 ==> r.1.c.pos == s.c.pos && r.1.input == s.input && r.1.c.guard == s.c.guard
    ensures parent >= 0 && (CopiedAt(copied, parent) || skip) ==> r == (Entry(source, parent), s)
    ensures parent >= 0 && !CopiedAt(copied, parent) && !skip ==>
      r.0 == s.AllocShape(w, size).0 && r.1.c == s.c.Reserve(w, size) &&
      r.1.dest == s.AllocShape(w, size).1.dest &&
      r.1.shape == (if r.0.ShapeAt? && !Entry(source, parent).Null?
                    then Store(s.shape, r.0.offset, s.Deref(Entry(source, parent), size * 4))
                    else s.shape)
  {
    if parent < 0 then
      if skip then s.GetPointer(w, size) else s.CopyToShape(w, size, false)
    else
      var ptr := Entry(source, parent);
      if !CopiedAt(copied, parent) && !skip then
        var (p, s1) := s.AllocShape(w, size);
        (p, if !p.Null? && !ptr.Null? then s1.Memcpy(p, s1.Deref(ptr, size * 4)) else s1)
      else
        (ptr, s)
  }

  method GetSharedData(alloc: ITSShapeAlloc, w: Width, parent: int, size: int, source: seq<Ptr>, copied: seq<bool>, skip: bool)
    returns (p: Ptr)
    modifies alloc
    ensures (p, alloc.State()) == SharedData(old(alloc.State()), w, parent, size, source, copied, skip)
  {
    if parent < 0 {
      if skip {
        p := alloc.GetPointer(w, size);
      } else {
        p := alloc.CopyToShape(w, size, false);
      }
    } else {
      p := Entry(source, parent);
      if !CopiedAt(copied, parent) && !skip {
        var tmp := p;
        p := alloc.AllocShape(w, size);
        if !p.Null? && !tmp.Null? {
          alloc.Memcpy(p, alloc.State().Deref(tmp, size * 4));
        }
      }
    }
  }

  /** The quirk of the copy above: for the 8-bit encoded normals it writes
      four times the bytes it reserved, over the next `3 * size` bytes of the
      shape block. */
  lemma SharedBytesOverrun(s: ReadState, parent: int, size: nat, source: seq<Ptr>, copied: seq<bool>)
    requires parent >= 0 && !CopiedAt(copied, parent) && !Entry(source, parent).Null?
    requires s.dest.Some? && s.c.mult == 1 && 0 <= s.dest.value && s.dest.value + 4 * size <= |s.shape|
    ensures var r := SharedData(s, W8, parent, size, source, copied, false);
      r.1.dest == Some(s.dest.value + size) &&
      Slice(r.1.shape, s.dest.value, 4 * size) == s.Deref(Entry(source, parent), 4 * size)
  {
    StoreThenSlice(s.shape, s.dest.value, s.Deref(Entry(source, parent), 4 * size));
  }

  // ---------------------------------------------------------------------
  // TSMesh::Assemble
  // ---------------------------------------------------------------------

  /** What one assembling step yields: a value, whether every guard it
      checked matched, and the allocator state after it. */
  datatype Read<T> = Read(value: T, ok: bool, state: ReadState)

  /** The fixed-size head of a mesh record. */
  datatype Header = Header(numFrames: int, numMatFrames: int, parent: int, bounds: seq<int>, center: seq<int>, radius: Float32.Bits)

  /** A guard, the frame counts and the parent, 6 bounds words, 3 center
      words and the radius, which is converted from an integer, not
      bit-copied. */
  function ReadHeader(s: ReadState): (r: Read<Header>)
    ensures r.state.c.pos.w32 == s.c.pos.w32 + 4 * 14
    ensures |r.value.bounds| == 6 && |r.value.center| == 3
  {
    var (ok, s1) := s.CheckGuard();
    var (numFrames, s2) := s1.Get(W32);
    var (numMatFrames, s3) := s2.Get(W32);
    var (parent, s4) := s3.Get(W32);
    var (bounds, s5) := s4.GetInto(W32, 6);
    var (center, s6) := s5.GetInto(W32, 3);
    var (radius, s7) := s6.Get(W32);
    Read(Header(numFrames, numMatFrames, parent, bounds, center, Float32.FromInt(radius)), ok, s7)
  }

  method AssembleHeader(alloc: ITSShapeAlloc) returns (h: Header, ok: bool)
    modifies alloc
    ensures Read(h, ok, alloc.State()) == ReadHeader(old(alloc.State()))
  {
    ok := alloc.CheckGuard();
    var numFrames := alloc.Get(W32);
    var numMatFrames := alloc.Get(W32);
    var parent := alloc.Get(W32);
    var bounds := alloc.GetInto(W32, 6);
    var center := alloc.GetInto(W32, 3);
    var radius := alloc.Get(W32);
    h := Header(numFrames, numMatFrames, parent, bounds, center, Float32.FromInt(radius));
  }

  /** The vertex arrays of a mesh. */
  datatype VertexData = VertexData(verts: seq<int>, tverts: seq<int>, norms: seq<int>, encodedNorms: seq<byte>)

  /** Vertices (3 words each) and texture vertices (2 words each), each
      after its count, through the sharing rule; then, after version 21,
      normals and one-byte encoded normals through the sharing rule, and
      before it 3 normal words per vertex copied and no encoded normals. */
  function ReadVertexData(s: ReadState, parent: int, version: int, skip: bool, t: Scratch): (r: Read<VertexData>)
    ensures version <= 21 ==> r.value.encodedNorms == []
    ensures r.ok && r.state.input == s.input && r.state.c.guard == s.c.guard
  {
    var (numVerts, s1) := s.Get(W32);
    var (pv, s2) := SharedData(s1, W32, parent, 3 * numVerts, t.verts, t.dataCopied, skip);
    var verts := VectorAt(s2, pv, numVerts, 3, W32);
    var (numTVerts, s3) := s2.Get(W32);
    var (pt, s4) := SharedData(s3, W32, parent, 2 * numTVerts, t.tverts, t.dataCopied, skip);
    var tverts := VectorAt(s4, pt, numTVerts, 2, W32);
    if version > 21 then
      var (pn, s5) := SharedData(s4, W32, parent, 3 * numVerts, t.norms, t.dataCopied, skip);
      var norms := VectorAt(s5, pn, numVerts, 3, W32);
      var (pe, s6) := SharedData(s5, W8, parent, numVerts, t.encodedNorms, t.dataCopied, skip);
      Read(VertexData(verts, tverts, norms, BytesAt(s6, pe, numVerts)), true, s6)
    else
      var (pn, s5) := s4.CopyToShape(W32, 3 * numVerts, false);
      Read(VertexData(verts, tverts, VectorAt(s5, pn, numVerts, 3, W32), []), true, s5)
  }

  method AssembleVertexData(alloc: ITSShapeAlloc, parent: int, version: int, skip: bool, t: Scratch) returns (d: VertexData)
    modifies alloc
    ensures Read(d, true, alloc.State()) == ReadVertexData(old(alloc.State()), parent, version, skip, t)
  {
    var numVerts := alloc.Get(W32);
    var ptr32 := GetSharedData(alloc, W32, parent, 3 * numVerts, t.verts, t.dataCopied, skip);
    var verts := VectorAt(alloc.State(), ptr32, numVerts, 3, W32);
    var numTVerts := alloc.Get(W32);
    ptr32 := GetSharedData(alloc, W32, parent, 2 * numTVerts, t.tverts, t.dataCopied, skip);
    var tverts := VectorAt(alloc.State(), ptr32, numTVerts, 2, W32);
    if version > 21 {
      ptr32 := GetSharedData(alloc, W32, parent, 3 * numVerts, t.norms, t.dataCopied, skip);
      var norms := VectorAt(alloc.State(), ptr32, numVerts, 3, W32);
      var ptr8 := GetSharedData(alloc, W8, parent, numVerts, t.encodedNorms, t.dataCopied, skip);
      d := VertexData(verts, tverts, norms, BytesAt(alloc.State(), ptr8, numVerts));
    } else {
      ptr32 := alloc.CopyToShape(W32, 3 * numVerts, false);
      d := VertexData(verts, tverts, VectorAt(alloc.State(), ptr32, numVerts, 3, W32), []);
    }
  }

  /** A primitive count, pointers to 2 int16 values (start, count) and one
      int32 material word per primitive, an index count and pointers to the
      int16 indices. */
  function ReadPrimitives(s: ReadState): (r: Read<(seq<Primitive>, seq<Bitwise.Word>)>)
    ensures r.ok && r.state.input == s.input && r.state.c.size == s.c.size && r.state.dest == s.dest && r.state.shape == s.shape
  {
    var (szPrim, s1) := s.Get(W32);
    var (prim16, s2) := s1.GetPointer(W16, szPrim * 2);
    var (prim32, s3) := s2.GetPointer(W32, szPrim);
    var (szInd, s4) := s3.Get(W32);
    var (ind16, s5) := s4.GetPointer(W16, szInd);
    DecodeLength(Count(szPrim) * 2, W16);
    DecodeLength(Count(szPrim), W32);
    DecodeLength(Count(szInd), W16);
    var prims := PrimitivesOf(Decode(s5.Deref(prim16, Count(szPrim) * 2 * 2), W16), Decode(s5.Deref(prim32, Count(szPrim) * 4), W32), Count(szPrim));
    Read((prims, IndicesOf(Decode(s5.Deref(ind16, Count(szInd) * 2), W16))), true, s5)
  }

  /** The primitives widened from 2 int16 values and an int32 word each. */
  function PrimitivesOf(halves: seq<int>, mats: seq<int>, n: nat): (r: seq<Primitive>)
    requires 2 * n <= |halves| && n <= |mats|
    ensures |r| == n
    ensures forall i :: 0 <= i < n ==> r[i].start == halves[2 * i] && r[i].numElements == halves[2 * i + 1] && r[i].matIndex == mats[i]
  {
    seq(n, i requires 0 <= i < n => Primitive(halves[2 * i], halves[2 * i + 1], mats[i]))
  }

  /** The int16 indices, sign-extended into 32-bit unsigned words: read back
      as signed 32-bit values they are the indices again. */
  function IndicesOf(shorts: seq<int>): (r: seq<Bitwise.Word>)
    requires forall i :: 0 <= i < |shorts| ==> InSignedRange(shorts[i], 2)
    ensures |r| == |shorts|
    ensures forall i :: 0 <= i < |r| ==> Signed32(r[i]) == shorts[i]
    ensures forall i :: 0 <= i < |r| ==> r[i] < 0x8000 || 0x1_0000_0000 - 0x8000 <= r[i]
  {
    seq(|shorts|, i requires 0 <= i < |shorts| => Widen(shorts[i]))
  }

  /** `static_cast<int32_t>` of an int16 stored in a `uint32_t`. */
  function Widen(v: int): (w: Bitwise.Word)
    requires InSignedRange(v, 2)
    ensures Signed32(w) == v && (w < 0x8000 || 0x1_0000_0000 - 0x8000 <= w)
  {
    assert HalfRange(2) == 0x8000 by {
      assert Pow256(1) == 0x100 * Pow256(0);
      assert Pow256(2) == 0x100 * Pow256(1);
    }
    if v < 0 then v + 0x1_0000_0000 else v
  }

  /** A 32-bit word read as a signed value. */
  function Signed32(v: Bitwise.Word): int
  {
    if v < 0x8000_0000 then v else v - 0x1_0000_0000
  }

  method AssemblePrimitives(alloc: ITSShapeAlloc) returns (prims: seq<Primitive>, indices: seq<Bitwise.Word>)
    modifies alloc
    ensures Read((prims, indices), true, alloc.State()) == ReadPrimitives(old(alloc.State()))
  {
    var szPrim := alloc.Get(W32);
    var prim16 := alloc.GetPointer(W16, szPrim * 2);
    var prim32 := alloc.GetPointer(W32, szPrim);
    var szInd := alloc.Get(W32);
    var ind16 := alloc.GetPointer(W16, szInd);
    var s := alloc.State();
    DecodeLength(Count(szPrim) * 2, W16);
    DecodeLength(Count(szPrim), W32);
    DecodeLength(Count(szInd), W16);
    prims := BuildPrimitives(Decode(s.Deref(prim16, Count(szPrim) * 2 * 2), W16), Decode(s.Deref(prim32, Count(szPrim) * 4), W32), Count(szPrim));
    indices := BuildIndices(Decode(s.Deref(ind16, Count(szInd) * 2), W16));
  }

  method BuildPrimitives(halves: seq<int>, mats: seq<int>, n: nat) returns (prims: seq<Primitive>)
    requires 2 * n <= |halves| && n <= |mats|
    ensures prims == PrimitivesOf(halves, mats, n)
  {
    prims := [];
    var i := 0;
    while i < n
      invariant 0 <= i <= n && |prims| == i
      invariant forall k :: 0 <= k < i ==> prims[k] == Primitive(halves[2 * k], halves[2 * k + 1], mats[k])
    {
      prims := prims + [Primitive(halves[i * 2], halves[i * 2 + 1], mats[i])];
      i := i + 1;
    }
  }

  method BuildIndices(shorts: seq<int>) returns (indices: seq<Bitwise.Word>)
    requires forall i :: 0 <= i < |shorts| ==> InSignedRange(shorts[i], 2)
    ensures indices == IndicesOf(shorts)
  {
    indices := [];
    var i := 0;
    while i < |shorts|
      invariant 0 <= i <= |shorts| && |indices| == i
      invariant forall k :: 0 <= k < i ==> indices[k] == Widen(shorts[k])
    {
      indices := indices + [Widen(shorts[i])];
      i := i + 1;
    }
  }

  /** The tail: a count of deprecated 16-bit merge indices that are skipped,
      alignment to a word, the vertices per frame, the flag word, a guard. */
  function ReadTail(s: ReadState): (r: Read<(int, Bitwise.Word)>)
    ensures r.state.input == s.input && r.state.c.pos.w32 == s.c.pos.w32 + 4 * 4
  {
    var (sz, s1) := s.Get(W32);
    var (_, s2) := s1.GetPointer(W16, sz);
    var s3 := s2.Align32();
    var (vertsPerFrame, s4) := s3.Get(W32);
    var (flags, s5) := s4.Get(W32);
    var (ok, s6) := s5.CheckGuard();
    Read((vertsPerFrame, flags % 0x1_0000_0000), ok, s6)
  }

  method AssembleTail(alloc: ITSShapeAlloc) returns (vertsPerFrame: int, flags: Bitwise.Word, ok: bool)
    modifies alloc
    ensures Read((vertsPerFrame, flags), ok, alloc.State()) == ReadTail(old(alloc.State()))
  {
    var sz := alloc.Get(W32);
    var _ := alloc.GetPointer(W16, sz);
    alloc.Align32();
    vertsPerFrame := alloc.Get(W32);
    var word := alloc.Get(W32);
    flags := word % 0x1_0000_0000;
    ok := alloc.CheckGuard();
  }

  /** `TSMesh::Assemble` into a fresh mesh whose mesh_type_ is typeCode (the
      constructor's): the head, the vertex arrays, the primitives, the tail,
      with the flag word ORed into mesh_type_. ok says whether both guards
      matched. */
  function ReadMesh(s: ReadState, version: int, skip: bool, t: Scratch, typeCode: Bitwise.Word): (r: Read<Mesh>)
    ensures r.value.parent == ReadHeader(s).value.parent && r.value.extra == Standard
    ensures version <= 21 ==> r.value.encodedNorms == []
    ensures r.state.input == s.input
  {
    var h := ReadHeader(s);
    var d := ReadVertexData(h.state, h.value.parent, version, skip, t);
    var p := ReadPrimitives(d.state);
    var tail := ReadTail(p.state);
    var m := Mesh(SetFlags(typeCode, tail.value.1), h.value.parent, h.value.numFrames, h.value.numMatFrames, tail.value.0,
                  h.value.bounds, h.value.center, h.value.radius,
                  d.value.verts, d.value.tverts, d.value.norms, d.value.encodedNorms,
                  p.value.0, p.value.1, Standard);
    Read(m, h.ok && tail.ok, tail.state)
  }

  method Assemble(alloc: ITSShapeAlloc, version: int, skip: bool, t: Scratch, typeCode: Bitwise.Word) returns (m: Mesh, ok: bool)
    modifies alloc
    ensures Read(m, ok, alloc.State()) == ReadMesh(old(alloc.State()), version, skip, t, typeCode)
  {
    var h, ok1 := AssembleHeader(alloc);
    var d := AssembleVertexData(alloc, h.parent, version, skip, t);
    var prims, indices := AssemblePrimitives(alloc);
    var vertsPerFrame, flags, ok2 := AssembleTail(alloc);
    m := Mesh(SetFlags(typeCode, flags), h.parent, h.numFrames, h.numMatFrames, vertsPerFrame,
              h.bounds, h.center, h.radius, d.verts, d.tverts, d.norms, d.encodedNorms,
              prims, indices, Standard);
    ok := ok1 && ok2;
  }

  // ---------------------------------------------------------------------
  // TSSkinMesh::Assemble
  // ---------------------------------------------------------------------

  /** After the base mesh: the initial vertices and, after version 21,
      normals and encoded normals through the sharing rule (the encoded
      normals replace the base mesh's); before it 3 normal words per vertex
      copied and no encoded normals. */
  function ReadSkinVertices(s: ReadState, parent: int, version: int, skip: bool, t: Scratch): (r: Read<(seq<int>, seq<int>, seq<byte>)>)
    ensures version <= 21 ==> r.value.2 == []
    ensures r.ok && r.state.input == s.input && r.state.c.guard == s.c.guard
  {
    var (numVerts, s1) := s.Get(W32);
    var (pv, s2) := SharedData(s1, W32, parent, 3 * numVerts, t.verts, t.dataCopied, skip);
    var initialVerts := VectorAt(s2, pv, numVerts, 3, W32);
    if version > 21 then
      var (pn, s3) := SharedData(s2, W32, parent, 3 * numVerts, t.norms, t.dataCopied, skip);
      var norms := VectorAt(s3, pn, numVerts, 3, W32);
      var (pe, s4) := SharedData(s3, W8, parent, numVerts, t.encodedNorms, t.dataCopied, skip);
      Read((initialVerts, norms, BytesAt(s4, pe, numVerts)), true, s4)
    else
      var (pn, s3) := s2.CopyToShape(W32, 3 * numVerts, false);
      Read((initialVerts, VectorAt(s3, pn, numVerts, 3, W32), []), true, s3)
  }

  method AssembleSkinVertices(alloc: ITSShapeAlloc, parent: int, version: int, skip: bool, t: Scratch)
    returns (initialVerts: seq<int>, initialNorms: seq<int>, codes: seq<byte>)
    modifies alloc
    ensures Read((initialVerts, initialNorms, codes), true, alloc.State()) == ReadSkinVertices(old(alloc.State()), parent, version, skip, t)
  {
    var numVerts := alloc.Get(W32);
    var ptr32 := GetSharedData(alloc, W32, parent, 3 * numVerts, t.verts, t.dataCopied, skip);
    initialVerts := VectorAt(alloc.State(), ptr32, numVerts, 3, W32);
    if version > 21 {
      ptr32 := GetSharedData(alloc, W32, parent, 3 * numVerts, t.norms, t.dataCopied, skip);
      initialNorms := VectorAt(alloc.State(), ptr32, numVerts, 3, W32);
      var ptr8 := GetSharedData(alloc, W8, parent, numVerts, t.encodedNorms, t.dataCopied, skip);
      codes := BytesAt(alloc.State(), ptr8, numVerts);
    } else {
      ptr32 := alloc.CopyToShape(W32, 3 * numVerts, false);
      initialNorms := VectorAt(alloc.State(), ptr32, numVerts, 3, W32);
      codes := [];
    }
  }

  /** The skin lists: the initial transforms (16 words each), one count
      shared by the vertex-index, bone-index and weight arrays, the node
      indices, each through the sharing rule, and a guard. */
  function ReadSkinLists(s: ReadState, parent: int, skip: bool, t: Scratch): (r: Read<(seq<int>, seq<int>, seq<int>, seq<int>, seq<int>)>)
    ensures r.state.input == s.input
  {
    var (numTransforms, s5) := s.Get(W32);
    var (pt, s6) := SharedData(s5, W32, parent, 16 * numTransforms, t.initTransforms, t.dataCopied, skip);
    var transforms := VectorAt(s6, pt, numTransforms, 16, W32);
    var (sz, s7) := s6.Get(W32);
    var (pvi, s8) := SharedData(s7, W32, parent, sz, t.vertexIndex, t.dataCopied, skip);
    var vertexIndex := VectorAt(s8, pvi, sz, 1, W32);
    var (pbi, s9) := SharedData(s8, W32, parent, sz, t.boneIndex, t.dataCopied, skip);
    var boneIndex := VectorAt(s9, pbi, sz, 1, W32);
    var (pw, s10) := SharedData(s9, W32, parent, sz, t.weight, t.dataCopied, skip);
    var weight := VectorAt(s10, pw, sz, 1, W32);
    var (numNodes, s11) := s10.Get(W32);
    var (pni, s12) := SharedData(s11, W32, parent, numNodes, t.nodeIndex, t.dataCopied, skip);
    var nodeIndex := VectorAt(s12, pni, numNodes, 1, W32);
    var (ok, s13) := s12.CheckGuard();
    Read((transforms, vertexIndex, boneIndex, weight, nodeIndex), ok, s13)
  }

  method AssembleSkinLists(alloc: ITSShapeAlloc, parent: int, skip: bool, t: Scratch)
    returns (transforms: seq<int>, vertexIndex: seq<int>, boneIndex: seq<int>, weight: seq<int>, nodeIndex: seq<int>, ok: bool)
    modifies alloc
    ensures Read((transforms, vertexIndex, boneIndex, weight, nodeIndex), ok, alloc.State()) == ReadSkinLists(old(alloc.State()), parent, skip, t)
  {
    var numTransforms := alloc.Get(W32);
    var ptr32 := GetSharedData(alloc, W32, parent, 16 * numTransforms, t.initTransforms, t.dataCopied, skip);
    transforms := VectorAt(alloc.State(), ptr32, numTransforms, 16, W32);
    var sz := alloc.Get(W32);
    ptr32 := GetSharedData(alloc, W32, parent, sz, t.vertexIndex, t.dataCopied, skip);
    vertexIndex := VectorAt(alloc.State(), ptr32, sz, 1, W32);
    ptr32 := GetSharedData(alloc, W32, parent, sz, t.boneIndex, t.dataCopied, skip);
    boneIndex := VectorAt(alloc.State(), ptr32, sz, 1, W32);
    ptr32 := GetSharedData(alloc, W32, parent, sz, t.weight, t.dataCopied, skip);
    weight := VectorAt(alloc.State(), ptr32, sz, 1, W32);
    var numNodes := alloc.Get(W32);
    ptr32 := GetSharedData(alloc, W32, parent, numNodes, t.nodeIndex, t.dataCopied, skip);
    nodeIndex := VectorAt(alloc.State(), ptr32, numNodes, 1, W32);
    ok := alloc.CheckGuard();
  }

  /** `TSSkinMesh::Assemble`: the base mesh, then the skin arrays. */
  function ReadSkinMesh(s: ReadState, version: int, skip: bool, t: Scratch): (r: Read<Mesh>)
    ensures r.value.parent == ReadHeader(s).value.parent && r.value.extra.Skin?
    ensures version <= 21 ==> r.value.encodedNorms == []
    ensures r.state.input == s.input
  {
    SkinAfter(ReadMesh(s, version, skip, t, SkinMeshType), version, skip, t)
  }

  /** The skin section after a base mesh. */
  function SkinAfter(base: Read<Mesh>, version: int, skip: bool, t: Scratch): (r: Read<Mesh>)
  {
    var s := base.state;
    var parent := base.value.parent;
    var v := ReadSkinVertices(s, parent, version, skip, t);
    var l := ReadSkinLists(v.state, parent, skip, t);
    var (initialVerts, initialNorms, codes) := v.value;
    var (transforms, vertexIndex, boneIndex, weight, nodeIndex) := l.value;
    var skin := SkinData(initialVerts, initialNorms, transforms, vertexIndex, boneIndex, weight, nodeIndex);
    Read(base.value.(encodedNorms := codes, extra := Skin(skin)), base.ok && l.ok, l.state)
  }

  method AssembleSkin(alloc: ITSShapeAlloc, version: int, skip: bool, t: Scratch) returns (m: Mesh, ok: bool)
    modifies alloc
    ensures Read(m, ok, alloc.State()) == ReadSkinMesh(old(alloc.State()), version, skip, t)
  {
    var base, ok1 := Assemble(alloc, version, skip, t, SkinMeshType);
    m, ok := AssembleSkinAfter(alloc, base, ok1, version, skip, t);
  }

  /** The skin section, after base was read with the guard outcome ok0. */
  method AssembleSkinAfter(alloc: ITSShapeAlloc, base: Mesh, ok0: bool, version: int, skip: bool, t: Scratch) returns (m: Mesh, ok: bool)
    modifies alloc
    ensures Read(m, ok, alloc.State()) == SkinAfter(Read(base, ok0, old(alloc.State())), version, skip, t)
  {
    var initialVerts, initialNorms, codes := AssembleSkinVertices(alloc, base.parent, version, skip, t);
    var transforms, vertexIndex, boneIndex, weight, nodeIndex, ok2 := AssembleSkinLists(alloc, base.parent, skip, t);
    var skin := SkinData(initialVerts, initialNorms, transforms, vertexIndex, boneIndex, weight, nodeIndex);
    m := base.(encodedNorms := codes, extra := Skin(skin));
    ok := ok0 && ok2;
  }

  // ---------------------------------------------------------------------
  // TSMesh::Disassemble
  // ---------------------------------------------------------------------

  /** The 32-bit head: frame counts, parent, bounds, center and the radius
      converted to an integer. */
  function Header32(m: Mesh): (ws: seq<int>)
    ensures |ws| == 13
  {
    [Wrap(m.numFrames, 4)] + [Wrap(m.numMatFrames, 4)] + [Wrap(m.parent, 4)]
      + Copied(Some(m.bounds), 6) + Copied(Some(m.center), 3) + [Wrap(Float32.TruncToInt(m.radius), 4)]
  }

  /** The 32-bit vertex data: the vertex count and, without a parent, the
      vertices; the texture vertex count and, without a parent, the texture
      vertices; without a parent, the normals. */
  function Vertex32(m: Mesh): (ws: seq<int>)
    ensures m.parent >= 0 ==> |ws| == 2
    ensures m.parent < 0 ==> |ws| == 2 + 3 * (|m.verts| / 3) + 2 * (|m.tverts| / 2) + 3 * (|m.norms| / 3)
  {
    if m.parent < 0 then
      [Wrap(|m.verts| / 3, 4)] + Copied(Vector.Address(m.verts), 3 * (|m.verts| / 3))
        + [Wrap(|m.tverts| / 2, 4)] + Copied(Vector.Address(m.tverts), 2 * (|m.tverts| / 2))
        + Copied(Vector.Address(m.norms), 3 * (|m.norms| / 3))
    else
      [Wrap(|m.verts| / 3, 4)] + [Wrap(|m.tverts| / 2, 4)]
  }

  /** The code of normal i: the stored one when the mesh has encoded normals
      (zero past their end), else the nearest codebook entry by dot. */
  function CodeOf(m: Mesh, i: nat, dot: (seq<int>, Normals.Normal) -> real): byte
    requires 3 * i + 3 <= |m.norms|
  {
    if |m.encodedNorms| > 0 then
      (if i < |m.encodedNorms| then m.encodedNorms[i] else 0)
    else
      Normals.Encoded(Normals.Dots(n => dot(m.norms[3 * i .. 3 * i + 3], n)))
  }

  /** The codes of the first n normals, stored through an int8 pointer. */
  function CodesUpTo(m: Mesh, n: nat, dot: (seq<int>, Normals.Normal) -> real): (cs: seq<int>)
    requires 3 * n <= |m.norms|
    ensures |cs| == n
  {
    if n == 0 then [] else CodesUpTo(m, n - 1, dot) + [AsInt8(CodeOf(m, n - 1, dot))]
  }

  /** The 8-bit entries: without a parent, one code per normal. */
  function Codes(m: Mesh, dot: (seq<int>, Normals.Normal) -> real): (cs: seq<int>)
    ensures m.parent >= 0 ==> cs == []
    ensures m.parent < 0 ==> |cs| == |m.norms| / 3
  {
    if m.parent >= 0 then [] else CodesUpTo(m, |m.norms| / 3, dot)
  }

  /** Entry i of the codes holds the bit pattern of the code of normal i. */
  lemma {:induction false} CodesUpToAt(m: Mesh, n: nat, dot: (seq<int>, Normals.Normal) -> real, i: nat)
    requires 3 * n <= |m.norms| && i < n
    ensures LeBytes(CodesUpTo(m, n, dot)[i], 1) == [CodeOf(m, i, dot)]
  {
    if i < n - 1 {
      CodesUpToAt(m, n - 1, dot, i);
    }
  }

  /** A uint8 read through an int8 pointer. */
  function AsInt8(code: byte): (v: int)
    ensures InSignedRange(v, 1) && Wrap(v, 1) == v
    ensures LeBytes(v, 1) == [code]
  {
    var v := if code < 0x80 then code else code - 0x100;
    assert HalfRange(1) == 0x80 by { assert Pow256(1) == 0x100 * Pow256(0); }
    WrapProperties(v, 1);
    assert LeBytes(v, 1) == [LowByte(v)] + LeBytes(v / 0x100, 0);
    v
  }

  /** The material word of each primitive. */
  function Mats(prims: seq<Primitive>): (ws: seq<int>)
    ensures |ws| == |prims|
  {
    if |prims| == 0 then [] else Mats(prims[..|prims| - 1]) + [prims[|prims| - 1].matIndex]
  }

  /** Start and element count of each primitive, truncated to int16. */
  function Halves(prims: seq<Primitive>): (ws: seq<int>)
    ensures |ws| == 2 * |prims|
  {
    if |prims| == 0 then [] else
    var p := prims[|prims| - 1];
    Halves(prims[..|prims| - 1]) + [Wrap(p.start, 2)] + [Wrap(p.numElements, 2)]
  }

  /** Every index truncated to int16. */
  function Shorts(indices: seq<Bitwise.Word>): (ws: seq<int>)
    ensures |ws| == |indices|
  {
    if |indices| == 0 then [] else Shorts(indices[..|indices| - 1]) + [Wrap(indices[|indices| - 1], 2)]
  }

  /** The primitive count, one material word per primitive and the index
      count, in the 32-bit buffer. */
  function Prim32(m: Mesh): (ws: seq<int>)
    ensures |ws| == |m.primitives| + 2
  {
    [Wrap(|m.primitives|, 4)] + Mats(m.primitives) + [Wrap(|m.indices|, 4)]
  }

  /** The primitive halves, then the indices, in the 16-bit buffer. */
  function Prim16(m: Mesh): (ws: seq<int>)
    ensures |ws| == 2 * |m.primitives| + |m.indices|
  {
    Halves(m.primitives) + Shorts(m.indices)
  }

  /** The tail: the deprecated merge-index count 0, the vertices per frame
      and the whole of mesh_type_. */
  function Tail32(m: Mesh): (ws: seq<int>)
    ensures ws == [0] + [Wrap(m.vertsPerFrame, 4)] + [Wrap(m.meshType, 4)]
  {
    GetAllFlags(m.meshType);
    [0] + [Wrap(m.vertsPerFrame, 4)] + [Wrap(GetFlags(m.meshType, 0xFFFF_FFFF), 4)]
  }

  /** Everything `TSMesh::Disassemble` appends, given the guard counters it
      starts from. */
  function MeshEntries(m: Mesh, g: PerWidth<int>, dot: (seq<int>, Normals.Normal) -> real): PerWidth<seq<int>>
  {
    Framed(g, Header32(m) + Vertex32(m), Codes(m, dot), Prim32(m), Prim16(m), Tail32(m))
  }

  /** A guard, the head and vertex words, the codes, the primitive words of
      both widths, the tail words, the next guard, in the order they are
      appended. */
  function Framed(g: PerWidth<int>, head: seq<int>, codes: seq<int>, p32: seq<int>, p16: seq<int>, tail: seq<int>): PerWidth<seq<int>>
  {
    Appended(Appended(Appended(Appended(Appended(Appended(
      GuardEntries(g), Only(W32, head)), Only(W8, codes)),
      Only(W32, p32)), Only(W16, p16)), Only(W32, tail)), GuardEntries(NextGuards(g)))
  }

  /** Each buffer opens and closes with a guard and holds its own entries in
      between, in order. */
  lemma FramedLayout(g: PerWidth<int>, head: seq<int>, codes: seq<int>, p32: seq<int>, p16: seq<int>, tail: seq<int>)
    ensures Framed(g, head, codes, p32, p16, tail) ==
      PerWidth([g.w32] + head + p32 + tail + [NextGuards(g).w32], [g.w16] + p16 + [NextGuards(g).w16], [g.w8] + codes + [NextGuards(g).w8])
  {
    var f := Framed(g, head, codes, p32, p16, tail);
    var n := NextGuards(g);
    assert f.w32 == [g.w32] + head + [] + p32 + [] + tail + [n.w32];
    assert f.w16 == [g.w16] + [] + [] + [] + p16 + [] + [n.w16];
    assert f.w8 == [g.w8] + [] + codes + [] + [] + [] + [n.w8];
    var a := [g.w32] + head;
    assert a + [] == a;
    var b := a + p32;
    assert b + [] == b;
    assert [g.w16] + [] + [] + [] == [g.w16];
    var p := [g.w16] + p16;
    assert p + [] == p;
    var d := [g.w8] + [] + codes;
    assert d == [g.w8] + codes;
    assert d + [] + [] + [] == d;
  }

  /** The three buffers written for a mesh, width by width: each opens and
      closes with a guard, and between them hold the head, the vertex data,
      the primitives and the tail (32-bit), the primitive halves and indices
      (16-bit), the normal codes (8-bit). */
  lemma MeshEntriesLayout(m: Mesh, g: PerWidth<int>, dot: (seq<int>, Normals.Normal) -> real)
    ensures MeshEntries(m, g, dot).w32 == [g.w32] + (Header32(m) + Vertex32(m)) + Prim32(m) + Tail32(m) + [NextGuards(g).w32]
    ensures MeshEntries(m, g, dot).w16 == [g.w16] + Prim16(m) + [NextGuards(g).w16]
    ensures MeshEntries(m, g, dot).w8 == [g.w8] + Codes(m, dot) + [NextGuards(g).w8]
  {
    FramedLayout(g, Header32(m) + Vertex32(m), Codes(m, dot), Prim32(m), Prim16(m), Tail32(m));
  }

  /** `TSMesh::Disassemble`. */
  method Disassemble(out: OTSShapeAlloc, m: Mesh, dot: (seq<int>, Normals.Normal) -> real)
    requires out.Valid() && GuardsFit(out.guard)
    modifies out
    ensures out.Valid() && GuardsFit(out.guard)
    ensures out.buffer == Appended(old(out.buffer), MeshEntries(m, old(out.guard), dot))
    ensures out.guard == NextGuards(NextGuards(old(out.guard)))
  {
    ghost var b0 := out.buffer;
    ghost var g := out.guard;
    out.SetGuard();
    ghost var e := GuardEntries(g);
    PutHeader(out, m);
    PutVertices(out, m);
    AppendedTwice(Appended(b0, e), W32, Header32(m), Vertex32(m));
    AppendedAssoc(b0, e, Only(W32, Header32(m) + Vertex32(m)));
    e := Appended(e, Only(W32, Header32(m) + Vertex32(m)));
    PutCodes(out, m, dot);
    AppendedAssoc(b0, e, Only(W8, Codes(m, dot)));
    e := Appended(e, Only(W8, Codes(m, dot)));
    PutPrimitives(out, m);
    AppendedAssoc(b0, e, Only(W32, Prim32(m)));
    e := Appended(e, Only(W32, Prim32(m)));
    AppendedAssoc(b0, e, Only(W16, Prim16(m)));
    e := Appended(e, Only(W16, Prim16(m)));
    PutTail(out, m);
    AppendedAssoc(b0, e, Only(W32, Tail32(m)));
    e := Appended(e, Only(W32, Tail32(m)));
    out.SetGuard();
    AppendedAssoc(b0, e, GuardEntries(NextGuards(g)));
  }

  method PutHeader(out: OTSShapeAlloc, m: Mesh)
    requires out.Valid()
    modifies out
    ensures out.Valid() && out.guard == old(out.guard)
    ensures out.buffer == Appended(old(out.buffer), Only(W32, Header32(m)))
  {
    ghost var b := out.buffer;
    var a := out.Set(W32, m.numFrames);
    ghost var ws := [a];
    var c := out.Set(W32, m.numMatFrames);
    AppendedTwice(b, W32, ws, [c]);
    ws := ws + [c];
    var d := out.Set(W32, m.parent);
    AppendedTwice(b, W32, ws, [d]);
    ws := ws + [d];
    out.CopyToBuffer(W32, Some(m.bounds), 6);
    AppendedTwice(b, W32, ws, Copied(Some(m.bounds), 6));
    ws := ws + Copied(Some(m.bounds), 6);
    out.CopyToBuffer(W32, Some(m.center), 3);
    AppendedTwice(b, W32, ws, Copied(Some(m.center), 3));
    ws := ws + Copied(Some(m.center), 3);
    var r := out.Set(W32, Float32.TruncToInt(m.radius));
    AppendedTwice(b, W32, ws, [r]);
    ws := ws + [r];
    assert ws == Header32(m);
  }

  method PutVertices(out: OTSShapeAlloc, m: Mesh)
    requires out.Valid()
    modifies out
    ensures out.Valid() && out.guard == old(out.guard)
    ensures out.buffer == Appended(old(out.buffer), Only(W32, Vertex32(m)))
  {
    ghost var b := out.buffer;
    var nv := out.Set(W32, |m.verts| / 3);
    ghost var ws := [nv];
    if m.parent < 0 {
      out.CopyToBuffer(W32, Vector.Address(m.verts), 3 * (|m.verts| / 3));
      AppendedTwice(b, W32, ws, Copied(Vector.Address(m.verts), 3 * (|m.verts| / 3)));
      ws := ws + Copied(Vector.Address(m.verts), 3 * (|m.verts| / 3));
    }
    var nt := out.Set(W32, |m.tverts| / 2);
    AppendedTwice(b, W32, ws, [nt]);
    ws := ws + [nt];
    if m.parent < 0 {
      out.CopyToBuffer(W32, Vector.Address(m.tverts), 2 * (|m.tverts| / 2));
      AppendedTwice(b, W32, ws, Copied(Vector.Address(m.tverts), 2 * (|m.tverts| / 2)));
      ws := ws + Copied(Vector.Address(m.tverts), 2 * (|m.tverts| / 2));
    }
    if m.parent < 0 {
      out.CopyToBuffer(W32, Vector.Address(m.norms), 3 * (|m.norms| / 3));
      AppendedTwice(b, W32, ws, Copied(Vector.Address(m.norms), 3 * (|m.norms| / 3)));
      ws := ws + Copied(Vector.Address(m.norms), 3 * (|m.norms| / 3));
    }
    assert ws == Vertex32(m);
  }

  method PutCodes(out: OTSShapeAlloc, m: Mesh, dot: (seq<int>, Normals.Normal) -> real)
    requires out.Valid()
    modifies out
    ensures out.Valid() && out.guard == old(out.guard)
    ensures out.buffer == Appended(old(out.buffer), Only(W8, Codes(m, dot)))
  {
    ghost var b := out.buffer;
    AppendedOnly(b, W8, []);
    assert b.w8 + [] == b.w8;
    if m.parent < 0 {
      var i := 0;
      while i < |m.norms| / 3
        invariant 0 <= i <= |m.norms| / 3
        invariant out.Valid() && out.guard == old(out.guard)
        invariant out.buffer == Appended(b, Only(W8, CodesUpTo(m, i, dot)))
      {
        var code := NormalCode(m, i, dot);
        out.CopyToBuffer(W8, Some([AsInt8(code)]), 1);
        AppendedTwice(b, W8, CodesUpTo(m, i, dot), Copied(Some([AsInt8(code)]), 1));
        assert Copied(Some([AsInt8(code)]), 1) == [AsInt8(CodeOf(m, i, dot))];
        i := i + 1;
      }
    }
  }

  /** `encoded_norms_.size() ? encoded_norms_[i] : EncodeNormal(norms_[i])`. */
  method NormalCode(m: Mesh, i: nat, dot: (seq<int>, Normals.Normal) -> real) returns (code: byte)
    requires 3 * i + 3 <= |m.norms|
    ensures code == CodeOf(m, i, dot)
  {
    if |m.encodedNorms| > 0 {
      code := if i < |m.encodedNorms| then m.encodedNorms[i] else 0;
    } else {
      code := Normals.EncodeNormal(Normals.Dots(n => dot(m.norms[3 * i .. 3 * i + 3], n)));
    }
  }

  method PutPrimitives(out: OTSShapeAlloc, m: Mesh)
    requires out.Valid()
    modifies out
    ensures out.Valid() && out.guard == old(out.guard)
    ensures out.buffer == Appended(Appended(old(out.buffer), Only(W32, Prim32(m))), Only(W16, Prim16(m)))
  {
    ghost var b := out.buffer;
    var n := out.Set(W32, |m.primitives|);
    AppendedNothing(out.buffer, W16);
    assert [n] + Mats(m.primitives[..0]) == [n];
    var i := 0;
    while i < |m.primitives|
      invariant 0 <= i <= |m.primitives|
      invariant out.Valid() && out.guard == old(out.guard)
      invariant out.buffer == Appended(Appended(b, Only(W32, [n] + Mats(m.primitives[..i]))), Only(W16, Halves(m.primitives[..i])))
    {
      var p := m.primitives[i];
      ghost var mats := [n] + Mats(m.primitives[..i]);
      ghost var halves := Halves(m.primitives[..i]);
      ghost var b32 := Appended(b, Only(W32, mats));
      out.CopyToBuffer(W16, Some([Wrap(p.start, 2)]), 1);
      CopiedOne(Wrap(p.start, 2));
      AppendedTwice(b32, W16, halves, [Wrap(p.start, 2)]);
      out.CopyToBuffer(W16, Some([Wrap(p.numElements, 2)]), 1);
      CopiedOne(Wrap(p.numElements, 2));
      AppendedTwice(b32, W16, halves + [Wrap(p.start, 2)], [Wrap(p.numElements, 2)]);
      out.CopyToBuffer(W32, Some([p.matIndex]), 1);
      CopiedOne(p.matIndex);
      AppendedCommute(b32, W16, halves + [Wrap(p.start, 2)] + [Wrap(p.numElements, 2)], W32, [p.matIndex]);
      AppendedTwice(b, W32, mats, [p.matIndex]);
      ghost var next := m.primitives[..i + 1];
      assert next[..|next| - 1] == m.primitives[..i] && next[|next| - 1] == p;
      assert Halves(next) == halves + [Wrap(p.start, 2)] + [Wrap(p.numElements, 2)];
      assert Mats(next) == Mats(m.primitives[..i]) + [p.matIndex];
      SeqAssoc([n], Mats(m.primitives[..i]), [p.matIndex]);
      i := i + 1;
    }
    assert m.primitives[..|m.primitives|] == m.primitives;
    ghost var mats := [n] + Mats(m.primitives);
    var k := out.Set(W32, |m.indices|);
    AppendedCommute(Appended(b, Only(W32, mats)), W16, Halves(m.primitives), W32, [k]);
    AppendedTwice(b, W32, mats, [k]);
    var shorts := Truncated(m.indices);
    out.CopyToBuffer(W16, Vector.Address(shorts), |shorts|);
    CopiedAll(shorts);
    AppendedTwice(Appended(b, Only(W32, Prim32(m))), W16, Halves(m.primitives), shorts);
  }

  lemma CopiedOne(x: int)
    ensures Copied(Some([x]), 1) == [x]
  {
  }

  lemma SeqAssoc(a: seq<int>, b: seq<int>, c: seq<int>)
    ensures (a + b) + c == a + (b + c)
  {
  }

  /** Copying all of a vector appends exactly its elements. */
  lemma CopiedAll(v: seq<int>)
    ensures Copied(Vector.Address(v), |v|) == v
  {
  }

  /** `static_cast<int16_t>` of every index. */
  method Truncated(indices: seq<Bitwise.Word>) returns (shorts: seq<int>)
    ensures shorts == Shorts(indices)
  {
    shorts := [];
    var i := 0;
    while i < |indices|
      invariant 0 <= i <= |indices|
      invariant shorts == Shorts(indices[..i])
    {
      assert indices[..i + 1][..i] == indices[..i];
      shorts := shorts + [Wrap(indices[i], 2)];
      i := i + 1;
    }
    assert indices[..|indices|] == indices;
  }

  method PutTail(out: OTSShapeAlloc, m: Mesh)
    requires out.Valid()
    modifies out
    ensures out.Valid() && out.guard == old(out.guard)
    ensures out.buffer == Appended(old(out.buffer), Only(W32, Tail32(m)))
  {
    ghost var b := out.buffer;
    var z := out.Set(W32, 0);
    var v := out.Set(W32, m.vertsPerFrame);
    AppendedTwice(b, W32, [z], [v]);
    GetAllFlags(m.meshType);
    var f := out.Set(W32, GetFlags(m.meshType, 0xFFFF_FFFF));
    AppendedTwice(b, W32, [z] + [v], [f]);
    WrapProperties(0, 4);
  }

  // ---------------------------------------------------------------------
  // TSSkinMesh::Disassemble and CopySourceVertexDataFrom
  // ---------------------------------------------------------------------

  /** The 32-bit skin entries: the initial-vertex count; without a parent
      the vertices and normals of the base mesh (verts_ and norms_, not the
      initial arrays); the transform count and, without a parent, the
      transforms; the vertex-index count and, without a parent, the vertex
      indices, bone indices and weights, each as long as its own array; the
      node-index count and, without a parent, the node indices. */
  function Skin32(m: Mesh): (ws: seq<int>)
    requires m.extra.Skin?
  {
    var k := m.extra.skin;
    if m.parent < 0 then
      [Wrap(|k.initialVerts| / 3, 4)]
        + Copied(Vector.Address(m.verts), 3 * (|m.verts| / 3)) + Copied(Vector.Address(m.norms), 3 * (|m.norms| / 3))
        + [Wrap(|k.initialTransforms| / 16, 4)] + Copied(Vector.Address(k.initialTransforms), |k.initialTransforms| / 16 * 16)
        + [Wrap(|k.vertexIndex|, 4)] + Copied(Vector.Address(k.vertexIndex), |k.vertexIndex|)
        + Copied(Vector.Address(k.boneIndex), |k.boneIndex|) + Copied(Vector.Address(k.weight), |k.weight|)
        + [Wrap(|k.nodeIndex|, 4)] + Copied(Vector.Address(k.nodeIndex), |k.nodeIndex|)
    else
      [Wrap(|k.initialVerts| / 3, 4)] + [Wrap(|k.initialTransforms| / 16, 4)] + [Wrap(|k.vertexIndex|, 4)] + [Wrap(|k.nodeIndex|, 4)]
  }

  /** The skin entries count each array by its own size: the head of the
      32-bit entries is the initial-vertex count and, with a parent, nothing
      but the four counts is written. */
  lemma Skin32Counts(m: Mesh)
    requires m.extra.Skin?
    ensures Skin32(m)[0] == Wrap(|m.extra.skin.initialVerts| / 3, 4)
    ensures m.parent >= 0 ==> |Skin32(m)| == 4
    ensures m.parent < 0 ==> (|Skin32(m)| == 4 + 3 * (|m.verts| / 3) + 3 * (|m.norms| / 3)
      + |m.extra.skin.initialTransforms| / 16 * 16 + |m.extra.skin.vertexIndex| + |m.extra.skin.boneIndex|
      + |m.extra.skin.weight| + |m.extra.skin.nodeIndex|)
  {
  }

  /** Everything `TSSkinMesh::Disassemble` appends: the base mesh, the skin
      entries with the normal codes written a second time, a guard. */
  function SkinEntries(m: Mesh, g: PerWidth<int>, dot: (seq<int>, Normals.Normal) -> real): PerWidth<seq<int>>
    requires m.extra.Skin?
  {
    var g2 := NextGuards(NextGuards(g));
    Appended(Appended(Appended(MeshEntries(m, g, dot), Only(W32, Skin32(m))), Only(W8, Codes(m, dot))), GuardEntries(g2))
  }

  /** `TSSkinMesh::Disassemble`. */
  method DisassembleSkin(out: OTSShapeAlloc, m: Mesh, dot: (seq<int>, Normals.Normal) -> real)
    requires m.extra.Skin?
    requires out.Valid() && GuardsFit(out.guard)
    modifies out
    ensures out.Valid() && GuardsFit(out.guard)
    ensures out.buffer == Appended(old(out.buffer), SkinEntries(m, old(out.guard), dot))
    ensures out.guard == NextGuards(NextGuards(NextGuards(old(out.guard))))
  {
    ghost var b0 := out.buffer;
    ghost var g := out.guard;
    Disassemble(out, m, dot);
    ghost var e := MeshEntries(m, g, dot);
    PutSkin(out, m);
    AppendedAssoc(b0, e, Only(W32, Skin32(m)));
    e := Appended(e, Only(W32, Skin32(m)));
    PutCodes(out, m, dot);
    AppendedAssoc(b0, e, Only(W8, Codes(m, dot)));
    e := Appended(e, Only(W8, Codes(m, dot)));
    out.SetGuard();
    AppendedAssoc(b0, e, GuardEntries(NextGuards(NextGuards(g))));
  }

  method PutSkin(out: OTSShapeAlloc, m: Mesh)
    requires m.extra.Skin?
    requires out.Valid()
    modifies out
    ensures out.Valid() && out.guard == old(out.guard)
    ensures out.buffer == Appended(old(out.buffer), Only(W32, Skin32(m)))
  {
    var k := m.extra.skin;
    ghost var b := out.buffer;
    var n := out.Set(W32, |k.initialVerts| / 3);
    ghost var ws := [n];
    if m.parent < 0 {
      out.CopyToBuffer(W32, Vector.Address(m.verts), 3 * (|m.verts| / 3));
      AppendedTwice(b, W32, ws, Copied(Vector.Address(m.verts), 3 * (|m.verts| / 3)));
      ws := ws + Copied(Vector.Address(m.verts), 3 * (|m.verts| / 3));
      out.CopyToBuffer(W32, Vector.Address(m.norms), 3 * (|m.norms| / 3));
      AppendedTwice(b, W32, ws, Copied(Vector.Address(m.norms), 3 * (|m.norms| / 3)));
      ws := ws + Copied(Vector.Address(m.norms), 3 * (|m.norms| / 3));
    }
    n := out.Set(W32, |k.initialTransforms| / 16);
    AppendedTwice(b, W32, ws, [n]);
    ws := ws + [n];
    if m.parent < 0 {
      out.CopyToBuffer(W32, Vector.Address(k.initialTransforms), |k.initialTransforms| / 16 * 16);
      AppendedTwice(b, W32, ws, Copied(Vector.Address(k.initialTransforms), |k.initialTransforms| / 16 * 16));
      ws := ws + Copied(Vector.Address(k.initialTransforms), |k.initialTransforms| / 16 * 16);
    }
    n := out.Set(W32, |k.vertexIndex|);
    AppendedTwice(b, W32, ws, [n]);
    ws := ws + [n];
    if m.parent < 0 {
      out.CopyToBuffer(W32, Vector.Address(k.vertexIndex), |k.vertexIndex|);
      AppendedTwice(b, W32, ws, Copied(Vector.Address(k.vertexIndex), |k.vertexIndex|));
      ws := ws + Copied(Vector.Address(k.vertexIndex), |k.vertexIndex|);
      out.CopyToBuffer(W32, Vector.Address(k.boneIndex), |k.boneIndex|);
      AppendedTwice(b, W32, ws, Copied(Vector.Address(k.boneIndex), |k.boneIndex|));
      ws := ws + Copied(Vector.Address(k.boneIndex), |k.boneIndex|);
      out.CopyToBuffer(W32, Vector.Address(k.weight), |k.weight|);
      AppendedTwice(b, W32, ws, Copied(Vector.Address(k.weight), |k.weight|));
      ws := ws + Copied(Vector.Address(k.weight), |k.weight|);
    }
    n := out.Set(W32, |k.nodeIndex|);
    AppendedTwice(b, W32, ws, [n]);
    ws := ws + [n];
    if m.parent < 0 {
      out.CopyToBuffer(W32, Vector.Address(k.nodeIndex), |k.nodeIndex|);
      AppendedTwice(b, W32, ws, Copied(Vector.Address(k.nodeIndex), |k.nodeIndex|));
      ws := ws + Copied(Vector.Address(k.nodeIndex), |k.nodeIndex|);
    }
    assert ws == Skin32(m);
  }

  /** `TSMesh::CopySourceVertexDataFrom`: the vertices, texture vertices and
      normals of src; for a skin mesh also, when src is a skin mesh, its
      weights, bone indices and vertex indices. Nothing else changes. */
  function CopySourceVertexData(m: Mesh, src: Mesh): (r: Mesh)
    ensures r.verts == src.verts && r.tverts == src.tverts && r.norms == src.norms
    ensures r.extra.Skin? <==> m.extra.Skin?
    ensures m.extra.Skin? && src.extra.Skin? && GetMeshType(src.meshType) == SkinMeshType ==>
      r.extra.skin.weight == src.extra.skin.weight && r.extra.skin.boneIndex == src.extra.skin.boneIndex &&
      r.extra.skin.vertexIndex == src.extra.skin.vertexIndex &&
      r.extra.skin.initialVerts == m.extra.skin.initialVerts && r.extra.skin.initialNorms == m.extra.skin.initialNorms &&
      r.extra.skin.initialTransforms == m.extra.skin.initialTransforms && r.extra.skin.nodeIndex == m.extra.skin.nodeIndex
    ensures !(m.extra.Skin? && src.extra.Skin? && GetMeshType(src.meshType) == SkinMeshType) ==> r.extra == m.extra
    ensures r.(verts := m.verts, tverts := m.tverts, norms := m.norms, extra := m.extra) == m
  {
    var base := m.(verts := src.verts, tverts := src.tverts, norms := src.norms);
    if m.extra.Skin? && src.extra.Skin? && GetMeshType(src.meshType) == SkinMeshType then
      base.(extra := Skin(m.extra.skin.(weight := src.extra.skin.weight, boneIndex := src.extra.skin.boneIndex,
                                        vertexIndex := src.extra.skin.vertexIndex)))
    else
      base
  }
}
