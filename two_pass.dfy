/**
 * TwoPass: why `TSShape::LoadFromStream` may size the shape block with one
 * run of `AssembleShape` and fill it with a second.
 *
 * The first run has no block (dest_ is null), so nothing is copied and every
 * pointer into the block is null; the second runs into a block of exactly
 * the size the first counted, with dest_ at its start. The runs are in step
 * when they read the same input at the same cursors with the same counters
 * and the second's dest_ sits exactly size_ bytes into its block (`Paired`).
 * Nothing the walk branches on or reserves by comes from the block: counts
 * come from the input, and the sharing rule between detail levels looks
 * only at which meshes' data was copied, which both runs record alike. So
 * each step keeps the runs in step, and at the end the second run has
 * reserved what the first counted: it filled its block exactly.
 */
module TwoPass {
  import opened Bytes
  import opened ShapeAlloc
  import opened Mesh
  import Decal
  import SortedMesh
  import MeshFactory
  import ShapeRead
  import opened ShapeRecords

  /** The sizing run at a and the copying run at b, whose block is n bytes,
      are in step. */
  predicate Paired(a: ReadState, b: ReadState, n: nat)
  {
    a.input == b.input && a.c == b.c && a.dest.None? &&
    b.dest.Some? && b.dest.value == b.c.size && |b.shape| == n
  }

  /** Two runs' scratch tables agree on which meshes' data was copied. */
  predicate SameCopied(t: Scratch, u: Scratch)
  {
    t.dataCopied == u.dataCopied
  }

  // ---------------------------------------------------------------------
  // The allocator's calls
  // ---------------------------------------------------------------------

  /** `Get` reads the same value in both runs. */
  lemma GetPaired(a: ReadState, b: ReadState, n: nat, w: Width)
    requires Paired(a, b, n)
    ensures a.Get(w).0 == b.Get(w).0 && Paired(a.Get(w).1, b.Get(w).1, n)
  {
  }

  lemma GetIntoPaired(a: ReadState, b: ReadState, n: nat, w: Width, num: int)
    requires Paired(a, b, n)
    ensures a.GetInto(w, num).0 == b.GetInto(w, num).0 && Paired(a.GetInto(w, num).1, b.GetInto(w, num).1, n)
  {
  }

  /** `GetPointer` answers the same input pointer in both runs. */
  lemma GetPointerPaired(a: ReadState, b: ReadState, n: nat, w: Width, num: int)
    requires Paired(a, b, n)
    ensures a.GetPointer(w, num).0 == b.GetPointer(w, num).0 && Paired(a.GetPointer(w, num).1, b.GetPointer(w, num).1, n)
  {
  }

  /** `CopyToShape` copies in the second run only, and moves its dest_ by
      what both runs reserve. */
  lemma CopyPaired(a: ReadState, b: ReadState, n: nat, w: Width, num: int, returnSomething: bool)
    requires Paired(a, b, n)
    ensures Paired(a.CopyToShape(w, num, returnSomething).1, b.CopyToShape(w, num, returnSomething).1, n)
  {
  }

  /** `AllocShape` answers null in the sizing run and a block address in
      the copying run. */
  lemma AllocPaired(a: ReadState, b: ReadState, n: nat, w: Width, num: int)
    requires Paired(a, b, n)
    ensures a.AllocShape(w, num).0.Null? && b.AllocShape(w, num).0.ShapeAt?
    ensures Paired(a.AllocShape(w, num).1, b.AllocShape(w, num).1, n)
  {
  }

  lemma GuardPaired(a: ReadState, b: ReadState, n: nat)
    requires Paired(a, b, n)
    ensures a.CheckGuard().0 == b.CheckGuard().0 && Paired(a.CheckGuard().1, b.CheckGuard().1, n)
  {
  }

  lemma AlignPaired(a: ReadState, b: ReadState, n: nat)
    requires Paired(a, b, n)
    ensures Paired(a.Align32(), b.Align32(), n)
  {
  }

  lemma SkipModePaired(a: ReadState, b: ReadState, n: nat, skip: bool)
    requires Paired(a, b, n)
    ensures Paired(a.SkipMode(skip), b.SkipMode(skip), n)
  {
  }

  // ---------------------------------------------------------------------
  // The sharing rule
  // ---------------------------------------------------------------------

  /** `GetSharedData` keeps the runs in step, whatever pointers the two
      runs' tables hold. */
  lemma SharedPaired(a: ReadState, b: ReadState, n: nat, w: Width, parent: int, size: int,
                     sa: seq<Ptr>, sb: seq<Ptr>, copied: seq<bool>, skip: bool)
    requires Paired(a, b, n)
    ensures Paired(SharedData(a, w, parent, size, sa, copied, skip).1, SharedData(b, w, parent, size, sb, copied, skip).1, n)
  {
  }

  // ---------------------------------------------------------------------
  // TSMesh
  // ---------------------------------------------------------------------

  lemma HeaderPaired(a: ReadState, b: ReadState, n: nat)
    requires Paired(a, b, n)
    ensures var x, y := ReadHeader(a), ReadHeader(b);
      Paired(x.state, y.state, n) && x.ok == y.ok && x.value == y.value
  {
  }

  lemma VertexDataPaired(a: ReadState, b: ReadState, n: nat, parent: int, version: int, skip: bool, t: Scratch, u: Scratch)
    requires Paired(a, b, n) && SameCopied(t, u)
    ensures Paired(ReadVertexData(a, parent, version, skip, t).state, ReadVertexData(b, parent, version, skip, u).state, n)
  {
    var c := t.dataCopied;
    GetPaired(a, b, n, W32);
    var numVerts := a.Get(W32).0;
    var a1, b1 := a.Get(W32).1, b.Get(W32).1;
    SharedPaired(a1, b1, n, W32, parent, 3 * numVerts, t.verts, u.verts, c, skip);
    var a2, b2 := SharedData(a1, W32, parent, 3 * numVerts, t.verts, c, skip).1, SharedData(b1, W32, parent, 3 * numVerts, u.verts, c, skip).1;
    GetPaired(a2, b2, n, W32);
    var numTVerts := a2.Get(W32).0;
    var a3, b3 := a2.Get(W32).1, b2.Get(W32).1;
    SharedPaired(a3, b3, n, W32, parent, 2 * numTVerts, t.tverts, u.tverts, c, skip);
    var a4, b4 := SharedData(a3, W32, parent, 2 * numTVerts, t.tverts, c, skip).1, SharedData(b3, W32, parent, 2 * numTVerts, u.tverts, c, skip).1;
    if version > 21 {
      SharedPaired(a4, b4, n, W32, parent, 3 * numVerts, t.norms, u.norms, c, skip);
      var a5, b5 := SharedData(a4, W32, parent, 3 * numVerts, t.norms, c, skip).1, SharedData(b4, W32, parent, 3 * numVerts, u.norms, c, skip).1;
      SharedPaired(a5, b5, n, W8, parent, numVerts, t.encodedNorms, u.encodedNorms, c, skip);
    } else {
      CopyPaired(a4, b4, n, W32, 3 * numVerts, false);
    }
  }

  lemma PrimitivesPaired(a: ReadState, b: ReadState, n: nat)
    requires Paired(a, b, n)
    ensures Paired(ReadPrimitives(a).state, ReadPrimitives(b).state, n)
  {
  }

  lemma TailPaired(a: ReadState, b: ReadState, n: nat)
    requires Paired(a, b, n)
    ensures var x, y := ReadTail(a), ReadTail(b);
      Paired(x.state, y.state, n) && x.ok == y.ok
  {
    GetPaired(a, b, n, W32);
    var a1, b1 := a.Get(W32).1, b.Get(W32).1;
    var sz := a.Get(W32).0;
    GetPointerPaired(a1, b1, n, W16, sz);
    var a2, b2 := a1.GetPointer(W16, sz).1, b1.GetPointer(W16, sz).1;
    AlignPaired(a2, b2, n);
    var a3, b3 := a2.Align32(), b2.Align32();
    GetPaired(a3, b3, n, W32);
    var a4, b4 := a3.Get(W32).1, b3.Get(W32).1;
    GetPaired(a4, b4, n, W32);
    var a5, b5 := a4.Get(W32).1, b4.Get(W32).1;
    GuardPaired(a5, b5, n);
  }

  lemma MeshPaired(a: ReadState, b: ReadState, n: nat, version: int, skip: bool, t: Scratch, u: Scratch, typeCode: Bitwise.Word)
    requires Paired(a, b, n) && SameCopied(t, u)
    ensures var x, y := ReadMesh(a, version, skip, t, typeCode), ReadMesh(b, version, skip, u, typeCode);
      Paired(x.state, y.state, n) && x.ok == y.ok && x.value.parent == y.value.parent
  {
    HeaderPaired(a, b, n);
    var ha, hb := ReadHeader(a), ReadHeader(b);
    VertexDataPaired(ha.state, hb.state, n, ha.value.parent, version, skip, t, u);
    var da, db := ReadVertexData(ha.state, ha.value.parent, version, skip, t), ReadVertexData(hb.state, hb.value.parent, version, skip, u);
    PrimitivesPaired(da.state, db.state, n);
    TailPaired(ReadPrimitives(da.state).state, ReadPrimitives(db.state).state, n);
  }

  lemma SkinVerticesPaired(a: ReadState, b: ReadState, n: nat, parent: int, version: int, skip: bool, t: Scratch, u: Scratch)
    requires Paired(a, b, n) && SameCopied(t, u)
    ensures Paired(ReadSkinVertices(a, parent, version, skip, t).state, ReadSkinVertices(b, parent, version, skip, u).state, n)
  {
    var c := t.dataCopied;
    GetPaired(a, b, n, W32);
    var numVerts := a.Get(W32).0;
    var a1, b1 := a.Get(W32).1, b.Get(W32).1;
    SharedPaired(a1, b1, n, W32, parent, 3 * numVerts, t.verts, u.verts, c, skip);
    var a2, b2 := SharedData(a1, W32, parent, 3 * numVerts, t.verts, c, skip).1, SharedData(b1, W32, parent, 3 * numVerts, u.verts, c, skip).1;
    if version > 21 {
      SharedPaired(a2, b2, n, W32, parent, 3 * numVerts, t.norms, u.norms, c, skip);
      var a3, b3 := SharedData(a2, W32, parent, 3 * numVerts, t.norms, c, skip).1, SharedData(b2, W32, parent, 3 * numVerts, u.norms, c, skip).1;
      SharedPaired(a3, b3, n, W8, parent, numVerts, t.encodedNorms, u.encodedNorms, c, skip);
    } else {
      CopyPaired(a2, b2, n, W32, 3 * numVerts, false);
    }
  }

  lemma SkinListsPaired(a: ReadState, b: ReadState, n: nat, parent: int, skip: bool, t: Scratch, u: Scratch)
    requires Paired(a, b, n) && SameCopied(t, u)
    ensures var x, y := ReadSkinLists(a, parent, skip, t), ReadSkinLists(b, parent, skip, u);
      Paired(x.state, y.state, n) && x.ok == y.ok
  {
    var c := t.dataCopied;
    GetPaired(a, b, n, W32);
    var numTransforms := a.Get(W32).0;
    var a1, b1 := a.Get(W32).1, b.Get(W32).1;
    SharedPaired(a1, b1, n, W32, parent, 16 * numTransforms, t.initTransforms, u.initTransforms, c, skip);
    var a2, b2 := SharedData(a1, W32, parent, 16 * numTransforms, t.initTransforms, c, skip).1,
                     SharedData(b1, W32, parent, 16 * numTransforms, u.initTransforms, c, skip).1;
    GetPaired(a2, b2, n, W32);
    var sz := a2.Get(W32).0;
    var a3, b3 := a2.Get(W32).1, b2.Get(W32).1;
    SharedPaired(a3, b3, n, W32, parent, sz, t.vertexIndex, u.vertexIndex, c, skip);
    var a4, b4 := SharedData(a3, W32, parent, sz, t.vertexIndex, c, skip).1, SharedData(b3, W32, parent, sz, u.vertexIndex, c, skip).1;
    SharedPaired(a4, b4, n, W32, parent, sz, t.boneIndex, u.boneIndex, c, skip);
    var a5, b5 := SharedData(a4, W32, parent, sz, t.boneIndex, c, skip).1, SharedData(b4, W32, parent, sz, u.boneIndex, c, skip).1;
    SharedPaired(a5, b5, n, W32, parent, sz, t.weight, u.weight, c, skip);
    var a6, b6 := SharedData(a5, W32, parent, sz, t.weight, c, skip).1, SharedData(b5, W32, parent, sz, u.weight, c, skip).1;
    GetPaired(a6, b6, n, W32);
    var numNodes := a6.Get(W32).0;
    var a7, b7 := a6.Get(W32).1, b6.Get(W32).1;
    SharedPaired(a7, b7, n, W32, parent, numNodes, t.nodeIndex, u.nodeIndex, c, skip);
    var a8, b8 := SharedData(a7, W32, parent, numNodes, t.nodeIndex, c, skip).1, SharedData(b7, W32, parent, numNodes, u.nodeIndex, c, skip).1;
    GuardPaired(a8, b8, n);
  }

  /** Two reads of the same mesh that are in step and agree on the guards
      and the parent. */
  predicate MeshesPaired(x: Read<Mesh>, y: Read<Mesh>, n: nat)
  {
    Paired(x.state, y.state, n) && x.ok == y.ok && x.value.parent == y.value.parent
  }

  lemma SkinAfterPaired(x: Read<Mesh>, y: Read<Mesh>, n: nat, version: int, skip: bool, t: Scratch, u: Scratch)
    requires MeshesPaired(x, y, n) && SameCopied(t, u)
    ensures MeshesPaired(SkinAfter(x, version, skip, t), SkinAfter(y, version, skip, u), n)
  {
    SkinVerticesPaired(x.state, y.state, n, x.value.parent, version, skip, t, u);
    SkinListsPaired(ReadSkinVertices(x.state, x.value.parent, version, skip, t).state,
                    ReadSkinVertices(y.state, y.value.parent, version, skip, u).state, n, x.value.parent, skip, t, u);
  }

  // ---------------------------------------------------------------------
  // TSSortedMesh and TSDecalMesh
  // ---------------------------------------------------------------------

  lemma ClustersPaired(a: ReadState, b: ReadState, n: nat)
    requires Paired(a, b, n)
    ensures Paired(SortedMesh.ReadClusters(a).state, SortedMesh.ReadClusters(b).state, n)
  {
  }

  lemma FramesPaired(a: ReadState, b: ReadState, n: nat)
    requires Paired(a, b, n)
    ensures var x, y := SortedMesh.ReadFrames(a), SortedMesh.ReadFrames(b);
      Paired(x.state, y.state, n) && x.ok == y.ok
  {
  }

  lemma SortedAfterPaired(x: Read<Mesh>, y: Read<Mesh>, n: nat)
    requires MeshesPaired(x, y, n)
    ensures MeshesPaired(SortedMesh.SortedAfter(x), SortedMesh.SortedAfter(y), n)
    ensures MeshesPaired(SortedMesh.SortedAfterAsWritten(x), SortedMesh.SortedAfterAsWritten(y), n)
  {
    ClustersPaired(x.state, y.state, n);
    FramesPaired(SortedMesh.ReadClusters(x.state).state, SortedMesh.ReadClusters(y.state).state, n);
  }

  lemma OldHeadPaired(a: ReadState, b: ReadState, n: nat, version: int)
    requires Paired(a, b, n)
    ensures var x, y := Decal.ReadOldHead(a, version), Decal.ReadOldHead(b, version);
      Paired(x.state, y.state, n) && x.ok == y.ok
  {
    if version < Decal.DecalSplitVersion {
      GuardPaired(a, b, n);
      GetPointerPaired(a.CheckGuard().1, b.CheckGuard().1, n, W32, 15);
    }
  }

  lemma DecalPrimitivesPaired(a: ReadState, b: ReadState, n: nat)
    requires Paired(a, b, n)
    ensures Paired(Decal.ReadDecalPrimitives(a).state, Decal.ReadDecalPrimitives(b).state, n)
  {
    GetPaired(a, b, n, W32);
    var k := a.Get(W32).0;
    CopyPaired(a.Get(W32).1, b.Get(W32).1, n, W32, 0, false);
    var a2, b2 := a.Get(W32).1.CopyToShape(W32, 0, false).1, b.Get(W32).1.CopyToShape(W32, 0, false).1;
    Decal.SkipPrimitivesMoves(a2, k);
    Decal.SkipPrimitivesMoves(b2, k);
    AlignPaired(Decal.SkipPrimitives(a2, k), Decal.SkipPrimitives(b2, k), n);
  }

  lemma DecalIndicesPaired(a: ReadState, b: ReadState, n: nat)
    requires Paired(a, b, n)
    ensures Paired(Decal.ReadDecalIndices(a).state, Decal.ReadDecalIndices(b).state, n)
  {
    GetPaired(a, b, n, W32);
    var k := a.Get(W32).0;
    GetPointerPaired(a.Get(W32).1, b.Get(W32).1, n, W16, k);
    AlignPaired(a.Get(W32).1.GetPointer(W16, k).1, b.Get(W32).1.GetPointer(W16, k).1, n);
  }

  lemma OldTailPaired(a: ReadState, b: ReadState, n: nat, version: int)
    requires Paired(a, b, n)
    ensures var x, y := Decal.ReadOldTail(a, version), Decal.ReadOldTail(b, version);
      Paired(x.state, y.state, n) && x.ok == y.ok
  {
    if version < Decal.DecalSplitVersion {
      GetPointerPaired(a, b, n, W32, 3);
      GuardPaired(a.GetPointer(W32, 3).1, b.GetPointer(W32, 3).1, n);
    }
  }

  lemma DecalFramesPaired(a: ReadState, b: ReadState, n: nat)
    requires Paired(a, b, n)
    ensures var x, y := Decal.ReadDecalFrames(a), Decal.ReadDecalFrames(b);
      Paired(x.state, y.state, n) && x.ok == y.ok
  {
    GetPaired(a, b, n, W32);
    var k := a.Get(W32).0;
    var a1, b1 := a.Get(W32).1, b.Get(W32).1;
    GetPointerPaired(a1, b1, n, W32, k);
    var a2, b2 := a1.GetPointer(W32, k).1, b1.GetPointer(W32, k).1;
    GetPointerPaired(a2, b2, n, W32, k * Decal.PlaneWords);
    var a3, b3 := a2.GetPointer(W32, k * Decal.PlaneWords).1, b2.GetPointer(W32, k * Decal.PlaneWords).1;
    GetPointerPaired(a3, b3, n, W32, k * Decal.PlaneWords);
    var a4, b4 := a3.GetPointer(W32, k * Decal.PlaneWords).1, b3.GetPointer(W32, k * Decal.PlaneWords).1;
    GetPaired(a4, b4, n, W32);
    GuardPaired(a4.Get(W32).1, b4.Get(W32).1, n);
  }

  lemma DecalPaired(a: ReadState, b: ReadState, n: nat, version: int)
    requires Paired(a, b, n)
    ensures var x, y := Decal.ReadDecal(a, version), Decal.ReadDecal(b, version);
      Paired(x.state, y.state, n) && x.ok == y.ok
  {
    OldHeadPaired(a, b, n, version);
    var ha, hb := Decal.ReadOldHead(a, version).state, Decal.ReadOldHead(b, version).state;
    DecalPrimitivesPaired(ha, hb, n);
    var pa, pb := Decal.ReadDecalPrimitives(ha).state, Decal.ReadDecalPrimitives(hb).state;
    DecalIndicesPaired(pa, pb, n);
    var xa, xb := Decal.ReadDecalIndices(pa).state, Decal.ReadDecalIndices(pb).state;
    OldTailPaired(xa, xb, n, version);
    DecalFramesPaired(Decal.ReadOldTail(xa, version).state, Decal.ReadOldTail(xb, version).state, n);
  }

  // ---------------------------------------------------------------------
  // TSMesh::AssembleMesh
  // ---------------------------------------------------------------------

  /** The object's room is reserved alike in both runs. */
  lemma PlacePaired(a: ReadState, b: ReadState, n: nat, typeCode: int, skip: bool, sizes: MeshFactory.ObjectSizes)
    requires Paired(a, b, n)
    ensures Paired(MeshFactory.Place(a, typeCode, skip, sizes).1, MeshFactory.Place(b, typeCode, skip, sizes).1, n)
  {
    AllocPaired(a, b, n, W32, 0);
    var a0, b0 := a.AllocShape(W32, 0).1, b.AllocShape(W32, 0).1;
    match MeshFactory.ObjectWords(sizes, typeCode)
    case None =>
      SkipModePaired(a0, b0, n, skip);
    case Some(words) =>
      AllocPaired(a0, b0, n, W32, words);
      SkipModePaired(a0.AllocShape(W32, words).1, b0.AllocShape(W32, words).1, n, skip);
  }

  /** Only a skin's section makes the extra section a skin's. */
  lemma SectionTag(base: Read<Mesh>, typeCode: Bitwise.Word, version: int, skip: bool, t: Scratch)
    requires base.value.extra.Standard?
    ensures MeshFactory.SectionAfter(base, typeCode, version, skip, t).value.extra.Skin? <==> typeCode == SkinMeshType
  {
    if typeCode == SkinMeshType {
      assert MeshFactory.SectionAfter(base, typeCode, version, skip, t) == SkinAfter(base, version, skip, t);
    } else if typeCode == SortedMeshType {
      assert MeshFactory.SectionAfter(base, typeCode, version, skip, t) == SortedMesh.SortedAfterAsWritten(base);
    }
  }

  lemma SectionPaired(x: Read<Mesh>, y: Read<Mesh>, n: nat, typeCode: Bitwise.Word, version: int, skip: bool, t: Scratch, u: Scratch)
    requires MeshesPaired(x, y, n) && SameCopied(t, u)
    ensures MeshesPaired(MeshFactory.SectionAfter(x, typeCode, version, skip, t), MeshFactory.SectionAfter(y, typeCode, version, skip, u), n)
  {
    if typeCode == SkinMeshType {
      SkinAfterPaired(x, y, n, version, skip, t, u);
    } else if typeCode == SortedMeshType {
      SortedAfterPaired(x, y, n);
    }
  }

  /** A mesh kind's reader keeps the runs in step. */
  lemma MeshKindPaired(a: ReadState, b: ReadState, n: nat, typeCode: Bitwise.Word, version: int, skip: bool, t: Scratch, u: Scratch)
    requires Paired(a, b, n) && SameCopied(t, u)
    ensures MeshesPaired(MeshFactory.ReadMeshKind(a, typeCode, version, skip, t), MeshFactory.ReadMeshKind(b, typeCode, version, skip, u), n)
  {
    MeshPaired(a, b, n, version, skip, t, u, typeCode);
    SectionPaired(ReadMesh(a, version, skip, t, typeCode), ReadMesh(b, version, skip, u, typeCode), n, typeCode, version, skip, t, u);
  }

  /** The runs' reads of one object kind are in step and agree on the
      guards and on whether a mesh was made. */
  predicate KindsPaired(x: Read<MeshFactory.Made>, y: Read<MeshFactory.Made>, n: nat)
  {
    Paired(x.state, y.state, n) && x.ok == y.ok && (x.value.MeshObject? <==> y.value.MeshObject?)
  }

  lemma DecalKindPaired(a: ReadState, b: ReadState, n: nat, typeCode: int, version: int, skip: bool, t: Scratch, u: Scratch)
    requires Paired(a, b, n) && typeCode == DecalMeshType
    ensures KindsPaired(MeshFactory.ReadKind(a, typeCode, version, skip, t), MeshFactory.ReadKind(b, typeCode, version, skip, u), n)
  {
    MeshFactory.DecalKind(a, typeCode, version, skip, t);
    MeshFactory.DecalKind(b, typeCode, version, skip, u);
    DecalPaired(a, b, n, version);
  }

  /** Paired mesh reads make paired mesh objects. */
  lemma MadePaired(ka: Read<MeshFactory.Made>, kb: Read<MeshFactory.Made>, ma: Read<Mesh>, mb: Read<Mesh>, n: nat)
    requires ka == Read(MeshFactory.MeshObject(ma.value), ma.ok, ma.state)
    requires kb == Read(MeshFactory.MeshObject(mb.value), mb.ok, mb.state)
    requires MeshesPaired(ma, mb, n)
    ensures KindsPaired(ka, kb, n)
  {
  }

  lemma MeshObjectPaired(a: ReadState, b: ReadState, n: nat, typeCode: int, version: int, skip: bool, t: Scratch, u: Scratch)
    requires Paired(a, b, n) && SameCopied(t, u)
    requires typeCode == StandardMeshType || typeCode == SkinMeshType || typeCode == SortedMeshType
    ensures KindsPaired(MeshFactory.ReadKind(a, typeCode, version, skip, t), MeshFactory.ReadKind(b, typeCode, version, skip, u), n)
  {
    MeshKindPaired(a, b, n, typeCode, version, skip, t, u);
    MeshFactory.MeshKind(a, typeCode, version, skip, t);
    MeshFactory.MeshKind(b, typeCode, version, skip, u);
    MadePaired(MeshFactory.ReadKind(a, typeCode, version, skip, t), MeshFactory.ReadKind(b, typeCode, version, skip, u),
      MeshFactory.ReadMeshKind(a, typeCode, version, skip, t), MeshFactory.ReadMeshKind(b, typeCode, version, skip, u), n);
  }

  /** The kind's reader keeps the runs in step and makes an object of the
      same kind in both. */
  lemma KindPaired(a: ReadState, b: ReadState, n: nat, typeCode: int, version: int, skip: bool, t: Scratch, u: Scratch)
    requires Paired(a, b, n) && SameCopied(t, u)
    ensures KindsPaired(MeshFactory.ReadKind(a, typeCode, version, skip, t), MeshFactory.ReadKind(b, typeCode, version, skip, u), n)
  {
    if typeCode == DecalMeshType {
      DecalKindPaired(a, b, n, typeCode, version, skip, t, u);
    } else if typeCode == StandardMeshType || typeCode == SkinMeshType || typeCode == SortedMeshType {
      MeshObjectPaired(a, b, n, typeCode, version, skip, t, u);
    }
  }

  /** The factory keeps the runs in step, agrees on the guards, and makes
      an object of the same kind in both. */
  lemma AnyMeshPaired(a: ReadState, b: ReadState, n: nat, typeCode: int, skip: bool, version: int, t: Scratch, u: Scratch,
                      sizes: MeshFactory.ObjectSizes)
    requires Paired(a, b, n) && SameCopied(t, u)
    ensures var x, y := MeshFactory.ReadAnyMesh(a, typeCode, skip, version, t, sizes),
                           MeshFactory.ReadAnyMesh(b, typeCode, skip, version, u, sizes);
      Paired(x.state, y.state, n) && x.ok == y.ok && (x.value.0.MeshObject? <==> y.value.0.MeshObject?)
  {
    PlacePaired(a, b, n, typeCode, skip, sizes);
    var sa, sb := MeshFactory.Place(a, typeCode, skip, sizes).1, MeshFactory.Place(b, typeCode, skip, sizes).1;
    KindPaired(sa, sb, n, typeCode, version, skip, t, u);
    SkipModePaired(MeshFactory.ReadKind(sa, typeCode, version, skip, t).state, MeshFactory.ReadKind(sb, typeCode, version, skip, u).state, n, false);
  }

  // ---------------------------------------------------------------------
  // TSShape::AssembleShape, section by section
  // ---------------------------------------------------------------------

  lemma AnimationCountsPaired(a: ReadState, b: ReadState, n: nat, nodes: int, version: int)
    requires Paired(a, b, n)
    ensures var x, y := ShapeRead.ReadAnimationCounts(a, nodes, version), ShapeRead.ReadAnimationCounts(b, nodes, version);
      x.0 == y.0 && Paired(x.1, y.1, n)
  {
  }

  lemma TableCountsPaired(a: ReadState, b: ReadState, n: nat, version: int)
    requires Paired(a, b, n)
    ensures var x, y := ShapeRead.ReadTableCounts(a, version), ShapeRead.ReadTableCounts(b, version);
      x.0 == y.0 && Paired(x.1, y.1, n)
  {
  }

  /** Both runs read the same counts. */
  lemma HeadPaired(a: ReadState, b: ReadState, n: nat, version: int)
    requires Paired(a, b, n)
    ensures var x, y := ShapeRead.ReadHead(a, version), ShapeRead.ReadHead(b, version);
      x.value == y.value && x.ok == y.ok && Paired(x.state, y.state, n)
  {
    GetPaired(a, b, n, W32);
    var a1, b1 := a.Get(W32).1, b.Get(W32).1;
    GetPaired(a1, b1, n, W32);
    var a2, b2 := a1.Get(W32).1, b1.Get(W32).1;
    GetPaired(a2, b2, n, W32);
    var a3, b3 := a2.Get(W32).1, b2.Get(W32).1;
    GetPaired(a3, b3, n, W32);
    var a4, b4 := a3.Get(W32).1, b3.Get(W32).1;
    GetPaired(a4, b4, n, W32);
    var a5, b5 := a4.Get(W32).1, b4.Get(W32).1;
    var nodes := a.Get(W32).0;
    AnimationCountsPaired(a5, b5, n, nodes, version);
    var a6, b6 := ShapeRead.ReadAnimationCounts(a5, nodes, version).1, ShapeRead.ReadAnimationCounts(b5, nodes, version).1;
    TableCountsPaired(a6, b6, n, version);
    var a7, b7 := ShapeRead.ReadTableCounts(a6, version).1, ShapeRead.ReadTableCounts(b6, version).1;
    GetPaired(a7, b7, n, W32);
    var a8, b8 := a7.Get(W32).1, b7.Get(W32).1;
    GetPaired(a8, b8, n, W32);
    var a9, b9 := a8.Get(W32).1, b8.Get(W32).1;
    GuardPaired(a9, b9, n);
  }

  /** Both runs read the same bounds. */
  lemma BoundsPaired(a: ReadState, b: ReadState, n: nat)
    requires Paired(a, b, n)
    ensures var x, y := ShapeRead.ReadBounds(a), ShapeRead.ReadBounds(b);
      x.value == y.value && x.ok == y.ok && Paired(x.state, y.state, n)
  {
    GetIntoPaired(a, b, n, W32, 1);
    var a1, b1 := a.GetInto(W32, 1).1, b.GetInto(W32, 1).1;
    GetIntoPaired(a1, b1, n, W32, 1);
    var a2, b2 := a1.GetInto(W32, 1).1, b1.GetInto(W32, 1).1;
    GetIntoPaired(a2, b2, n, W32, 3);
    var a3, b3 := a2.GetInto(W32, 3).1, b2.GetInto(W32, 3).1;
    GetIntoPaired(a3, b3, n, W32, 6);
    GuardPaired(a3.GetInto(W32, 6).1, b3.GetInto(W32, 6).1, n);
  }

  /** The object table's pointer is null in the sizing run, so that run
      reserves the old skins' room by the allocation the copying run only
      skips over: the same room either way. */
  lemma TablesPaired(a: ReadState, b: ReadState, n: nat, c: ShapeRead.Counts)
    requires Paired(a, b, n)
    ensures var x, y := ShapeRead.ReadTables(a, c), ShapeRead.ReadTables(b, c);
      x.ok == y.ok && Paired(x.state, y.state, n)
  {
    CopyPaired(a, b, n, W32, c.nodes * NodeSize, false);
    var a1, b1 := a.CopyToShape(W32, c.nodes * NodeSize, false).1, b.CopyToShape(W32, c.nodes * NodeSize, false).1;
    GuardPaired(a1, b1, n);
    var a2, b2 := a1.CheckGuard().1, b1.CheckGuard().1;
    CopyPaired(a2, b2, n, W32, c.objects * ObjectSize, true);
    var a3, b3 := a2.CopyToShape(W32, c.objects * ObjectSize, true).1, b2.CopyToShape(W32, c.objects * ObjectSize, true).1;
    AllocPaired(a3, b3, n, W32, c.skins * ObjectSize);
    GuardPaired(a3.AllocShape(W32, c.skins * ObjectSize).1, b3.AllocShape(W32, c.skins * ObjectSize).1, n);
  }

  lemma SubShapesPaired(a: ReadState, b: ReadState, n: nat, c: ShapeRead.Counts)
    requires Paired(a, b, n)
    ensures var x, y := ShapeRead.ReadSubShapes(a, c), ShapeRead.ReadSubShapes(b, c);
      x.ok == y.ok && Paired(x.state, y.state, n)
  {
    GetPointerPaired(a, b, n, W32, c.decals * 5);
    var a1, b1 := a.GetPointer(W32, c.decals * 5).1, b.GetPointer(W32, c.decals * 5).1;
    GuardPaired(a1, b1, n);
    var a2, b2 := a1.CheckGuard().1, b1.CheckGuard().1;
    CopyPaired(a2, b2, n, W32, c.iflMaterials * 5, false);
    var a3, b3 := a2.CopyToShape(W32, c.iflMaterials * 5, false).1, b2.CopyToShape(W32, c.iflMaterials * 5, false).1;
    GuardPaired(a3, b3, n);
    var a4, b4 := a3.CheckGuard().1, b3.CheckGuard().1;
    CopyPaired(a4, b4, n, W32, c.subShapes, true);
    var a5, b5 := a4.CopyToShape(W32, c.subShapes, true).1, b4.CopyToShape(W32, c.subShapes, true).1;
    CopyPaired(a5, b5, n, W32, c.subShapes, true);
    var a6, b6 := a5.CopyToShape(W32, c.subShapes, true).1, b5.CopyToShape(W32, c.subShapes, true).1;
    GetPointerPaired(a6, b6, n, W32, c.subShapes);
    var a7, b7 := a6.GetPointer(W32, c.subShapes).1, b6.GetPointer(W32, c.subShapes).1;
    GuardPaired(a7, b7, n);
    var a8, b8 := a7.CheckGuard().1, b7.CheckGuard().1;
    CopyPaired(a8, b8, n, W32, c.subShapes, false);
    var a9, b9 := a8.CopyToShape(W32, c.subShapes, false).1, b8.CopyToShape(W32, c.subShapes, false).1;
    CopyPaired(a9, b9, n, W32, c.subShapes, false);
    var a10, b10 := a9.CopyToShape(W32, c.subShapes, false).1, b9.CopyToShape(W32, c.subShapes, false).1;
    CopyPaired(a10, b10, n, W32, c.subShapes, false);
    GuardPaired(a10.CopyToShape(W32, c.subShapes, false).1, b10.CopyToShape(W32, c.subShapes, false).1, n);
  }

  /** The front sections keep the runs in step and read the same head. */
  lemma FrontPaired(a: ReadState, b: ReadState, n: nat, version: int)
    requires Paired(a, b, n)
    ensures var x, y := ShapeRead.ReadFront(a, version), ShapeRead.ReadFront(b, version);
      x.value.0 == y.value.0 && Paired(x.state, y.state, n)
  {
    HeadPaired(a, b, n, version);
    var ha, hb := ShapeRead.ReadHead(a, version), ShapeRead.ReadHead(b, version);
    var c := ha.value.counts;
    BoundsPaired(ha.state, hb.state, n);
    var ba, bb := ShapeRead.ReadBounds(ha.state), ShapeRead.ReadBounds(hb.state);
    TablesPaired(ba.state, bb.state, n, c);
    var ta, tb := ShapeRead.ReadTables(ba.state, c), ShapeRead.ReadTables(bb.state, c);
    SubShapesPaired(ta.state, tb.state, n, c);
  }

  lemma {:induction false} CopyEachPaired(a: ReadState, b: ReadState, n: nat, w: Width, k: int, m: nat)
    requires Paired(a, b, n)
    ensures Paired(ShapeRead.CopyEach(a, w, k, m), ShapeRead.CopyEach(b, w, k, m), n)
    decreases m
  {
    if m > 0 {
      CopyPaired(a, b, n, w, k, false);
      CopyEachPaired(a.CopyToShape(w, k, false).1, b.CopyToShape(w, k, false).1, n, w, k, m - 1);
    }
  }

  lemma {:induction false} CopyPointsPaired(a: ReadState, b: ReadState, n: nat, m: nat)
    requires Paired(a, b, n)
    ensures Paired(ShapeRead.CopyPoints(a, m), ShapeRead.CopyPoints(b, m), n)
    decreases m
  {
    if m > 0 {
      CopyPaired(a, b, n, W32, 3, false);
      var a1, b1 := a.CopyToShape(W32, 3, false).1, b.CopyToShape(W32, 3, false).1;
      CopyPaired(a1, b1, n, W32, ShapeRead.Point3Padding, false);
      CopyPointsPaired(a1.CopyToShape(W32, ShapeRead.Point3Padding, false).1, b1.CopyToShape(W32, ShapeRead.Point3Padding, false).1, n, m - 1);
    }
  }

  /** The runs read the same runs of elements. */
  lemma {:induction false} GetEachPaired(a: ReadState, b: ReadState, n: nat, w: Width, k: int, m: nat)
    requires Paired(a, b, n)
    ensures var x, y := ShapeRead.GetEach(a, w, k, m), ShapeRead.GetEach(b, w, k, m);
      x.0 == y.0 && Paired(x.1, y.1, n)
    decreases m
  {
    if m > 0 {
      GetIntoPaired(a, b, n, w, k);
      GetEachPaired(a.GetInto(w, k).1, b.GetInto(w, k).1, n, w, k, m - 1);
    }
  }

  lemma DefaultsPaired(a: ReadState, b: ReadState, n: nat, c: ShapeRead.Counts)
    requires Paired(a, b, n)
    ensures var x, y := ShapeRead.ReadDefaults(a, c), ShapeRead.ReadDefaults(b, c);
      x.ok == y.ok && Paired(x.state, y.state, n)
  {
    AllocPaired(a, b, n, W16, 0);
    var a1, b1 := a.AllocShape(W16, 0).1, b.AllocShape(W16, 0).1;
    CopyEachPaired(a1, b1, n, W16, Quat16Size, Count(c.nodes));
    var a2, b2 := ShapeRead.CopyEach(a1, W16, Quat16Size, Count(c.nodes)), ShapeRead.CopyEach(b1, W16, Quat16Size, Count(c.nodes));
    AlignPaired(a2, b2, n);
    var a3, b3 := a2.Align32(), b2.Align32();
    AllocPaired(a3, b3, n, W32, 0);
    var a4, b4 := a3.AllocShape(W32, 0).1, b3.AllocShape(W32, 0).1;
    CopyPointsPaired(a4, b4, n, Count(c.nodes));
    var a5, b5 := ShapeRead.CopyPoints(a4, Count(c.nodes)), ShapeRead.CopyPoints(b4, Count(c.nodes));
    GetEachPaired(a5, b5, n, W32, Point3Size, Count(c.nodeTrans));
    var a6, b6 := ShapeRead.GetEach(a5, W32, Point3Size, Count(c.nodeTrans)).1, ShapeRead.GetEach(b5, W32, Point3Size, Count(c.nodeTrans)).1;
    GetEachPaired(a6, b6, n, W16, Quat16Size, Count(c.nodeRots));
    var a7, b7 := ShapeRead.GetEach(a6, W16, Quat16Size, Count(c.nodeRots)).1, ShapeRead.GetEach(b6, W16, Quat16Size, Count(c.nodeRots)).1;
    AlignPaired(a7, b7, n);
    GuardPaired(a7.Align32(), b7.Align32(), n);
  }

  lemma ScalesPaired(a: ReadState, b: ReadState, n: nat, c: ShapeRead.Counts, version: int)
    requires Paired(a, b, n)
    ensures var x, y := ShapeRead.ReadScales(a, c, version), ShapeRead.ReadScales(b, c, version);
      x.ok == y.ok && Paired(x.state, y.state, n)
  {
    if version > 21 {
      GetEachPaired(a, b, n, W32, 1, Count(c.uniformScales));
      var a1, b1 := ShapeRead.GetEach(a, W32, 1, Count(c.uniformScales)).1, ShapeRead.GetEach(b, W32, 1, Count(c.uniformScales)).1;
      GetEachPaired(a1, b1, n, W32, Point3Size, Count(c.alignedScales));
      var a2, b2 := ShapeRead.GetEach(a1, W32, Point3Size, Count(c.alignedScales)).1, ShapeRead.GetEach(b1, W32, Point3Size, Count(c.alignedScales)).1;
      GetEachPaired(a2, b2, n, W32, Point3Size, Count(c.arbitraryScales));
      var a3, b3 := ShapeRead.GetEach(a2, W32, Point3Size, Count(c.arbitraryScales)).1, ShapeRead.GetEach(b2, W32, Point3Size, Count(c.arbitraryScales)).1;
      GetEachPaired(a3, b3, n, W16, Quat16Size, Count(c.arbitraryScales));
      var a4, b4 := ShapeRead.GetEach(a3, W16, Quat16Size, Count(c.arbitraryScales)).1, ShapeRead.GetEach(b3, W16, Quat16Size, Count(c.arbitraryScales)).1;
      AlignPaired(a4, b4, n);
      GuardPaired(a4.Align32(), b4.Align32(), n);
    }
  }

  lemma GroundPaired(a: ReadState, b: ReadState, n: nat, c: ShapeRead.Counts, version: int)
    requires Paired(a, b, n)
    ensures var x, y := ShapeRead.ReadGround(a, c, version), ShapeRead.ReadGround(b, c, version);
      x.ok == y.ok && Paired(x.state, y.state, n)
  {
    if version > 23 {
      GetEachPaired(a, b, n, W32, Point3Size, Count(c.groundFrames));
      var a1, b1 := ShapeRead.GetEach(a, W32, Point3Size, Count(c.groundFrames)).1, ShapeRead.GetEach(b, W32, Point3Size, Count(c.groundFrames)).1;
      GetEachPaired(a1, b1, n, W16, Quat16Size, Count(c.groundFrames));
      var a2, b2 := ShapeRead.GetEach(a1, W16, Quat16Size, Count(c.groundFrames)).1, ShapeRead.GetEach(b1, W16, Quat16Size, Count(c.groundFrames)).1;
      AlignPaired(a2, b2, n);
      GuardPaired(a2.Align32(), b2.Align32(), n);
    }
  }

  lemma StatesPaired(a: ReadState, b: ReadState, n: nat, c: ShapeRead.Counts)
    requires Paired(a, b, n)
    ensures var x, y := ShapeRead.ReadStates(a, c), ShapeRead.ReadStates(b, c);
      x.ok == y.ok && Paired(x.state, y.state, n)
  {
    CopyPaired(a, b, n, W32, c.objectStates * ObjectStateSize, false);
    var a1, b1 := a.CopyToShape(W32, c.objectStates * ObjectStateSize, false).1, b.CopyToShape(W32, c.objectStates * ObjectStateSize, false).1;
    AllocPaired(a1, b1, n, W32, c.skins * ObjectStateSize);
    var a2, b2 := a1.AllocShape(W32, c.skins * ObjectStateSize).1, b1.AllocShape(W32, c.skins * ObjectStateSize).1;
    GuardPaired(a2, b2, n);
    var a3, b3 := a2.CheckGuard().1, b2.CheckGuard().1;
    GetPointerPaired(a3, b3, n, W32, c.decalStates);
    var a4, b4 := a3.GetPointer(W32, c.decalStates).1, b3.GetPointer(W32, c.decalStates).1;
    GuardPaired(a4, b4, n);
    var a5, b5 := a4.CheckGuard().1, b4.CheckGuard().1;
    GetPointerPaired(a5, b5, n, W32, c.triggers * TriggerSize);
    GuardPaired(a5.GetPointer(W32, c.triggers * TriggerSize).1, b5.GetPointer(W32, c.triggers * TriggerSize).1, n);
  }

  lemma DetailsPaired(a: ReadState, b: ReadState, n: nat, c: ShapeRead.Counts)
    requires Paired(a, b, n)
    ensures var x, y := ShapeRead.ReadDetails(a, c), ShapeRead.ReadDetails(b, c);
      x.ok == y.ok && Paired(x.state, y.state, n)
  {
    CopyPaired(a, b, n, W32, c.details * DetailSize, true);
    GuardPaired(a.CopyToShape(W32, c.details * DetailSize, true).1, b.CopyToShape(W32, c.details * DetailSize, true).1, n);
  }

  lemma MiddlePaired(a: ReadState, b: ReadState, n: nat, c: ShapeRead.Counts, version: int)
    requires Paired(a, b, n)
    ensures Paired(ShapeRead.ReadMiddle(a, c, version).state, ShapeRead.ReadMiddle(b, c, version).state, n)
  {
    DefaultsPaired(a, b, n, c);
    var da, db := ShapeRead.ReadDefaults(a, c).state, ShapeRead.ReadDefaults(b, c).state;
    ScalesPaired(da, db, n, c, version);
    var sa, sb := ShapeRead.ReadScales(da, c, version).state, ShapeRead.ReadScales(db, c, version).state;
    GroundPaired(sa, sb, n, c, version);
    var ga, gb := ShapeRead.ReadGround(sa, c, version).state, ShapeRead.ReadGround(sb, c, version).state;
    StatesPaired(ga, gb, n, c);
    DetailsPaired(ShapeRead.ReadStates(ga, c).state, ShapeRead.ReadStates(gb, c).state, n, c);
  }

  /** One mesh keeps the runs in step, and both record the same copied
      flag for it. */
  lemma OneMeshPaired(a: ReadState, b: ReadState, n: nat, i: nat, version: int, sizes: MeshFactory.ObjectSizes, t: Scratch, u: Scratch)
    requires Paired(a, b, n) && SameCopied(t, u)
    ensures var x, y := ShapeRead.ReadOneMesh(a, i, version, sizes, t), ShapeRead.ReadOneMesh(b, i, version, sizes, u);
      x.ok == y.ok && Paired(x.state, y.state, n) && SameCopied(x.value.1, y.value.1)
  {
    GetPaired(a, b, n, W32);
    var typeCode := a.Get(W32).0;
    var a1, b1 := a.Get(W32).1, b.Get(W32).1;
    AnyMeshPaired(a1, b1, n, typeCode, typeCode == DecalMeshType, version, t, u, sizes);
  }

  lemma {:induction false} MeshListPaired(a: ReadState, b: ReadState, n: nat, i: nat, m: nat, version: int,
                                          sizes: MeshFactory.ObjectSizes, t: Scratch, u: Scratch)
    requires Paired(a, b, n) && SameCopied(t, u)
    ensures var x, y := ShapeRead.ReadMeshList(a, i, m, version, sizes, t), ShapeRead.ReadMeshList(b, i, m, version, sizes, u);
      x.ok == y.ok && Paired(x.state, y.state, n) && SameCopied(x.value.1, y.value.1)
    decreases m - i
  {
    if i < m {
      OneMeshPaired(a, b, n, i, version, sizes, t, u);
      var x, y := ShapeRead.ReadOneMesh(a, i, version, sizes, t), ShapeRead.ReadOneMesh(b, i, version, sizes, u);
      MeshListPaired(x.state, y.state, n, i + 1, m, version, sizes, x.value.1, y.value.1);
    }
  }

  /** The mesh section: the pointer table is null while sizing, so that
      run's mesh list is empty, but both runs read every mesh. */
  lemma MeshSectionPaired(a: ReadState, b: ReadState, n: nat, c: ShapeRead.Counts, version: int, p: ShapeRead.Platform, statics: Scratch)
    requires Paired(a, b, n)
    ensures var x, y := ShapeRead.ReadMeshes(a, c, version, p, statics), ShapeRead.ReadMeshes(b, c, version, p, statics);
      x.ok == y.ok && Paired(x.state, y.state, n) && SameCopied(x.value.1, y.value.1)
  {
    AllocPaired(a, b, n, W32, (c.meshes + c.skins * c.details) * p.pointerWords);
    var la := ShapeRead.ReadMeshList(a.AllocShape(W32, (c.meshes + c.skins * c.details) * p.pointerWords).1, 0, Count(c.meshes), version, p.sizes, ShapeRead.ResetScratch(statics, c));
    var lb := ShapeRead.ReadMeshList(b.AllocShape(W32, (c.meshes + c.skins * c.details) * p.pointerWords).1, 0, Count(c.meshes), version, p.sizes, ShapeRead.ResetScratch(statics, c));
    MeshListPaired(a.AllocShape(W32, (c.meshes + c.skins * c.details) * p.pointerWords).1,
                   b.AllocShape(W32, (c.meshes + c.skins * c.details) * p.pointerWords).1,
                   n, 0, Count(c.meshes), version, p.sizes, ShapeRead.ResetScratch(statics, c), ShapeRead.ResetScratch(statics, c));
    ShapeRead.MeshesAfterList(a, c, version, p, statics, la);
    ShapeRead.MeshesAfterList(b, c, version, p, statics, lb);
    GuardedListsPaired(ShapeRead.ReadMeshes(a, c, version, p, statics), ShapeRead.ReadMeshes(b, c, version, p, statics), la, lb, n);
  }

  /** A guard after paired mesh lists keeps the runs paired. */
  lemma GuardedListsPaired(x: Read<(seq<MeshFactory.Made>, Scratch)>, y: Read<(seq<MeshFactory.Made>, Scratch)>,
                           la: Read<(seq<MeshFactory.Made>, Scratch)>, lb: Read<(seq<MeshFactory.Made>, Scratch)>, n: nat)
    requires x.ok == (la.ok && la.state.CheckGuard().0) && x.state == la.state.CheckGuard().1 && x.value.1 == la.value.1
    requires y.ok == (lb.ok && lb.state.CheckGuard().0) && y.state == lb.state.CheckGuard().1 && y.value.1 == lb.value.1
    requires la.ok == lb.ok && Paired(la.state, lb.state, n) && SameCopied(la.value.1, lb.value.1)
    ensures x.ok == y.ok && Paired(x.state, y.state, n) && SameCopied(x.value.1, y.value.1)
  {
    GuardPaired(la.state, lb.state, n);
  }

  /** Both runs read the same names. */
  lemma NamesPaired(a: ReadState, b: ReadState, n: nat, c: ShapeRead.Counts)
    requires Paired(a, b, n)
    ensures var x, y := ShapeRead.ReadNames(a, c), ShapeRead.ReadNames(b, c);
      x.value == y.value && x.ok == y.ok && Paired(x.state, y.state, n)
  {
    GetPointerPaired(a, b, n, W8, 0);
    var a1, b1 := a.GetPointer(W8, 0).1, b.GetPointer(W8, 0).1;
    var size := ShapeRead.NamesAt(a1.input, a.GetPointer(W8, 0).0.offset, Count(c.names)).1;
    GetPointerPaired(a1, b1, n, W8, size);
    var a2, b2 := a1.GetPointer(W8, size).1, b1.GetPointer(W8, size).1;
    AlignPaired(a2, b2, n);
    GuardPaired(a2.Align32(), b2.Align32(), n);
  }

  /** The old skins: the sizing run has no meshes to append them to, but
      both runs read every skin. */
  lemma {:induction false} SkinListPaired(a: ReadState, b: ReadState, n: nat, k: nat, m: nat, version: int,
                                          sizes: MeshFactory.ObjectSizes, t: Scratch, u: Scratch)
    requires Paired(a, b, n) && SameCopied(t, u)
    ensures var x, y := ShapeRead.ReadSkinList(a, k, m, version, sizes, t), ShapeRead.ReadSkinList(b, k, m, version, sizes, u);
      x.ok == y.ok && Paired(x.state, y.state, n)
    decreases m - k
  {
    if k < m {
      AnyMeshPaired(a, b, n, SkinMeshType, false, version, t, u, sizes);
      var x, y := MeshFactory.ReadAnyMesh(a, SkinMeshType, false, version, t, sizes), MeshFactory.ReadAnyMesh(b, SkinMeshType, false, version, u, sizes);
      SkinListPaired(x.state, y.state, n, k + 1, m, version, sizes, t, u);
    }
  }

  lemma SkinsPaired(a: ReadState, b: ReadState, n: nat, c: ShapeRead.Counts, version: int, sizes: MeshFactory.ObjectSizes,
                    t: Scratch, u: Scratch, ma: seq<MeshFactory.Made>, mb: seq<MeshFactory.Made>)
    requires Paired(a, b, n) && SameCopied(t, u)
    ensures var x, y := ShapeRead.ReadSkins(a, c, version, sizes, t, ma), ShapeRead.ReadSkins(b, c, version, sizes, u, mb);
      x.ok == y.ok && Paired(x.state, y.state, n)
  {
    if version < 23 {
      GetPointerPaired(a, b, n, W32, c.details);
      var a1, b1 := a.GetPointer(W32, c.details).1, b.GetPointer(W32, c.details).1;
      GetPointerPaired(a1, b1, n, W32, c.details);
      var a2, b2 := a1.GetPointer(W32, c.details).1, b1.GetPointer(W32, c.details).1;
      GuardPaired(a2, b2, n);
      var a3, b3 := a2.CheckGuard().1, b2.CheckGuard().1;
      AllocPaired(a3, b3, n, W32, c.skins);
      var a4, b4 := a3.AllocShape(W32, c.skins).1, b3.AllocShape(W32, c.skins).1;
      SkinListPaired(a4, b4, n, 0, Count(c.skins), version, sizes, t, u);
      var la, lb := ShapeRead.ReadSkinList(a4, 0, Count(c.skins), version, sizes, t),
                       ShapeRead.ReadSkinList(b4, 0, Count(c.skins), version, sizes, u);
      GuardPaired(la.state, lb.state, n);
    }
  }

  lemma BackPaired(a: ReadState, b: ReadState, n: nat, c: ShapeRead.Counts, version: int, p: ShapeRead.Platform, statics: Scratch)
    requires Paired(a, b, n)
    ensures Paired(ShapeRead.ReadBack(a, c, version, p, statics).state, ShapeRead.ReadBack(b, c, version, p, statics).state, n)
  {
    MeshSectionPaired(a, b, n, c, version, p, statics);
    var ma, mb := ShapeRead.ReadMeshes(a, c, version, p, statics), ShapeRead.ReadMeshes(b, c, version, p, statics);
    NamesPaired(ma.state, mb.state, n, c);
    var na, nb := ShapeRead.ReadNames(ma.state, c), ShapeRead.ReadNames(mb.state, c);
    SkinsPaired(na.state, nb.state, n, c, version, p.sizes, ma.value.1, mb.value.1, ma.value.0, mb.value.0);
  }

  /** The whole walk keeps the runs in step. */
  lemma ShapePaired(a: ReadState, b: ReadState, n: nat, version: int, p: ShapeRead.Platform, statics: Scratch)
    requires Paired(a, b, n)
    ensures Paired(ShapeRead.ReadShape(a, version, p, statics).state, ShapeRead.ReadShape(b, version, p, statics).state, n)
  {
    FrontPaired(a, b, n, version);
    var fa, fb := ShapeRead.ReadFront(a, version), ShapeRead.ReadFront(b, version);
    var c := fa.value.0.counts;
    MiddlePaired(fa.state, fb.state, n, c, version);
    var ma, mb := ShapeRead.ReadMiddle(fa.state, c, version), ShapeRead.ReadMiddle(fb.state, c, version);
    BackPaired(ma.state, mb.state, n, c, version, p, statics);
  }

  /** `LoadFromStream`'s two walks: the sizing walk from a cleared
      allocator, `DoAlloc`, and the copying walk over the same buffer. They
      end paired: with the same counters, so in particular the same `size_`
      (what the source asserts), and the copying walk's output pointer at
      its count, inside a block of exactly the size the sizing walk counted
      (see `PairedEnds` for what that gives). */
  lemma LoadPassesAgree(s0: ReadState, data: seq<byte>, start16: int, start8: int, version: int, p: ShapeRead.Platform, statics: Scratch)
    ensures var first := ShapeRead.ReadShape(s0.SetRead(data, start16, start8, true), version, p, statics);
      var b := first.state.DoAlloc().SetRead(data, start16, start8, false);
      Paired(first.state, ShapeRead.ReadShape(b, version, p, statics).state, |b.shape|) &&
      |b.shape| == (if first.state.c.size < 0 then 0 else first.state.c.size)
  {
    CopyingWalkPaired(s0, ShapeRead.ReadShape(s0.SetRead(data, start16, start8, true), version, p, statics).state, data, start16, start8, version, p, statics);
  }

  /** Whatever state the sizing walk ended in, the copying walk after
      `DoAlloc` ends paired with a sizing walk over the same buffer. */
  lemma CopyingWalkPaired(s0: ReadState, sized: ReadState, data: seq<byte>, start16: int, start8: int, version: int, p: ShapeRead.Platform,
                          statics: Scratch)
    ensures var b := sized.DoAlloc().SetRead(data, start16, start8, false);
      Paired(ShapeRead.ReadShape(s0.SetRead(data, start16, start8, true), version, p, statics).state, ShapeRead.ReadShape(b, version, p, statics).state, |b.shape|) &&
      |b.shape| == (if sized.c.size < 0 then 0 else sized.c.size)
  {
    StartPaired(s0, sized, data, start16, start8);
    var b := sized.DoAlloc().SetRead(data, start16, start8, false);
    ShapePaired(s0.SetRead(data, start16, start8, true), b, |b.shape|, version, p, statics);
  }

  /** Paired walks, the copying one into the block of the size the sizing
      one counted. */
  lemma PairedEnds(x: ReadState, y: ReadState, b: ReadState)
    requires Paired(x, y, |b.shape|)
    requires |b.shape| == (if x.c.size < 0 then 0 else x.c.size)
    ensures y.c == x.c && y.dest.Some? && y.dest.value == x.c.size
    ensures |y.shape| == (if x.c.size < 0 then 0 else x.c.size)
  {
  }

  /** Whatever the sizing walk left behind, `DoAlloc` and a `SetRead`
      without clearing start the copying walk paired with a fresh sizing
      walk over the same buffer. */
  lemma StartPaired(s0: ReadState, sized: ReadState, data: seq<byte>, start16: int, start8: int)
    ensures var b := sized.DoAlloc().SetRead(data, start16, start8, false);
      Paired(s0.SetRead(data, start16, start8, true), b, |b.shape|) &&
      |b.shape| == (if sized.c.size < 0 then 0 else sized.c.size)
  {
  }
}
