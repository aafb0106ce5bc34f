/**
 * SkinRoundTrip: what `TSSkinMesh::Assemble` reads back, in the copying
 * pass, from the entries `TSSkinMesh::Disassemble` wrote for a skin mesh
 * without a parent.
 */
module SkinRoundTrip {
  import opened Bytes
  import opened ShapeAlloc
  import opened Mesh
  import opened ReadCursor
  import opened RoundTrip
  import opened SkinRuns
  import Normals

  /** A skin mesh that fits: its base mesh fits, it has as many initial
      vertices as vertices, whole transforms, one bone index and one weight
      per vertex index, and counts and values that fit an int32. */
  predicate SkinFits(m: Mesh)
  {
    MeshFits(m) && m.extra.Skin? &&
    var k := m.extra.skin;
    |k.initialVerts| == |m.verts| && |k.initialTransforms| % 16 == 0 && |k.initialTransforms| < 0x8000_0000 &&
    |k.vertexIndex| < 0x8000_0000 && |k.boneIndex| == |k.vertexIndex| && |k.weight| == |k.vertexIndex| &&
    |k.nodeIndex| < 0x8000_0000 &&
    AllFit(k.initialTransforms, W32) && AllFit(k.vertexIndex, W32) && AllFit(k.boneIndex, W32) &&
    AllFit(k.weight, W32) && AllFit(k.nodeIndex, W32)
  }

  /** The skin mesh `TSSkinMesh::Assemble` builds from what was written for
      m: the base mesh as `Reloaded` says with the skin type code, and the
      initial vertices and normals the current ones, which the writer
      copies in their place. */
  function SkinReloaded(m: Mesh, dot: (seq<int>, Normals.Normal) -> real): Mesh
    requires m.extra.Skin?
  {
    Reloaded(m, SkinMeshType, dot).(extra := Skin(m.extra.skin.(initialVerts := m.verts, initialNorms := m.norms)))
  }

  /** The bytes the copying pass copies for the skin section. */
  function SkinCopiedBytes(m: Mesh): int
    requires m.extra.Skin?
  {
    var k := m.extra.skin;
    4 * |m.verts| + 4 * |m.norms| + |m.verts| / 3 +
      4 * |k.initialTransforms| + 4 * |k.vertexIndex| + 4 * |k.boneIndex| + 4 * |k.weight| + 4 * |k.nodeIndex|
  }

  /** The skin lists' 32-bit entries followed by x32, in the reader's
      groups. */
  function Lists32(m: Mesh, x32: seq<int>): seq<int>
    requires m.extra.Skin?
  {
    var k := m.extra.skin;
    [|k.initialTransforms| / 16] + k.initialTransforms +
      ([|k.vertexIndex|] + k.vertexIndex + (k.boneIndex + (k.weight + ([|k.nodeIndex|] + k.nodeIndex + x32))))
  }

  /** What follows the base mesh's entries: the skin entries, the codes a
      second time, the closing guard g2, then r. */
  function SkinRest(m: Mesh, g2: PerWidth<int>, dot: (seq<int>, Normals.Normal) -> real, r: PerWidth<seq<int>>): PerWidth<seq<int>>
    requires m.extra.Skin?
  {
    PerWidth([|m.verts| / 3] + m.verts + (m.norms + Lists32(m, [g2.w32] + r.w32)),
             [g2.w16] + r.w16, Codes(m, dot) + ([g2.w8] + r.w8))
  }

  /** The 32-bit skin entries of a skin mesh that fits: the counts and the
      arrays themselves. */
  lemma Skin32Whole(m: Mesh)
    requires SkinFits(m)
    ensures var k := m.extra.skin;
      Skin32(m) == [|m.verts| / 3] + m.verts + m.norms + [|k.initialTransforms| / 16] + k.initialTransforms
        + [|k.vertexIndex|] + k.vertexIndex + k.boneIndex + k.weight + [|k.nodeIndex|] + k.nodeIndex
  {
    var k := m.extra.skin;
    CountWord(|m.verts| / 3);
    CountWord(|k.initialTransforms| / 16);
    CountWord(|k.vertexIndex|);
    CountWord(|k.nodeIndex|);
    WholeCounts(m);
    WholeVector(m.verts, 3 * (|m.verts| / 3));
    WholeVector(m.norms, 3 * (|m.norms| / 3));
    WholeVector(k.initialTransforms, |k.initialTransforms| / 16 * 16);
    WholeVector(k.vertexIndex, |k.vertexIndex|);
    WholeVector(k.boneIndex, |k.boneIndex|);
    WholeVector(k.weight, |k.weight|);
    WholeVector(k.nodeIndex, |k.nodeIndex|);
  }

  /** The skin entries, the codes and a guard, followed by r, one list
      per buffer. */
  lemma RestParts(sk: seq<int>, codes: seq<int>, g2: PerWidth<int>, r: PerWidth<seq<int>>)
    ensures Appended(Appended(Appended(Only(W32, sk), Only(W8, codes)), GuardEntries(g2)), r) ==
      PerWidth(sk + ([g2.w32] + r.w32), [g2.w16] + r.w16, codes + ([g2.w8] + r.w8))
  {
    var a := Appended(Appended(Appended(Only(W32, sk), Only(W8, codes)), GuardEntries(g2)), r);
    assert a.w32 == sk + ([g2.w32] + r.w32);
    assert a.w16 == [g2.w16] + r.w16;
    assert a.w8 == codes + ([g2.w8] + r.w8);
  }

  /** Regrouping the 32-bit skin entries so that each stage's entries lead. */
  lemma RegroupSkin(nv: int, verts: seq<int>, norms: seq<int>, nt: int, tr: seq<int>, sz: int, vi: seq<int>,
                    bi: seq<int>, w: seq<int>, nn: int, ni: seq<int>, x: seq<int>)
    ensures [nv] + verts + norms + [nt] + tr + [sz] + vi + bi + w + [nn] + ni + x ==
      [nv] + verts + (norms + ([nt] + tr + ([sz] + vi + (bi + (w + ([nn] + ni + x))))))
  {
  }

  /** The entries written for a skin mesh followed by r are the base mesh's
      entries followed by `SkinRest`. */
  lemma SkinLayout(m: Mesh, g: PerWidth<int>, dot: (seq<int>, Normals.Normal) -> real, r: PerWidth<seq<int>>)
    requires SkinFits(m)
    ensures Appended(SkinEntries(m, g, dot), r) == Appended(MeshEntries(m, g, dot), SkinRest(m, NextGuards(NextGuards(g)), dot, r))
  {
    var g2 := NextGuards(NextGuards(g));
    var e := MeshEntries(m, g, dot);
    var k := m.extra.skin;
    var sk, codes := Skin32(m), Codes(m, dot);
    assert sk + ([g2.w32] + r.w32) == SkinRest(m, g2, dot, r).w32 by {
      Skin32Whole(m);
      RegroupSkin(|m.verts| / 3, m.verts, m.norms, |k.initialTransforms| / 16, k.initialTransforms, |k.vertexIndex|,
                  k.vertexIndex, k.boneIndex, k.weight, |k.nodeIndex|, k.nodeIndex, [g2.w32] + r.w32);
    }
    RestParts(sk, codes, g2, r);
    AppendedAssoc(e, Only(W32, sk), Only(W8, codes));
    AppendedAssoc(e, Appended(Only(W32, sk), Only(W8, codes)), GuardEntries(g2));
    AppendedAssoc(e, Appended(Appended(Only(W32, sk), Only(W8, codes)), GuardEntries(g2)), r);
  }

  /** After a base mesh read back from a skin mesh that fits, the skin
      section comes back: the skin arrays, the codes a second time, and the
      closing guard. */
  lemma SkinAfterBack(base: Read<Mesh>, m: Mesh, dot: (seq<int>, Normals.Normal) -> real, version: int, t: Scratch,
                      r: PerWidth<seq<int>>, g2: PerWidth<int>, extra: nat)
    requires SkinFits(m) && version > 21 && base.value == Reloaded(m, SkinMeshType, dot)
    requires Ready(base.state, SkinRest(m, g2, dot, r), g2, SkinCopiedBytes(m) + extra)
    ensures SkinAfter(base, version, false, t).ok == base.ok
    ensures SkinAfter(base, version, false, t).value == SkinReloaded(m, dot)
    ensures Ready(SkinAfter(base, version, false, t).state, r, NextGuards(g2), extra)
  {
    var k := m.extra.skin;
    var nv, nt, sz, nn := |m.verts| / 3, |k.initialTransforms| / 16, |k.vertexIndex|, |k.nodeIndex|;
    var lists := nt * 64 + (sz * 4 + (sz * 4 + (sz * 4 + (nn * 4 + extra))));
    WholeCounts(m);
    assert SkinCopiedBytes(m) + extra == |m.verts| * 4 + (|m.norms| * 4 + (nv + lists));
    SkinVerticesBack(base.state, m.parent, version, t, nv, m.verts, m.norms, Codes(m, dot),
                     Lists32(m, [g2.w32] + r.w32), [g2.w16] + r.w16, [g2.w8] + r.w8, g2, lists);
    var v := ReadSkinVertices(base.state, m.parent, version, false, t);
    SkinListsBack(v.state, m.parent, t, nt, k.initialTransforms, sz, k.vertexIndex, k.boneIndex, k.weight, nn, k.nodeIndex,
                  r, g2, extra);
    SkinReloadedOf(base.value, m, dot);
  }

  /** In the copying pass, reading what `TSSkinMesh::Disassemble` wrote for
      a skin mesh that fits, followed by entries r, gives back the skin mesh
      as `SkinReloaded` describes it and leaves the reader ready for r under
      the guards after the skin mesh's three. */
  lemma SkinReadBack(s: ReadState, m: Mesh, g: PerWidth<int>, dot: (seq<int>, Normals.Normal) -> real,
                     version: int, t: Scratch, r: PerWidth<seq<int>>, room: int, extra: nat)
    requires SkinFits(m) && GuardsFit(g) && version > 21
    requires room == CopiedBytes(m) + 3 + SkinCopiedBytes(m) + extra
    requires Ready(s, Appended(SkinEntries(m, g, dot), r), g, room)
    ensures ReadSkinMesh(s, version, false, t).ok
    ensures ReadSkinMesh(s, version, false, t).value == SkinReloaded(m, dot)
    ensures Ready(ReadSkinMesh(s, version, false, t).state, r, NextGuards(NextGuards(NextGuards(g))), extra)
  {
    var g2 := NextGuards(NextGuards(g));
    BaseBack(s, m, g, dot, version, t, r, room, extra);
    SkinAfterBack(ReadMesh(s, version, false, t, SkinMeshType), m, dot, version, t, r, g2, extra);
  }

  /** The base mesh of a skin mesh that fits comes back first. */
  lemma BaseBack(s: ReadState, m: Mesh, g: PerWidth<int>, dot: (seq<int>, Normals.Normal) -> real,
                 version: int, t: Scratch, r: PerWidth<seq<int>>, room: int, extra: nat)
    requires SkinFits(m) && GuardsFit(g) && version > 21
    requires room == CopiedBytes(m) + 3 + SkinCopiedBytes(m) + extra
    requires Ready(s, Appended(SkinEntries(m, g, dot), r), g, room)
    ensures var base := ReadMesh(s, version, false, t, SkinMeshType);
      base.ok && base.value == Reloaded(m, SkinMeshType, dot) &&
      Ready(base.state, SkinRest(m, NextGuards(NextGuards(g)), dot, r), NextGuards(NextGuards(g)), SkinCopiedBytes(m) + extra)
  {
    SkinLayout(m, g, dot, r);
    assert SkinCopiedBytes(m) + extra >= 0;
    MeshReadBack(s, m, g, dot, version, t, SkinMeshType, SkinRest(m, NextGuards(NextGuards(g)), dot, r), room, SkinCopiedBytes(m) + extra);
  }

  /** The skin section's values on top of the reloaded base mesh. */
  lemma SkinReloadedOf(b: Mesh, m: Mesh, dot: (seq<int>, Normals.Normal) -> real)
    requires m.extra.Skin? && b == Reloaded(m, SkinMeshType, dot)
    ensures b.(encodedNorms := Encode(Codes(m, dot), W8), extra := Skin(m.extra.skin.(initialVerts := m.verts, initialNorms := m.norms)))
      == SkinReloaded(m, dot)
  {
  }
}
