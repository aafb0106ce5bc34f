/**
 * RoundTrip: what `TSMesh::Assemble` reads back, in the copying pass, from
 * the entries `TSMesh::Disassemble` wrote for a mesh without a parent.
 */
module RoundTrip {
  import opened Bytes
  import opened ShapeAlloc
  import opened Mesh
  import opened ReadCursor
  import opened MeshStages
  import opened PrimitiveRuns
  import opened TailRuns
  import Bitwise
  import Normals
  import Vector

  /** A mesh without a parent whose entries keep their values through the
      writer's truncations: the head fits, the vertex arrays are whole
      vectors of 32-bit values with one normal per vertex, the counts fit
      an int32, the primitives and indices fit their int16 slots. */
  predicate MeshFits(m: Mesh)
  {
    HeadFits(m) && m.parent < 0 && InSignedRange(m.vertsPerFrame, 4) &&
    |m.verts| % 3 == 0 && |m.tverts| % 2 == 0 && |m.norms| == |m.verts| &&
    |m.verts| < 0x8000_0000 && |m.tverts| < 0x8000_0000 &&
    AllFit(m.verts, W32) && AllFit(m.tverts, W32) && AllFit(m.norms, W32) &&
    |m.primitives| < 0x8000_0000 && |m.indices| < 0x8000_0000 &&
    PrimitivesFit(m.primitives) && IndicesFit(m.indices)
  }

  /** The mesh `TSMesh::Assemble` builds from what was written for m: the
      type code ORed into mesh_type_, the radius through an integer, the
      encoded normals the codes the writer chose. */
  function Reloaded(m: Mesh, typeCode: Bitwise.Word, dot: (seq<int>, Normals.Normal) -> real): Mesh
  {
    m.(meshType := SetFlags(typeCode, m.meshType), radius := RadiusAsWritten(m.radius),
       encodedNorms := Encode(Codes(m, dot), W8), extra := Standard)
  }

  /** The bytes the copying pass copies for a mesh without a parent: the
      vertices, texture vertices and normals, one code per vertex. */
  function CopiedBytes(m: Mesh): int
  {
    4 * |m.verts| + 4 * |m.tverts| + 4 * |m.norms| + |m.verts| / 3
  }

  /** The entries written for m followed by r, grouped the way the reader
      takes them: head, vertex arrays, primitives, tail, then r. */
  function MeshStreams(m: Mesh, g: PerWidth<int>, dot: (seq<int>, Normals.Normal) -> real, r: PerWidth<seq<int>>): PerWidth<seq<int>>
  {
    var n := NextGuards(g);
    PerWidth(Streams32(m, g.w32, n.w32, r.w32),
             [g.w16] + (Halves(m.primitives) + (Shorts(m.indices) + ([n.w16] + r.w16))),
             [g.w8] + (Codes(m, dot) + ([n.w8] + r.w8)))
  }

  /** The 32-bit part of `MeshStreams`, between the guards g and n. */
  function Streams32(m: Mesh, g: int, n: int, r: seq<int>): seq<int>
  {
    var x3 := [0] + ([Wrap(m.vertsPerFrame, 4)] + ([Wrap(m.meshType, 4)] + ([n] + r)));
    var x2 := [|m.primitives|] + (Mats(m.primitives) + ([|m.indices|] + x3));
    var x1 := [|m.verts| / 3] + m.verts + ([|m.tverts| / 2] + m.tverts + (m.norms + x2));
    [g] + (Header32(m) + x1)
  }

  /** The vertex arrays of a mesh that fits hold whole vectors. */
  lemma WholeCounts(m: Mesh)
    requires MeshFits(m)
    ensures |m.verts| == |m.verts| / 3 * 3 && |m.norms| == |m.verts| / 3 * 3 && |m.tverts| == |m.tverts| / 2 * 2
  {
  }

  /** A count below 2^31 is its own int32. */
  lemma CountWord(n: nat)
    requires n < 0x8000_0000
    ensures Wrap(n, 4) == n
  {
    Int32Range();
    WrapProperties(n, 4);
  }

  /** A whole vector, copied, is itself. */
  lemma WholeVector(v: seq<int>, n: nat)
    requires n == |v|
    ensures Copied(Vector.Address(v), n) == v
  {
  }

  /** The vertex entries of a mesh that fits: the counts and the arrays. */
  lemma VertexEntries(m: Mesh)
    requires MeshFits(m)
    ensures Vertex32(m) == [|m.verts| / 3] + m.verts + [|m.tverts| / 2] + m.tverts + m.norms
  {
    CountWord(|m.verts| / 3);
    CountWord(|m.tverts| / 2);
    WholeVector(m.verts, 3 * (|m.verts| / 3));
    WholeVector(m.tverts, 2 * (|m.tverts| / 2));
    WholeVector(m.norms, 3 * (|m.norms| / 3));
  }

  /** Regrouping the 32-bit entries so that each stage's entries lead. */
  lemma Regroup32(g: int, h: seq<int>, v: seq<int>, p: seq<int>, t: seq<int>, n: int, r: seq<int>)
    ensures [g] + (h + v) + p + t + [n] + r == [g] + (h + (v + (p + (t + ([n] + r)))))
  {
  }

  /** Regrouping the vertex entries. */
  lemma RegroupVertex(a: int, v: seq<int>, b: int, tv: seq<int>, ns: seq<int>, rest: seq<int>)
    ensures [a] + v + [b] + tv + ns + rest == [a] + v + ([b] + tv + (ns + rest))
  {
  }

  /** Regrouping the primitive entries. */
  lemma RegroupPrims(a: int, ms: seq<int>, b: int, rest: seq<int>)
    ensures [a] + ms + [b] + rest == [a] + (ms + ([b] + rest))
  {
  }

  /** Regrouping the tail entries. */
  lemma RegroupTail(v: int, f: int, n: int, r: seq<int>)
    ensures [0] + [v] + [f] + ([n] + r) == [0] + ([v] + ([f] + ([n] + r)))
  {
  }

  /** Regrouping a stream of a guard, entries, a guard and r. */
  lemma RegroupFramed(g: int, e: seq<int>, n: int, r: seq<int>)
    ensures [g] + e + [n] + r == [g] + (e + ([n] + r))
  {
  }

  /** The 32-bit entries written for m followed by r, in the reader's groups. */
  lemma MeshLayout32(m: Mesh, g: PerWidth<int>, dot: (seq<int>, Normals.Normal) -> real, r: seq<int>)
    requires MeshFits(m)
    ensures MeshEntries(m, g, dot).w32 + r == Streams32(m, g.w32, NextGuards(g).w32, r)
  {
    var n := NextGuards(g).w32;
    MeshEntriesLayout(m, g, dot);
    VertexEntries(m);
    CountWord(|m.primitives|);
    CountWord(|m.indices|);
    Regroup32(g.w32, Header32(m), Vertex32(m), Prim32(m), Tail32(m), n, r);
    var x3 := [0] + ([Wrap(m.vertsPerFrame, 4)] + ([Wrap(m.meshType, 4)] + ([n] + r)));
    RegroupTail(Wrap(m.vertsPerFrame, 4), Wrap(m.meshType, 4), n, r);
    assert Tail32(m) + ([n] + r) == x3;
    var x2 := [|m.primitives|] + (Mats(m.primitives) + ([|m.indices|] + x3));
    RegroupPrims(|m.primitives|, Mats(m.primitives), |m.indices|, x3);
    assert Prim32(m) + x3 == x2;
    RegroupVertex(|m.verts| / 3, m.verts, |m.tverts| / 2, m.tverts, m.norms, x2);
  }

  /** The entries written for m followed by r are the reader's groups. */
  lemma MeshLayout(m: Mesh, g: PerWidth<int>, dot: (seq<int>, Normals.Normal) -> real, r: PerWidth<seq<int>>)
    requires MeshFits(m)
    ensures Appended(MeshEntries(m, g, dot), r) == MeshStreams(m, g, dot, r)
  {
    MeshLayout32(m, g, dot, r.w32);
    MeshEntriesLayout(m, g, dot);
    var n := NextGuards(g);
    RegroupFramed(g.w16, Prim16(m), n.w16, r.w16);
    Regrouped(Halves(m.primitives), Shorts(m.indices), [n.w16] + r.w16);
    RegroupFramed(g.w8, Codes(m, dot), n.w8, r.w8);
    var e := Appended(MeshEntries(m, g, dot), r);
    assert e.w32 == Streams32(m, g.w32, n.w32, r.w32);
    assert e.w16 == MeshStreams(m, g, dot, r).w16;
    assert e.w8 == MeshStreams(m, g, dot, r).w8;
  }

  /** A 32-bit word written as an int32 and read back as an unsigned word. */
  lemma WordWrap(v: Bitwise.Word)
    ensures Wrap(v, 4) % 0x1_0000_0000 == v
  {
    Int32Range();
    if v < 0x8000_0000 {
      WrapProperties(v, 4);
      assert InSignedRange(v, 4);
    } else {
      var u := v - 0x1_0000_0000;
      assert u + 1 * Pow256(4) == v;
      WrapModular(u, 1, 4);
      assert InSignedRange(u, 4);
      WrapProperties(u, 4);
      assert Wrap(v, 4) == u;
    }
  }

  /** The entries after the vertex data, between the guards n: the
      primitives and indices and the tail, then r. */
  function Rear(m: Mesh, n: PerWidth<int>, r: PerWidth<seq<int>>): PerWidth<seq<int>>
  {
    var x3 := [0] + ([Wrap(m.vertsPerFrame, 4)] + ([Wrap(m.meshType, 4)] + ([n.w32] + r.w32)));
    PerWidth([|m.primitives|] + (Mats(m.primitives) + ([|m.indices|] + x3)),
             Halves(m.primitives) + (Shorts(m.indices) + ([n.w16] + r.w16)),
             [n.w8] + r.w8)
  }

  /** The head and the vertex data come back. */
  lemma FrontBack(s: ReadState, m: Mesh, g: PerWidth<int>, dot: (seq<int>, Normals.Normal) -> real,
                  version: int, t: Scratch, r: PerWidth<seq<int>>, room: int, extra: nat)
    requires MeshFits(m) && GuardsFit(g) && version > 21
    requires room == CopiedBytes(m) + 3 + extra
    requires Ready(s, MeshStreams(m, g, dot, r), g, room)
    ensures ReadHeader(s).ok
    ensures ReadHeader(s).value == Header(m.numFrames, m.numMatFrames, m.parent, m.bounds, m.center, RadiusAsWritten(m.radius))
    ensures var d := ReadVertexData(ReadHeader(s).state, m.parent, version, false, t);
      d.value == VertexData(m.verts, m.tverts, m.norms, Encode(Codes(m, dot), W8)) &&
      Ready(d.state, Rear(m, NextGuards(g), r), NextGuards(g), 3 + extra)
  {
    var n := NextGuards(g);
    var nv, nt := |m.verts| / 3, |m.tverts| / 2;
    var x2 := Rear(m, n, r).w32;
    var x1 := [nv] + m.verts + ([nt] + m.tverts + (m.norms + x2));
    var x16 := Rear(m, n, r).w16;
    var x8 := [n.w8] + r.w8;
    var codes := Codes(m, dot);
    assert |codes| == nv;
    WholeCounts(m);
    assert room == |m.verts| * 4 + (|m.tverts| * 4 + (|m.norms| * 4 + (nv + (3 + extra))));
    HeaderStage(s, m, PerWidth(x1, x16, codes + x8), g, room);
    var h := ReadHeader(s);
    VertexBack(h.state, version, t, m.parent, nv, m.verts, nt, m.tverts, m.norms, codes,
               |m.verts| * 4, |m.tverts| * 4, |m.norms| * 4, x2, x16, x8, n, 3 + extra);
  }

  /** The primitives, the indices and the tail come back. */
  lemma RearBack(s: ReadState, m: Mesh, n: PerWidth<int>, r: PerWidth<seq<int>>, extra: nat)
    requires MeshFits(m)
    requires Ready(s, Rear(m, n, r), n, 3 + extra)
    ensures ReadPrimitives(s).value == (m.primitives, m.indices)
    ensures var tail := ReadTail(ReadPrimitives(s).state);
      tail.ok && tail.value == (m.vertsPerFrame, m.meshType) && Ready(tail.state, r, NextGuards(n), extra)
  {
    var vw, fw := Wrap(m.vertsPerFrame, 4), Wrap(m.meshType, 4);
    var x3 := [0] + ([vw] + ([fw] + ([n.w32] + r.w32)));
    PrimitivesBack(s, m.primitives, m.indices, |m.primitives|, |m.indices|, x3, [n.w16] + r.w16, [n.w8] + r.w8, n, 3 + extra);
    TailBack(ReadPrimitives(s).state, vw, fw, r, n, extra);
    WordWrap(m.meshType);
    WrapProperties(m.vertsPerFrame, 4);
  }

  /** In the copying pass, reading what `TSMesh::Disassemble` wrote for a
      mesh that fits, followed by entries r, gives back the mesh as
      `Reloaded` describes it and leaves the reader ready for r under the
      guards after the mesh's two, with the bytes the mesh copied used. */
  lemma MeshReadBack(s: ReadState, m: Mesh, g: PerWidth<int>, dot: (seq<int>, Normals.Normal) -> real,
                     version: int, t: Scratch, typeCode: Bitwise.Word, r: PerWidth<seq<int>>, room: int, extra: nat)
    requires MeshFits(m) && GuardsFit(g) && version > 21
    requires room == CopiedBytes(m) + 3 + extra
    requires Ready(s, Appended(MeshEntries(m, g, dot), r), g, room)
    ensures ReadMesh(s, version, false, t, typeCode).ok
    ensures ReadMesh(s, version, false, t, typeCode).value == Reloaded(m, typeCode, dot)
    ensures Ready(ReadMesh(s, version, false, t, typeCode).state, r, NextGuards(NextGuards(g)), extra)
  {
    MeshLayout(m, g, dot, r);
    FrontBack(s, m, g, dot, version, t, r, room, extra);
    var d := ReadVertexData(ReadHeader(s).state, m.parent, version, false, t);
    RearBack(d.state, m, NextGuards(g), r, extra);
  }
}
