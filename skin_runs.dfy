/**
 * SkinRuns: the stages of what `TSSkinMesh::Assemble` reads after the base
 * mesh, in the copying pass, from the entries `TSSkinMesh::Disassemble`
 * wrote for a skin mesh without a parent: the vertices and normals with
 * their codes, the skin lists, and the closing guard.
 */
module SkinRuns {
  import opened Bytes
  import opened ShapeAlloc
  import opened Mesh
  import opened ReadCursor
  import opened ReadSteps
  import opened VertexRuns
  import opened TailRuns

  /** A move of the 32-bit cursor and dest_ keeps what lies at the other
      two cursors and the guard counters. */
  lemma Kept(s: ReadState, t: ReadState, a32: int, x: int, e16: seq<int>, e8: seq<int>)
    requires CursorOf(t) == Moved(CursorOf(s), a32, 0, x) && Entries16(s, e16) && Entries8(s, e8)
    ensures Entries16(t, e16) && Entries8(t, e8) && t.c.guard == s.c.guard
  {
  }

  /** A move of the 8-bit cursor and dest_ keeps what lies at the other two
      cursors and the guard counters. */
  lemma KeptWide(s: ReadState, t: ReadState, n: int, e32: seq<int>, e16: seq<int>)
    requires CursorOf(t) == Moved(CursorOf(s), 0, n, n) && Entries32(s, e32) && Entries16(s, e16)
    ensures Entries32(t, e32) && Entries16(t, e16) && t.c.guard == s.c.guard
  {
  }

  /** A count n and the n elements v after it, x bytes, read back as v. */
  lemma CountedStage(s: ReadState, n: nat, words: nat, v: seq<int>, x32: seq<int>, e16: seq<int>, e8: seq<int>,
                     g: PerWidth<int>, x: nat, extra: nat)
    requires |v| == n * words && x == |v| * 4
    requires Ready(s, PerWidth([n] + v + x32, e16, e8), g, x + extra)
    ensures s.Get(W32).0 == n
    ensures var (q, t) := s.Get(W32).1.CopyToShape(W32, words * n, false);
      VectorAt(t, q, n, words, W32) == v && Ready(t, PerWidth(x32, e16, e8), g, extra)
  {
    var (q, t) := s.Get(W32).1.CopyToShape(W32, words * n, false);
    CountedVector(s, n, words, v, x32, extra, q, t, x);
    Kept(s, t, 4 + x, x, e16, e8);
    MovedCopying(CursorOf(s), 4 + x, 0, x, extra);
  }

  /** The n elements v at the cursor, x bytes, read back as v. */
  lemma RunStage(s: ReadState, n: nat, words: nat, v: seq<int>, x32: seq<int>, e16: seq<int>, e8: seq<int>,
                 g: PerWidth<int>, x: nat, extra: nat)
    requires |v| == n * words && x == |v| * 4
    requires Ready(s, PerWidth(v + x32, e16, e8), g, x + extra)
    ensures var (q, t) := s.CopyToShape(W32, words * n, false);
      VectorAt(t, q, n, words, W32) == v && Ready(t, PerWidth(x32, e16, e8), g, extra)
  {
    var (q, t) := s.CopyToShape(W32, words * n, false);
    RunRest(s, n, words, v, x32, x, extra);
    VectorOfRun(t, q, n, words, v, x);
    Kept(s, t, x, x, e16, e8);
    MovedCopying(CursorOf(s), x, 0, x, extra);
  }

  /** The nv codes at the 8-bit cursor read back as their bytes. */
  lemma CodesStage(s: ReadState, nv: nat, codes: seq<int>, e32: seq<int>, e16: seq<int>, x8: seq<int>,
                   g: PerWidth<int>, extra: nat)
    requires |codes| == nv
    requires Ready(s, PerWidth(e32, e16, codes + x8), g, nv + extra)
    ensures var (q, t) := s.CopyToShape(W8, nv, false);
      BytesAt(t, q, nv) == Encode(codes, W8) && Ready(t, PerWidth(e32, e16, x8), g, extra)
  {
    var (q, t) := s.CopyToShape(W8, nv, false);
    CodesBack(s, nv, codes, x8, extra);
    BytesOfRun(t, q, nv, Encode(codes, W8));
    KeptWide(s, t, nv, e32, e16);
    MovedCopying(CursorOf(s), 0, nv, nv, extra);
  }

  /** The guards g at the three cursors pass `CheckGuard`, which steps the
      guard counters past them. */
  lemma GuardStage(s: ReadState, x: PerWidth<seq<int>>, g: PerWidth<int>, room: int)
    requires Ready(s, PerWidth([g.w32] + x.w32, [g.w16] + x.w16, [g.w8] + x.w8), g, room)
    ensures s.CheckGuard().0
    ensures Ready(s.CheckGuard().1, x, NextGuards(g), room)
  {
    assert Load(s.input, s.c.pos.w32, W32) == g.w32 && EntriesAt(s.input, s.c.pos.w32 + 4, x.w32) by {
      Leading(s.input, s.c.pos.w32, g.w32, x.w32);
    }
    Guard16(s, g.w16, x.w16);
    Guard8(s, g.w8, x.w8);
    ReadyAfterGuard(s, s.CheckGuard().1, x, g, room);
  }

  /** After the guards, the reader is ready for what follows them. */
  lemma ReadyAfterGuard(s: ReadState, t: ReadState, x: PerWidth<seq<int>>, g: PerWidth<int>, room: int)
    requires t.c == s.c.Guarded(W32).Guarded(W16).Guarded(W8) && t.input == s.input && t.dest == s.dest && t.shape == s.shape
    requires EntriesAt(s.input, s.c.pos.w32 + 4, x.w32)
    requires Slice(s.input, s.c.pos.w16 + 2, 2 * |x.w16|) == Encode(x.w16, W16) && AllFit(x.w16, W16)
    requires Slice(s.input, s.c.pos.w8 + 1, 1 * |x.w8|) == Encode(x.w8, W8) && AllFit(x.w8, W8)
    requires s.c.guard == g && Copying(CursorOf(s), room)
    ensures Ready(t, x, NextGuards(g), room)
  {
    CheckedGuards(s.c);
  }

  /** Without a parent and without skipping, the sharing rule copies: the
      skin vertices are read by `Get` and `CopyToShape` alone. */
  lemma SkinVertexSteps(s: ReadState, parent: int, version: int, t: Scratch)
    requires parent < 0 && version > 21
    ensures var (nv, s1) := s.Get(W32);
      var (pv, s2) := s1.CopyToShape(W32, 3 * nv, false);
      var (pn, s3) := s2.CopyToShape(W32, 3 * nv, false);
      var (pe, s4) := s3.CopyToShape(W8, nv, false);
      ReadSkinVertices(s, parent, version, false, t) ==
        Read((VectorAt(s2, pv, nv, 3, W32), VectorAt(s3, pn, nv, 3, W32), BytesAt(s4, pe, nv)), true, s4)
  {
  }

  /** Without a parent and without skipping, the skin lists are read by
      `Get`, `CopyToShape` and `CheckGuard` alone. */
  lemma SkinListSteps(s: ReadState, parent: int, t: Scratch)
    requires parent < 0
    ensures var (nt, s5) := s.Get(W32);
      var (pt, s6) := s5.CopyToShape(W32, 16 * nt, false);
      var (sz, s7) := s6.Get(W32);
      var (pvi, s8) := s7.CopyToShape(W32, 1 * sz, false);
      var (pbi, s9) := s8.CopyToShape(W32, 1 * sz, false);
      var (pw, s10) := s9.CopyToShape(W32, 1 * sz, false);
      var (nn, s11) := s10.Get(W32);
      var (pni, s12) := s11.CopyToShape(W32, 1 * nn, false);
      ReadSkinLists(s, parent, false, t) ==
        Read((VectorAt(s6, pt, nt, 16, W32), VectorAt(s8, pvi, sz, 1, W32), VectorAt(s9, pbi, sz, 1, W32),
              VectorAt(s10, pw, sz, 1, W32), VectorAt(s12, pni, nn, 1, W32)), s12.CheckGuard().0, s12.CheckGuard().1)
  {
  }

  /** The skin vertices, normals and codes come back. */
  lemma SkinVerticesBack(s: ReadState, parent: int, version: int, t: Scratch, nv: nat, verts: seq<int>, norms: seq<int>,
                         codes: seq<int>, x32: seq<int>, e16: seq<int>, x8: seq<int>, g: PerWidth<int>, extra: nat)
    requires parent < 0 && version > 21
    requires |verts| == nv * 3 && |norms| == nv * 3 && |codes| == nv
    requires Ready(s, PerWidth([nv] + verts + (norms + x32), e16, codes + x8), g, |verts| * 4 + (|norms| * 4 + (nv + extra)))
    ensures var r := ReadSkinVertices(s, parent, version, false, t);
      r.value == (verts, norms, Encode(codes, W8)) && Ready(r.state, PerWidth(x32, e16, x8), g, extra)
  {
    SkinVertexSteps(s, parent, version, t);
    CountedStage(s, nv, 3, verts, norms + x32, e16, codes + x8, g, |verts| * 4, |norms| * 4 + (nv + extra));
    var (pv, s2) := s.Get(W32).1.CopyToShape(W32, 3 * nv, false);
    RunStage(s2, nv, 3, norms, x32, e16, codes + x8, g, |norms| * 4, nv + extra);
    var (pn, s3) := s2.CopyToShape(W32, 3 * nv, false);
    CodesStage(s3, nv, codes, x32, e16, x8, g, extra);
  }

  /** The skin lists come back: the transforms, the vertex indices, bone
      indices and weights under their one count, the node indices; the
      closing guard passes. */
  lemma SkinListsBack(s: ReadState, parent: int, t: Scratch, nt: nat, transforms: seq<int>, sz: nat,
                      vertexIndex: seq<int>, boneIndex: seq<int>, weight: seq<int>, nn: nat, nodeIndex: seq<int>,
                      x: PerWidth<seq<int>>, g: PerWidth<int>, extra: nat)
    requires parent < 0
    requires |transforms| == nt * 16 && |vertexIndex| == sz && |boneIndex| == sz && |weight| == sz && |nodeIndex| == nn
    requires Ready(s, PerWidth([nt] + transforms + ([sz] + vertexIndex + (boneIndex + (weight + ([nn] + nodeIndex + ([g.w32] + x.w32))))),
                               [g.w16] + x.w16, [g.w8] + x.w8), g,
                   nt * 64 + (sz * 4 + (sz * 4 + (sz * 4 + (nn * 4 + extra)))))
    ensures var r := ReadSkinLists(s, parent, false, t);
      r.ok && r.value == (transforms, vertexIndex, boneIndex, weight, nodeIndex) && Ready(r.state, x, NextGuards(g), extra)
  {
    var e16, e8 := [g.w16] + x.w16, [g.w8] + x.w8;
    var x5 := [g.w32] + x.w32;
    var x4 := [nn] + nodeIndex + x5;
    var x3 := weight + x4;
    var x2 := boneIndex + x3;
    var x1 := [sz] + vertexIndex + x2;
    SkinListSteps(s, parent, t);
    CountedStage(s, nt, 16, transforms, x1, e16, e8, g, nt * 64, sz * 4 + (sz * 4 + (sz * 4 + (nn * 4 + extra))));
    var (pt, s6) := s.Get(W32).1.CopyToShape(W32, 16 * nt, false);
    CountedStage(s6, sz, 1, vertexIndex, x2, e16, e8, g, sz * 4, sz * 4 + (sz * 4 + (nn * 4 + extra)));
    var (pvi, s8) := s6.Get(W32).1.CopyToShape(W32, 1 * sz, false);
    SkinListsRest(s8, sz, boneIndex, weight, nn, nodeIndex, x, g, extra);
  }

  /** The bone indices and weights, the node indices and the guard. */
  lemma SkinListsRest(s8: ReadState, sz: nat, boneIndex: seq<int>, weight: seq<int>, nn: nat, nodeIndex: seq<int>,
                      x: PerWidth<seq<int>>, g: PerWidth<int>, extra: nat)
    requires |boneIndex| == sz && |weight| == sz && |nodeIndex| == nn
    requires Ready(s8, PerWidth(boneIndex + (weight + ([nn] + nodeIndex + ([g.w32] + x.w32))), [g.w16] + x.w16, [g.w8] + x.w8), g,
                   sz * 4 + (sz * 4 + (nn * 4 + extra)))
    ensures var (pbi, s9) := s8.CopyToShape(W32, 1 * sz, false);
      var (pw, s10) := s9.CopyToShape(W32, 1 * sz, false);
      var (pni, s12) := s10.Get(W32).1.CopyToShape(W32, 1 * nn, false);
      VectorAt(s9, pbi, sz, 1, W32) == boneIndex && VectorAt(s10, pw, sz, 1, W32) == weight &&
      s10.Get(W32).0 == nn && VectorAt(s12, pni, nn, 1, W32) == nodeIndex &&
      s12.CheckGuard().0 && Ready(s12.CheckGuard().1, x, NextGuards(g), extra)
  {
    var e16, e8 := [g.w16] + x.w16, [g.w8] + x.w8;
    var x5 := [g.w32] + x.w32;
    var x4 := [nn] + nodeIndex + x5;
    RunStage(s8, sz, 1, boneIndex, weight + x4, e16, e8, g, sz * 4, sz * 4 + (nn * 4 + extra));
    var (pbi, s9) := s8.CopyToShape(W32, 1 * sz, false);
    RunStage(s9, sz, 1, weight, x4, e16, e8, g, sz * 4, nn * 4 + extra);
    var (pw, s10) := s9.CopyToShape(W32, 1 * sz, false);
    CountedStage(s10, nn, 1, nodeIndex, x5, e16, e8, g, nn * 4, extra);
    var (pni, s12) := s10.Get(W32).1.CopyToShape(W32, 1 * nn, false);
    GuardStage(s12, x, g, extra);
  }
}
