/**
 * MeshStages: the stages of what `TSMesh::Assemble` and `TSSkinMesh::Assemble` read back,
 * in the copying pass, from the entries `TSMesh::Disassemble` and
 * `TSSkinMesh::Disassemble` wrote. The mesh comes back with three
 * differences the writer puts there: the radius goes through an integer, the
 * encoded normals are the codes the writer chose, and the constructor's type
 * code is ORed into mesh_type_. A skin mesh's initial vertices and normals
 * come back as its current ones, which is what the writer copies.
 */
module MeshStages {
  import opened Bytes
  import opened ShapeAlloc
  import opened Mesh
  import opened ReadCursor
  import opened ReadSteps
  import opened VertexRuns
  import Bitwise
  import Float32
  import Normals
  import Vector

  // ---------------------------------------------------------------------
  // The head
  // ---------------------------------------------------------------------

  /** The radius as the writer stores it and the reader rebuilds it: truncated
      to a 32-bit integer and converted back. */
  function RadiusAsWritten(radius: Float32.Bits): (r: Float32.Bits)
    ensures Float32.TruncToInt(radius) == 0 ==> r == Float32.FromInt(0)
  {
    WrapProperties(0, 4);
    Float32.FromInt(Wrap(Float32.TruncToInt(radius), 4))
  }

  /** The head of a mesh fits its 32-bit slots. */
  predicate HeadFits(m: Mesh)
  {
    InSignedRange(m.numFrames, 4) && InSignedRange(m.numMatFrames, 4) && InSignedRange(m.parent, 4) &&
    |m.bounds| == 6 && |m.center| == 3 && AllFit(m.bounds, W32) && AllFit(m.center, W32)
  }

  /** The head entries of a mesh that fits are its own fields. */
  lemma HeaderEntries(m: Mesh)
    requires HeadFits(m)
    ensures Header32(m) == [m.numFrames, m.numMatFrames, m.parent] + m.bounds + m.center + [Wrap(Float32.TruncToInt(m.radius), 4)]
    ensures AllFit(Header32(m), W32)
  {
    assert [m.numFrames] + [m.numMatFrames] + [m.parent] == [m.numFrames, m.numMatFrames, m.parent];
    var r := Wrap(Float32.TruncToInt(m.radius), 4);
    WrapProperties(m.numFrames, 4);
    WrapProperties(m.numMatFrames, 4);
    WrapProperties(m.parent, 4);
    CopiedWhole(m.bounds);
    CopiedWhole(m.center);
    assert Header32(m) == [m.numFrames] + [m.numMatFrames] + [m.parent] + m.bounds + m.center + [r];
    HeadFit(m.numFrames, m.numMatFrames, m.parent, m.bounds, m.center, Float32.TruncToInt(m.radius));
  }

  /** The head entries fit their slots. */
  lemma HeadFit(a: int, b: int, c: int, bounds: seq<int>, center: seq<int>, radius: int)
    requires InSignedRange(a, 4) && InSignedRange(b, 4) && InSignedRange(c, 4)
    requires AllFit(bounds, W32) && AllFit(center, W32)
    ensures AllFit([a, b, c] + bounds + center + [Wrap(radius, 4)], W32)
  {
    WrapProperties(radius, 4);
    FitsJoined([a, b, c], bounds, W32);
    FitsJoined([a, b, c] + bounds, center, W32);
    FitsJoined([a, b, c] + bounds + center, [Wrap(radius, 4)], W32);
  }

  /** Copying all of a vector's elements appends exactly them. */
  lemma CopiedWhole(v: seq<int>)
    ensures Copied(Some(v), |v|) == v
  {
  }

  /** In the copying pass, a guard and the head entries e after it read
      back as written: the guard matches, the fields come back in order, and
      each cursor is past its entries. */
  lemma HeaderBack(s: ReadState, e: seq<int>)
    requires |e| == 14 && AllFit(e, W32) && GuardsFit(s.c.guard) && e[0] == s.c.guard.w32
    requires Slice(s.input, s.c.pos.w32, 4 * |e|) == Encode(e, W32)
    requires Slice(s.input, s.c.pos.w16, 2 * |[s.c.guard.w16]|) == Encode([s.c.guard.w16], W16)
    requires Slice(s.input, s.c.pos.w8, 1 * |[s.c.guard.w8]|) == Encode([s.c.guard.w8], W8)
    ensures var r := ReadHeader(s);
      r.ok && r.value == Header(e[1], e[2], e[3], e[4..10], e[10..13], Float32.FromInt(e[13]))
    ensures var t := ReadHeader(s).state;
      t.c.pos == PerWidth(s.c.pos.w32 + 56, s.c.pos.w16 + 2, s.c.pos.w8 + 1) && t.c.guard == NextGuards(s.c.guard) &&
      t.c.mult == s.c.mult && t.input == s.input && t.dest == s.dest && t.shape == s.shape
  {
    var g := s.c.guard;
    GetWritten(s, W16, g.w16);
    GetWritten(s, W8, g.w8);
    ElementAt(s.input, s.c.pos.w32, e, 0, W32);
    CheckedGuards(s.c);
    HeaderWords(s.CheckGuard().1, s.c.pos.w32, e);
    HeaderSteps(s);
  }

  /** `ReadHeader` step by step. */
  lemma HeaderSteps(s: ReadState)
    ensures var s1 := s.CheckGuard().1;
      var s2 := s1.Get(W32).1;
      var s3 := s2.Get(W32).1;
      var s4 := s3.Get(W32).1;
      var s5 := s4.GetInto(W32, 6).1;
      var s6 := s5.GetInto(W32, 3).1;
      ReadHeader(s) == Read(Header(s1.Get(W32).0, s2.Get(W32).0, s3.Get(W32).0, s4.GetInto(W32, 6).0, s5.GetInto(W32, 3).0,
                                   Float32.FromInt(s6.Get(W32).0)), s.CheckGuard().0, s6.Get(W32).1)
  {
  }

  /** In the copying pass, the guards and the head entries of a mesh whose
      head fits read back as its head, the radius as the writer stored it;
      the reader is then ready for what follows, with the guard counters
      stepped as the writer stepped them. */
  lemma HeaderStage(s: ReadState, m: Mesh, x: PerWidth<seq<int>>, g: PerWidth<int>, room: int)
    requires HeadFits(m) && GuardsFit(g)
    requires Ready(s, PerWidth([g.w32] + (Header32(m) + x.w32), [g.w16] + x.w16, [g.w8] + x.w8), g, room)
    ensures ReadHeader(s).ok
    ensures ReadHeader(s).value == Header(m.numFrames, m.numMatFrames, m.parent, m.bounds, m.center, RadiusAsWritten(m.radius))
    ensures Ready(ReadHeader(s).state, x, NextGuards(g), room)
  {
    var e := [g.w32] + Header32(m);
    GuardAndHead(m, g.w32, x.w32);
    HeaderReady(s, e, x, g, room);
  }

  /** The guard and the head entries of a mesh whose head fits: fourteen
      entries that fit, holding the fields in order. */
  lemma GuardAndHead(m: Mesh, guard: int, rest: seq<int>)
    requires HeadFits(m) && InSignedRange(guard, 4)
    ensures var e := [guard] + Header32(m);
      [guard] + (Header32(m) + rest) == e + rest && |e| == 14 && AllFit(e, W32) && e[0] == guard &&
      e[1] == m.numFrames && e[2] == m.numMatFrames && e[3] == m.parent && e[4..10] == m.bounds && e[10..13] == m.center &&
      e[13] == Wrap(Float32.TruncToInt(m.radius), 4) && -0x8000_0000 <= e[13] < 0x8000_0000
  {
    var e := [guard] + Header32(m);
    assert [guard] + (Header32(m) + rest) == e + rest;
    HeaderEntries(m);
    FitsJoined([guard], Header32(m), W32);
    var r := Wrap(Float32.TruncToInt(m.radius), 4);
    HeadIndices(guard, m.numFrames, m.numMatFrames, m.parent, m.bounds, m.center, r);
    assert e == [guard] + ([m.numFrames, m.numMatFrames, m.parent] + m.bounds + m.center + [r]);
    WrapProperties(Float32.TruncToInt(m.radius), 4);
    Int32Range();
  }

  /** Where each field lies among the guard and the head entries. */
  lemma HeadIndices(guard: int, a: int, b: int, c: int, bounds: seq<int>, center: seq<int>, r: int)
    requires |bounds| == 6 && |center| == 3
    ensures var e := [guard] + ([a, b, c] + bounds + center + [r]);
      |e| == 14 && e[0] == guard && e[1] == a && e[2] == b && e[3] == c && e[4..10] == bounds && e[10..13] == center && e[13] == r
  {
    var e := [guard] + ([a, b, c] + bounds + center + [r]);
    assert e == [guard, a, b, c] + bounds + center + [r];
  }

  /** `HeaderBack` from a ready state: afterwards the reader is ready for
      the rest, with the guard counters stepped. */
  lemma HeaderReady(s: ReadState, e: seq<int>, x: PerWidth<seq<int>>, g: PerWidth<int>, room: int)
    requires |e| == 14 && AllFit(e, W32) && e[0] == g.w32 && GuardsFit(g) && -0x8000_0000 <= e[13] < 0x8000_0000
    requires Ready(s, PerWidth(e + x.w32, [g.w16] + x.w16, [g.w8] + x.w8), g, room)
    ensures var r := ReadHeader(s);
      r.ok && r.value == Header(e[1], e[2], e[3], e[4..10], e[10..13], Float32.FromInt(e[13]))
    ensures Ready(ReadHeader(s).state, x, NextGuards(g), room)
  {
    Split32(s.input, s.c.pos.w32, e, x.w32);
    Split16(s, [g.w16], x.w16);
    Split8(s, [g.w8], x.w8);
    HeaderBack(s, e);
  }

  // ---------------------------------------------------------------------
  // The vertex arrays
  // ---------------------------------------------------------------------

  /** `ReadVertexData` without a parent, not skipped, after version 21: two
      counted vectors, the normals and the codes, all copied. */
  lemma VertexSteps(s: ReadState, parent: int, version: int, t: Scratch, nv: int, nt: int)
    requires parent < 0 && version > 21
    requires s.Get(W32).0 == nv && s.Get(W32).1.CopyToShape(W32, 3 * nv, false).1.Get(W32).0 == nt
    ensures var s1 := s.Get(W32).1;
      var (pv, s2) := s1.CopyToShape(W32, 3 * nv, false);
      var s3 := s2.Get(W32).1;
      var (pt, s4) := s3.CopyToShape(W32, 2 * nt, false);
      var (pn, s5) := s4.CopyToShape(W32, 3 * nv, false);
      var (pe, s6) := s5.CopyToShape(W8, nv, false);
      ReadVertexData(s, parent, version, false, t) ==
        Read(VertexData(VectorAt(s2, pv, nv, 3, W32), VectorAt(s4, pt, nt, 2, W32), VectorAt(s5, pn, nv, 3, W32), BytesAt(s6, pe, nv)), true, s6)
  {
    var s1 := s.Get(W32).1;
    var (pv, s2) := s1.CopyToShape(W32, 3 * nv, false);
    assert SharedData(s1, W32, parent, 3 * nv, t.verts, t.dataCopied, false) == (pv, s2);
    var s3 := s2.Get(W32).1;
    var (pt, s4) := s3.CopyToShape(W32, 2 * nt, false);
    assert SharedData(s3, W32, parent, 2 * nt, t.tverts, t.dataCopied, false) == (pt, s4);
    var (pn, s5) := s4.CopyToShape(W32, 3 * nv, false);
    assert SharedData(s4, W32, parent, 3 * nv, t.norms, t.dataCopied, false) == (pn, s5);
    var (pe, s6) := s5.CopyToShape(W8, nv, false);
    assert SharedData(s5, W8, parent, nv, t.encodedNorms, t.dataCopied, false) == (pe, s6);
  }

  /** In the copying pass, the entries the writer wrote for the vertex
      arrays of a mesh without a parent (counts, vertices, texture vertices,
      normals, and the codes in the 8-bit buffer) read back as those arrays,
      the codes as their bytes; the reader is then ready for what follows,
      with xv + xt + xn + nv bytes less room. */
  lemma VertexBack(s: ReadState, version: int, t: Scratch, parent: int,
                   nv: nat, verts: seq<int>, nt: nat, tverts: seq<int>, norms: seq<int>, codes: seq<int>,
                   xv: nat, xt: nat, xn: nat, x32: seq<int>, e16: seq<int>, x8: seq<int>, g: PerWidth<int>, extra: nat)
    requires parent < 0 && version > 21
    requires |verts| == nv * 3 && |tverts| == nt * 2 && |norms| == nv * 3 && |codes| == nv
    requires xv == |verts| * 4 && xt == |tverts| * 4 && xn == |norms| * 4
    requires Ready(s, PerWidth([nv] + verts + ([nt] + tverts + (norms + x32)), e16, codes + x8), g, xv + (xt + (xn + (nv + extra))))
    ensures var r := ReadVertexData(s, parent, version, false, t);
      r.value == VertexData(verts, tverts, norms, Encode(codes, W8)) && Ready(r.state, PerWidth(x32, e16, x8), g, extra)
  {
    var (pv, s2) := s.Get(W32).1.CopyToShape(W32, 3 * nv, false);
    var (pt, s4) := s2.Get(W32).1.CopyToShape(W32, 2 * nt, false);
    VertexFront(s, nv, verts, nt, tverts, norms + x32, xn + (nv + extra), pv, s2, pt, s4, xv, xt);
    Kept8Counted(s, s4, xv, xt, codes + x8);
    VertexRest(s4, nv, norms, codes, xn, x32, x8, extra);
    var (pn, s5) := s4.CopyToShape(W32, 3 * nv, false);
    var (pe, s6) := s5.CopyToShape(W8, nv, false);
    CountedThenRest(CursorOf(s), CursorOf(s4), CursorOf(s6), xv, xt, xn, nv);
    Kept16(s, s6, xv, xt, xn, nv, e16);
    VertexSteps(s, parent, version, t, nv, nt);
  }
}
