/**
 * VertexRuns: the steps of reading back, in the copying pass, the counted
 * vertex arrays `TSMesh::Disassemble` writes: each count and the run after it
 * come back as the vector `Vector::Set` points into the shape block.
 */
module VertexRuns {
  import opened Bytes
  import opened ShapeAlloc
  import opened Mesh
  import opened ReadCursor
  import opened ReadSteps

  /** The second half of `VertexBack`: the normals, xn bytes, and their
      codes, with the rests r32 and r8 after them. */
  lemma VertexRest(s: ReadState, nv: nat, norms: seq<int>, codes: seq<int>, xn: nat, r32: seq<int>, r8: seq<int>, extra: nat)
    requires |norms| == nv * 3 && xn == |norms| * 4 && |codes| == nv && Entries32(s, norms + r32) && Entries8(s, codes + r8)
    requires Copying(CursorOf(s), xn + (nv + extra))
    ensures var (pn, s5) := s.CopyToShape(W32, 3 * nv, false);
      var (pe, s6) := s5.CopyToShape(W8, nv, false);
      VectorAt(s5, pn, nv, 3, W32) == norms && BytesAt(s6, pe, nv) == Encode(codes, W8) &&
      CursorOf(s6) == Moved(CursorOf(s), xn, nv, xn + nv) &&
      Entries32(s6, r32) && Entries8(s6, r8) && Copying(CursorOf(s6), extra)
  {
    RunRest(s, nv, 3, norms, r32, xn, nv + extra);
    var (pn, s5) := s.CopyToShape(W32, 3 * nv, false);
    VectorOfRun(s5, pn, nv, 3, norms, xn);
    MovedCopying(CursorOf(s), xn, 0, xn, nv + extra);
    Kept8(s, s5, xn, codes + r8);
    CodesBack(s5, nv, codes, r8, extra);
    var (pe, s6) := s5.CopyToShape(W8, nv, false);
    BytesOfRun(s6, pe, nv, Encode(codes, W8));
    Kept32(s5, s6, nv, r32);
    MovedCopying(CursorOf(s5), 0, nv, nv, extra);
    RunThenCodes(CursorOf(s), CursorOf(s5), CursorOf(s6), xn, nv);
  }

  /** The first half of `VertexBack`: the two counts and the vertex and
      texture vertex arrays after them, read into the states s2 and s4. */
  lemma VertexFront(s: ReadState, nv: nat, verts: seq<int>, nt: nat, tverts: seq<int>, norms: seq<int>, extra: nat,
                    pv: Ptr, s2: ReadState, pt: Ptr, s4: ReadState, xv: nat, xt: nat)
    requires |verts| == nv * 3 && |tverts| == nt * 2 && xv == |verts| * 4 && xt == |tverts| * 4
    requires Entries32(s, [nv] + verts + ([nt] + tverts + norms))
    requires Copying(CursorOf(s), xv + (xt + extra))
    requires (pv, s2) == s.Get(W32).1.CopyToShape(W32, 3 * nv, false)
    requires (pt, s4) == s2.Get(W32).1.CopyToShape(W32, 2 * nt, false)
    ensures s.Get(W32).0 == nv && s2.Get(W32).0 == nt
    ensures VectorAt(s2, pv, nv, 3, W32) == verts && VectorAt(s4, pt, nt, 2, W32) == tverts
    ensures CursorOf(s4) == Moved(CursorOf(s), 8 + xv + xt, 0, xv + xt)
    ensures Entries32(s4, norms) && Copying(CursorOf(s4), extra)
  {
    CountedVector(s, nv, 3, verts, [nt] + tverts + norms, xt + extra, pv, s2, xv);
    MovedCopying(CursorOf(s), 4 + xv, 0, xv, xt + extra);
    CountedVector(s2, nt, 2, tverts, norms, extra, pt, s4, xt);
    MovedCopying(CursorOf(s2), 4 + xt, 0, xt, extra);
    CountedTwice(CursorOf(s), CursorOf(s2), CursorOf(s4), xv, xt);
  }

  /** In the copying pass, a count n and the n elements v after it, x bytes,
      read back as the vector `Vector::Set` makes of them. */
  lemma CountedVector(s: ReadState, n: nat, words: nat, v: seq<int>, r: seq<int>, extra: nat, q: Ptr, t: ReadState, x: nat)
    requires |v| == n * words && x == |v| * 4 && Entries32(s, [n] + v + r) && Copying(CursorOf(s), x + extra)
    requires (q, t) == s.Get(W32).1.CopyToShape(W32, words * n, false)
    ensures s.Get(W32).0 == n && VectorAt(t, q, n, words, W32) == v
    ensures CursorOf(t) == Moved(CursorOf(s), 4 + x, 0, x) && Entries32(t, r)
  {
    CountedBack(s, n, words, v, r, x, extra);
    VectorOfRun(t, q, n, words, v, x);
  }

  /** A run copied into the shape block, as the vector `Vector::Set` makes
      of it. */
  lemma VectorOfRun(t: ReadState, q: Ptr, n: nat, words: nat, v: seq<int>, x: nat)
    requires q.ShapeAt? && |v| == n * words && x == |v| * 4 && Decode(t.Deref(q, x), W32) == v
    ensures VectorAt(t, q, n, words, W32) == v
  {
    assert Count(n) * words * W32.Size() == x;
  }

  /** Bytes copied into the shape block, as the vector `Vector::Set` makes
      of them. */
  lemma BytesOfRun(t: ReadState, q: Ptr, n: nat, bs: seq<byte>)
    requires q.ShapeAt? && t.Deref(q, n) == bs
    ensures BytesAt(t, q, n) == bs
  {
  }
}
