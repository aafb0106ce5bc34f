/**
 * ReadSteps: single reading steps of `TSMesh::Assemble` over entries that
 * lie encoded at the cursors, in the copying pass.
 */
module ReadSteps {
  import opened Bytes
  import opened ShapeAlloc
  import opened ReadCursor

  // ---------------------------------------------------------------------
  // The cursor
  // ---------------------------------------------------------------------

  /** A count and the run of x bytes after it, read in two moves. */
  lemma GetThenRun(k0: Cursor, k1: Cursor, k2: Cursor, x: int)
    requires k1 == Moved(k0, 4, 0, 0) && k2 == Moved(k1, x, 0, x)
    ensures k2 == Moved(k0, 4 + x, 0, x)
  {
  }

  /** Two counted runs of x and y bytes, one after the other. */
  lemma CountedTwice(k0: Cursor, k1: Cursor, k2: Cursor, x: int, y: int)
    requires k1 == Moved(k0, 4 + x, 0, x) && k2 == Moved(k1, 4 + y, 0, y)
    ensures k2 == Moved(k0, 8 + x + y, 0, x + y)
  {
  }

  /** A run of x bytes and then n codes from the 8-bit buffer. */
  lemma RunThenCodes(k0: Cursor, k1: Cursor, k2: Cursor, x: int, n: int)
    requires k1 == Moved(k0, x, 0, x) && k2 == Moved(k1, 0, n, n)
    ensures k2 == Moved(k0, x, n, x + n)
  {
  }

  /** Two counted runs of x and y bytes, then a run of z bytes and n codes. */
  lemma CountedThenRest(k0: Cursor, k1: Cursor, k2: Cursor, x: int, y: int, z: int, n: int)
    requires k1 == Moved(k0, 8 + x + y, 0, x + y) && k2 == Moved(k1, z, n, z + n)
    ensures k2 == Moved(k0, 8 + x + y + z, n, x + y + z + n)
  {
  }

  /** Moving dest_ on by x bytes leaves room for the rest. */
  lemma MovedCopying(k: Cursor, a32: int, a8: int, x: int, rest: int)
    requires Copying(k, x + rest) && 0 <= x
    ensures Copying(Moved(k, a32, a8, x), rest)
  {
  }

  /** Entries at the 8-bit cursor stay there while a run of x bytes is
      copied from the 32-bit buffer. */
  lemma Kept8(s: ReadState, t: ReadState, x: int, e8: seq<int>)
    requires CursorOf(t) == Moved(CursorOf(s), x, 0, x) && Entries8(s, e8)
    ensures Entries8(t, e8)
  {
    assert t.input == CursorOf(t).input == s.input;
    assert t.c.pos.w8 == CursorOf(t).pos.w8 == s.c.pos.w8 + 0;
  }

  /** Entries at the 8-bit cursor stay there while two counted runs of x and
      y bytes are read from the 32-bit buffer. */
  lemma Kept8Counted(s: ReadState, t: ReadState, x: int, y: int, e8: seq<int>)
    requires CursorOf(t) == Moved(CursorOf(s), 8 + x + y, 0, x + y) && Entries8(s, e8)
    ensures Entries8(t, e8)
  {
    assert t.input == CursorOf(t).input == s.input;
    assert t.c.pos.w8 == CursorOf(t).pos.w8 == s.c.pos.w8 + 0;
  }

  /** Entries at the 32-bit cursor stay there while n codes are copied from
      the 8-bit buffer. */
  lemma Kept32(s: ReadState, t: ReadState, n: int, e32: seq<int>)
    requires CursorOf(t) == Moved(CursorOf(s), 0, n, n) && Entries32(s, e32)
    ensures Entries32(t, e32)
  {
    assert t.input == CursorOf(t).input == s.input;
    assert t.c.pos.w32 == CursorOf(t).pos.w32 == s.c.pos.w32 + 0;
  }

  /** Entries at the 16-bit cursor, and the guard counters, stay while the
      vertex arrays are read: two counted runs of x and y bytes, a run of z
      bytes and n codes. */
  lemma Kept16(s: ReadState, t: ReadState, x: int, y: int, z: int, n: int, e16: seq<int>)
    requires CursorOf(t) == Moved(CursorOf(s), 8 + x + y + z, n, x + y + z + n) && Entries16(s, e16)
    ensures Entries16(t, e16) && t.c.guard == s.c.guard
  {
    assert t.input == CursorOf(t).input == s.input;
    assert t.c.pos.w16 == CursorOf(t).pos.w16 == s.c.pos.w16;
    assert t.c.guard == CursorOf(t).guard == s.c.guard;
  }

  /** `Get` moves the cursor of its width by one element and nothing else. */
  lemma GetMoves(s: ReadState)
    ensures CursorOf(s.Get(W32).1) == Moved(CursorOf(s), 4, 0, 0)
  {
  }

  /** Entries that lie encoded at q split into a front and the rest. */
  lemma Split32(input: seq<byte>, q: int, a: seq<int>, b: seq<int>)
    requires EntriesAt(input, q, a + b)
    ensures EntriesAt(input, q, a) && EntriesAt(input, q + |a| * 4, b)
  {
    SplitAt(input, q, a, b, W32);
  }

  /** A word, then the rest. */
  lemma Leading(input: seq<byte>, p: int, n: int, rest: seq<int>)
    requires EntriesAt(input, p, [n] + rest)
    ensures Load(input, p, W32) == n && EntriesAt(input, p + 4, rest)
  {
    Split32(input, p, [n], rest);
    ElementAt(input, p, [n], 0, W32);
  }

  /** Entries at the 16-bit cursor split into a front and the rest. */
  lemma Split16(s: ReadState, a: seq<int>, b: seq<int>)
    requires Entries16(s, a + b)
    ensures Slice(s.input, s.c.pos.w16, 2 * |a|) == Encode(a, W16) && AllFit(a, W16)
    ensures Slice(s.input, s.c.pos.w16 + 2 * |a|, 2 * |b|) == Encode(b, W16) && AllFit(b, W16)
  {
    SplitAt(s.input, s.c.pos.w16, a, b, W16);
  }

  /** Entries at the 8-bit cursor split into a front and the rest. */
  lemma Split8(s: ReadState, a: seq<int>, b: seq<int>)
    requires Entries8(s, a + b)
    ensures Slice(s.input, s.c.pos.w8, 1 * |a|) == Encode(a, W8) && AllFit(a, W8)
    ensures Slice(s.input, s.c.pos.w8 + 1 * |a|, 1 * |b|) == Encode(b, W8) && AllFit(b, W8)
  {
    SplitAt(s.input, s.c.pos.w8, a, b, W8);
  }

  /** Entries of width w that lie encoded at q split into a front and the
      rest. */
  lemma SplitAt(input: seq<byte>, q: int, a: seq<int>, b: seq<int>, w: Width)
    requires Slice(input, q, w.Size() * |a + b|) == Encode(a + b, w) && AllFit(a + b, w)
    ensures Slice(input, q, w.Size() * |a|) == Encode(a, w) && AllFit(a, w)
    ensures Slice(input, q + w.Size() * |a|, w.Size() * |b|) == Encode(b, w) && AllFit(b, w)
  {
    EncodedSplit(input, q, a, b, w);
    assert AllFit(a, w) by {
      forall i | 0 <= i < |a| ensures InSignedRange(a[i], w.Size()) {
        assert a[i] == (a + b)[i];
      }
    }
    assert AllFit(b, w) by {
      forall i | 0 <= i < |b| ensures InSignedRange(b[i], w.Size()) {
        assert b[i] == (a + b)[|a| + i];
      }
    }
  }

  /** Entries that fit, joined, fit. */
  lemma FitsJoined(a: seq<int>, b: seq<int>, w: Width)
    requires AllFit(a, w) && AllFit(b, w)
    ensures AllFit(a + b, w)
  {
    forall i | 0 <= i < |a + b| ensures InSignedRange((a + b)[i], w.Size()) {
      if i >= |a| {
        assert (a + b)[i] == b[i - |a|];
      }
    }
  }

  // ---------------------------------------------------------------------
  // Entries at a cursor
  // ---------------------------------------------------------------------

  /** A run of the entries that lie encoded at p decodes to that run. */
  lemma RunAt(input: seq<byte>, p: int, es: seq<int>, i: nat, n: nat, w: Width)
    requires Slice(input, p, w.Size() * |es|) == Encode(es, w) && AllFit(es, w)
    requires i + n <= |es|
    ensures Decode(Slice(input, p + i * w.Size(), n * w.Size()), w) == es[i .. i + n]
  {
    DropAt(input, p, es, i, w);
    TakeAt(input, p + i * w.Size(), es[i..], n, w);
    var c := es[i..][..n];
    assert c == es[i .. i + n];
    assert AllFit(c, w) by {
      forall j | 0 <= j < |c| ensures InSignedRange(c[j], w.Size()) {
        assert c[j] == es[i + j];
      }
    }
    DecodeEncode(c, w);
  }

  /** The entries after the first i lie encoded i entries further on. */
  lemma DropAt(input: seq<byte>, p: int, es: seq<int>, i: nat, w: Width)
    requires Slice(input, p, w.Size() * |es|) == Encode(es, w) && i <= |es|
    ensures Slice(input, p + i * w.Size(), w.Size() * |es[i..]|) == Encode(es[i..], w)
  {
    var a, b := es[..i], es[i..];
    assert es == a + b;
    EncodedSplit(input, p, a, b, w);
    assert |a| == i;
  }

  /** The first n of the entries that lie encoded at q lie encoded there. */
  lemma TakeAt(input: seq<byte>, q: int, es: seq<int>, n: nat, w: Width)
    requires Slice(input, q, w.Size() * |es|) == Encode(es, w) && n <= |es|
    ensures Slice(input, q, n * w.Size()) == Encode(es[..n], w)
  {
    var c, d := es[..n], es[n..];
    assert es == c + d;
    EncodedSplit(input, q, c, d, w);
    assert |c| == n;
  }

  /** The element at entry i of the entries that lie encoded at p. */
  lemma ElementAt(input: seq<byte>, p: int, es: seq<int>, i: nat, w: Width)
    requires Slice(input, p, w.Size() * |es|) == Encode(es, w) && AllFit(es, w)
    requires i < |es|
    ensures Load(input, p + i * w.Size(), w) == es[i]
  {
    var k := w.Size();
    RunAt(input, p, es, i, 1, w);
    var bs := Slice(input, p + i * k, 1 * k);
    assert bs[0 * k .. 0 * k + k] == bs;
  }

  /** `CheckGuard` moves each cursor past one guard and steps the guard
      counters as the writer's `SetGuard` did. */
  lemma CheckedGuards(c: Counters)
    ensures var d := c.Guarded(W32).Guarded(W16).Guarded(W8);
      d.guard == NextGuards(c.guard) && d.pos == PerWidth(c.pos.w32 + 4, c.pos.w16 + 2, c.pos.w8 + 1) &&
      d.size == c.size && d.mult == c.mult
  {
  }

  /** The head words after the guard read back as written. */
  lemma HeaderWords(s1: ReadState, p: int, es: seq<int>)
    requires s1.c.pos.w32 == p + 4 && |es| == 14
    requires Slice(s1.input, p, 4 * |es|) == Encode(es, W32) && AllFit(es, W32)
    ensures var s2 := s1.Get(W32).1;
      var s3 := s2.Get(W32).1;
      var s4 := s3.Get(W32).1;
      var s5 := s4.GetInto(W32, 6).1;
      var s6 := s5.GetInto(W32, 3).1;
      s1.Get(W32).0 == es[1] && s2.Get(W32).0 == es[2] && s3.Get(W32).0 == es[3] &&
      s4.GetInto(W32, 6).0 == es[4..10] && s5.GetInto(W32, 3).0 == es[10..13] &&
      s6.Get(W32).0 == es[13] && s6.Get(W32).1 == s1.(c := s1.c.(pos := s1.c.pos.With(W32, p + 56)))
  {
    var s2 := s1.Get(W32).1;
    var s3 := s2.Get(W32).1;
    var s4 := s3.Get(W32).1;
    var s5 := s4.GetInto(W32, 6).1;
    var s6 := s5.GetInto(W32, 3).1;
    GetAt(s1, W32, p, es, 1);
    GetAt(s2, W32, p, es, 2);
    GetAt(s3, W32, p, es, 3);
    GetIntoAt(s4, W32, p, es, 4, 6);
    GetIntoAt(s5, W32, p, es, 10, 3);
    GetAt(s6, W32, p, es, 13);
  }

  /** `Get` at entry i of the entries that lie encoded at p. */
  lemma GetAt(t: ReadState, w: Width, p: int, es: seq<int>, i: nat)
    requires t.c.pos.At(w) == p + i * w.Size() && i < |es|
    requires Slice(t.input, p, w.Size() * |es|) == Encode(es, w) && AllFit(es, w)
    ensures t.Get(w).0 == es[i]
  {
    ElementAt(t.input, p, es, i, w);
  }

  /** `Get(dest, n)` at entry i of the entries that lie encoded at p. */
  lemma GetIntoAt(t: ReadState, w: Width, p: int, es: seq<int>, i: nat, n: nat)
    requires t.c.pos.At(w) == p + i * w.Size() && i + n <= |es|
    requires Slice(t.input, p, w.Size() * |es|) == Encode(es, w) && AllFit(es, w)
    ensures t.GetInto(w, n).0 == es[i .. i + n]
  {
    RunAt(t.input, p, es, i, n, w);
  }

  // ---------------------------------------------------------------------
  // Counted runs
  // ---------------------------------------------------------------------

  /** A count n at the cursor is read back by `Get`, and the rest lies
      encoded at the new cursor. */
  lemma CountFirst(s: ReadState, n: int, rest: seq<int>)
    requires Entries32(s, [n] + rest)
    ensures s.Get(W32).0 == n && CursorOf(s.Get(W32).1) == Moved(CursorOf(s), 4, 0, 0) && Entries32(s.Get(W32).1, rest)
  {
    var p := s.c.pos.w32;
    Split32(s.input, p, [n], rest);
    ElementAt(s.input, p, [n], 0, W32);
    GetMoves(s);
  }

  /** In the copying pass, n elements v of `words` words each that lie
      encoded at the cursor are copied into the shape block and read back
      whole, and the rest r lies encoded at the new cursor. */
  lemma RunRest(s: ReadState, n: nat, words: nat, v: seq<int>, r: seq<int>, x: nat, extra: nat)
    requires |v| == n * words && x == |v| * 4 && Entries32(s, v + r) && Copying(CursorOf(s), x + extra)
    ensures var (q, t) := s.CopyToShape(W32, words * n, false);
      q == ShapeAt(s.dest.value) && Decode(t.Deref(q, x), W32) == v &&
      CursorOf(t) == Moved(CursorOf(s), x, 0, x) && Entries32(t, r)
  {
    Split32(s.input, s.c.pos.w32, v, r);
    RunBack(s, n, words, v, x, extra);
  }

  /** In the copying pass, a count n followed by the n elements v of `words`
      words each is read back by `Get` and `CopyToShape`, and the rest r
      lies encoded at the new cursor. */
  lemma CountedBack(s: ReadState, n: nat, words: nat, v: seq<int>, r: seq<int>, x: nat, extra: nat)
    requires |v| == n * words && x == |v| * 4 && Entries32(s, [n] + v + r) && Copying(CursorOf(s), x + extra)
    ensures s.Get(W32).0 == n
    ensures var (q, t) := s.Get(W32).1.CopyToShape(W32, words * n, false);
      q == ShapeAt(s.dest.value) && Decode(t.Deref(q, x), W32) == v &&
      CursorOf(t) == Moved(CursorOf(s), 4 + x, 0, x) && Entries32(t, r)
  {
    assert [n] + v + r == [n] + (v + r);
    CountFirst(s, n, v + r);
    MovedCopying(CursorOf(s), 4, 0, 0, x + extra);
    RunRest(s.Get(W32).1, n, words, v, r, x, extra);
    var (q, t) := s.Get(W32).1.CopyToShape(W32, words * n, false);
    GetThenRun(CursorOf(s), CursorOf(s.Get(W32).1), CursorOf(t), x);
  }

  /** In the copying pass, n elements v of `words` words each that lie
      encoded at the cursor are copied into the shape block and read back
      whole. */
  lemma RunBack(s: ReadState, n: nat, words: nat, v: seq<int>, x: nat, extra: nat)
    requires |v| == n * words && x == |v| * 4 && Entries32(s, v) && Copying(CursorOf(s), x + extra)
    ensures var (q, t) := s.CopyToShape(W32, words * n, false);
      q == ShapeAt(s.dest.value) && Decode(t.Deref(q, x), W32) == v &&
      CursorOf(t) == Moved(CursorOf(s), x, 0, x)
  {
    var num := |v|;
    assert words * n == num && n * words == num && 4 * num == num * 4;
    var bs := Slice(s.input, s.c.pos.w32, num * 4);
    var (p, t) := s.CopyToShape(W32, num, false);
    assert p == ShapeAt(s.dest.value);
    assert t.shape == Store(s.shape, s.dest.value, bs);
    StoreThenSlice(s.shape, s.dest.value, bs);
    assert t.Deref(p, num * 4) == bs;
    DecodeEncode(v, W32);
  }

  /** In the copying pass, nv codes that lie encoded at the 8-bit cursor are
      copied into the shape block and read back as their bytes, and the rest
      r lies encoded at the new cursor. */
  lemma CodesBack(s: ReadState, nv: nat, codes: seq<int>, r: seq<int>, extra: nat)
    requires |codes| == nv && Entries8(s, codes + r) && Copying(CursorOf(s), nv + extra)
    ensures var (q, t) := s.CopyToShape(W8, nv, false);
      q == ShapeAt(s.dest.value) && t.Deref(q, nv) == Encode(codes, W8) && CursorOf(t) == Moved(CursorOf(s), 0, nv, nv) &&
      Entries8(t, r)
  {
    Split8(s, codes, r);
    CopyLandsAtDest(s, W8, nv, false);
  }
}
