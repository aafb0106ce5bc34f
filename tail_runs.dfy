/**
 * TailRuns: reading back, in the copying pass, the tail `TSMesh::Disassemble`
 * writes: the merge-index count 0, the vertices per frame, the flag word and
 * the closing guards.
 */
module TailRuns {
  import opened Bytes
  import opened ShapeAlloc
  import opened Mesh
  import opened ReadCursor
  import opened ReadSteps

  /** The state after `ReadTail`: aligned, the 32-bit cursor past four words
      and the guard, the others past their guard, the guard counters
      stepped. */
  function TailAfter(s: ReadState): ReadState
  {
    ReadState(s.input, Counters(PerWidth(s.c.pos.w32 + 16, s.c.pos.w16 + 2, s.c.pos.w8 + 1), NextGuards(s.c.guard), s.c.Aligned().size, s.c.mult),
              s.Align32().dest, s.shape)
  }

  /** `ReadTail` when the merge-index count read is 0: the words after it
      and the guards are the elements at the cursors. */
  lemma TailSteps(s: ReadState)
    requires Load(s.input, s.c.pos.w32, W32) == 0
    ensures var p := s.c.pos;
      ReadTail(s) ==
        Read((Load(s.input, p.w32 + 4, W32), Load(s.input, p.w32 + 8, W32) % 0x1_0000_0000),
             Load(s.input, p.w32 + 12, W32) == s.c.guard.w32 && Load(s.input, p.w16, W16) == s.c.guard.w16 &&
             Load(s.input, p.w8, W8) == s.c.guard.w8,
             TailAfter(s))
  {
    TailFront(s);
    var s5 := s.Get(W32).1.GetPointer(W16, s.Get(W32).0).1.Align32().Get(W32).1.Get(W32).1;
    TailClose(s5, s);
  }

  /** The steps of `ReadTail` before the guards: the merge-index count 0,
      no 16-bit elements, the alignment, two words. */
  lemma TailFront(s: ReadState)
    requires Load(s.input, s.c.pos.w32, W32) == 0
    ensures var p := s.c.pos;
      var s1 := s.Get(W32).1;
      var s3 := s1.GetPointer(W16, s.Get(W32).0).1.Align32();
      var s4 := s3.Get(W32).1;
      var s5 := s4.Get(W32).1;
      s3.Get(W32).0 == Load(s.input, p.w32 + 4, W32) && s4.Get(W32).0 == Load(s.input, p.w32 + 8, W32) &&
      s5.c == Counters(PerWidth(p.w32 + 12, p.w16, p.w8), s.c.guard, s.c.Aligned().size, s.c.mult) &&
      s5.input == s.input && s5.dest == s.Align32().dest && s5.shape == s.shape
  {
    var p := s.c.pos;
    var s1 := s.Get(W32).1;
    assert s1 == s.(c := s.c.(pos := PerWidth(p.w32 + 4, p.w16, p.w8))) && s.Get(W32).0 == 0;
    var s2 := s1.GetPointer(W16, 0).1;
    assert s2 == s1;
  }

  /** The guards at the end of `ReadTail`, read from a state t whose
      32-bit cursor is 12 bytes past s's and which is s aligned. */
  lemma TailClose(t: ReadState, s: ReadState)
    requires t.c == Counters(PerWidth(s.c.pos.w32 + 12, s.c.pos.w16, s.c.pos.w8), s.c.guard, s.c.Aligned().size, s.c.mult)
    requires t.input == s.input && t.dest == s.Align32().dest && t.shape == s.shape
    ensures t.CheckGuard() ==
      (Load(s.input, s.c.pos.w32 + 12, W32) == s.c.guard.w32 && Load(s.input, s.c.pos.w16, W16) == s.c.guard.w16 &&
       Load(s.input, s.c.pos.w8, W8) == s.c.guard.w8, TailAfter(s))
  {
    CheckedGuards(t.c);
  }

  /** The tail words: the count 0, the vertices per frame, the flag word,
      the guard, then the rest. */
  lemma TailWords(input: seq<byte>, p: int, v: int, f: int, guard: int, x32: seq<int>)
    requires EntriesAt(input, p, [0] + ([v] + ([f] + ([guard] + x32))))
    ensures Load(input, p, W32) == 0 && Load(input, p + 4, W32) == v && Load(input, p + 8, W32) == f
    ensures Load(input, p + 12, W32) == guard && EntriesAt(input, p + 16, x32)
  {
    Leading(input, p, 0, [v] + ([f] + ([guard] + x32)));
    Leading(input, p + 4, v, [f] + ([guard] + x32));
    Leading(input, p + 8, f, [guard] + x32);
    Leading(input, p + 12, guard, x32);
  }

  /** A guard at the 16-bit cursor, then the rest. */
  lemma Guard16(s: ReadState, guard: int, x16: seq<int>)
    requires Entries16(s, [guard] + x16)
    ensures Load(s.input, s.c.pos.w16, W16) == guard
    ensures Slice(s.input, s.c.pos.w16 + 2, 2 * |x16|) == Encode(x16, W16) && AllFit(x16, W16)
  {
    Split16(s, [guard], x16);
    ElementAt(s.input, s.c.pos.w16, [guard], 0, W16);
  }

  /** A guard at the 8-bit cursor, then the rest. */
  lemma Guard8(s: ReadState, guard: int, x8: seq<int>)
    requires Entries8(s, [guard] + x8)
    ensures Load(s.input, s.c.pos.w8, W8) == guard
    ensures Slice(s.input, s.c.pos.w8 + 1, 1 * |x8|) == Encode(x8, W8) && AllFit(x8, W8)
  {
    Split8(s, [guard], x8);
    ElementAt(s.input, s.c.pos.w8, [guard], 0, W8);
  }

  /** Aligning moves dest_ by at most 3 bytes in the copying pass. */
  lemma AlignedCopying(s: ReadState, extra: int)
    requires Copying(CursorOf(s), 3 + extra)
    ensures Copying(CursorOf(s.Align32()), extra)
  {
    AlignedSize(s.c);
  }

  /** In the copying pass, the tail words and the closing guards read back
      as written: the vertices per frame, the flag word as an unsigned word
      and both guards matching; the reader is then ready for what follows,
      with the guard counters stepped and at most 3 bytes less room. */
  lemma TailBack(s: ReadState, v: int, f: int, x: PerWidth<seq<int>>, g: PerWidth<int>, extra: int)
    requires Ready(s, PerWidth([0] + ([v] + ([f] + ([g.w32] + x.w32))), [g.w16] + x.w16, [g.w8] + x.w8), g, 3 + extra)
    ensures ReadTail(s).ok && ReadTail(s).value == (v, f % 0x1_0000_0000)
    ensures Ready(ReadTail(s).state, x, NextGuards(g), extra)
  {
    TailWords(s.input, s.c.pos.w32, v, f, g.w32, x.w32);
    Guard16(s, g.w16, x.w16);
    Guard8(s, g.w8, x.w8);
    TailSteps(s);
    ReadyAfterTail(s, x, g, extra);
  }

  /** The reader after the tail is ready for the rest. */
  lemma ReadyAfterTail(s: ReadState, x: PerWidth<seq<int>>, g: PerWidth<int>, extra: int)
    requires EntriesAt(s.input, s.c.pos.w32 + 16, x.w32)
    requires Slice(s.input, s.c.pos.w16 + 2, 2 * |x.w16|) == Encode(x.w16, W16) && AllFit(x.w16, W16)
    requires Slice(s.input, s.c.pos.w8 + 1, 1 * |x.w8|) == Encode(x.w8, W8) && AllFit(x.w8, W8)
    requires s.c.guard == g && Copying(CursorOf(s), 3 + extra)
    ensures Ready(TailAfter(s), x, NextGuards(g), extra)
  {
    var t := TailAfter(s);
    assert Entries32(t, x.w32) && Entries16(t, x.w16) && Entries8(t, x.w8);
    AlignedCopying(s, extra);
    assert t.dest == s.Align32().dest && t.c.mult == s.Align32().c.mult && |t.shape| == |s.Align32().shape|;
  }
}
