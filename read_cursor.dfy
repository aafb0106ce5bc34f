/**
 * ReadCursor: the part of the reader's state that moves as `TSMesh::Assemble`
 * reads, and the entries that lie encoded at the cursors.
 */
module ReadCursor {
  import opened Bytes
  import opened ShapeAlloc

  /** What the mesh reader looks at of a reading state, besides the bytes
      already copied into the shape block: the cursors, the guard counters,
      the multiplier, the input, dest_ and the size of the shape block. */
  datatype Cursor = Cursor(pos: PerWidth<int>, guard: PerWidth<int>, mult: int, input: seq<byte>, dest: Option<int>, room: int)

  function CursorOf(s: ReadState): Cursor
  {
    Cursor(s.c.pos, s.c.guard, s.c.mult, s.input, s.dest, |s.shape|)
  }

  /** k with the 32-bit cursor n32 bytes on, the 8-bit cursor n8 bytes on and
      dest_ `bytes` bytes on. */
  function Moved(k: Cursor, n32: int, n8: int, bytes: int): Cursor
  {
    k.(pos := PerWidth(k.pos.w32 + n32, k.pos.w16, k.pos.w8 + n8),
       dest := if k.dest.Some? then Some(k.dest.value + bytes) else None)
  }

  /** The copying pass (`dest_` set, multiplier 1) with room for `bytes`
      more bytes in the shape block. */
  predicate Copying(k: Cursor, bytes: int)
  {
    k.dest.Some? && k.mult == 1 && 0 <= k.dest.value && k.dest.value + bytes <= k.room
  }

  /** The entries es lie encoded at q, and fit. */
  predicate EntriesAt(input: seq<byte>, q: int, es: seq<int>)
  {
    Slice(input, q, 4 * |es|) == Encode(es, W32) && AllFit(es, W32)
  }

  /** The entries es lie encoded at the 32-bit cursor, and fit. */
  predicate Entries32(s: ReadState, es: seq<int>)
  {
    EntriesAt(s.input, s.c.pos.w32, es)
  }

  /** The entries es lie encoded at the 16-bit cursor, and fit. */
  predicate Entries16(s: ReadState, es: seq<int>)
  {
    Slice(s.input, s.c.pos.w16, 2 * |es|) == Encode(es, W16) && AllFit(es, W16)
  }

  /** The entries es lie encoded at the 8-bit cursor, and fit. */
  predicate Entries8(s: ReadState, es: seq<int>)
  {
    Slice(s.input, s.c.pos.w8, 1 * |es|) == Encode(es, W8) && AllFit(es, W8)
  }

  /** A reading state in the copying pass about to read the entries e, one
      list per buffer, with guard counters g and room for `room` more bytes
      in the shape block. */
  predicate Ready(s: ReadState, e: PerWidth<seq<int>>, g: PerWidth<int>, room: int)
  {
    Entries32(s, e.w32) && Entries16(s, e.w16) && Entries8(s, e.w8) && s.c.guard == g && Copying(CursorOf(s), room)
  }
}
