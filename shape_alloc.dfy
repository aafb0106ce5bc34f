/**
 * ShapeAlloc: the packed-buffer engine of the shape codec.
 *
 * Reading (`ITSShapeAlloc`): the file's packed buffer is one byte image seen
 * through three typed cursors, one per element width (`IMemBuffer<T>`). All
 * three share the output pointer `dest_`, the byte counter `size_` and the
 * skip multiplier `mult_`. While `dest_` is null (the sizing pass) the calls
 * only count bytes; after `DoAlloc` they also copy into the shape block.
 *
 * Writing (`OTSShapeAlloc`): three page-grown append buffers (`OMemBuffer<T>`),
 * each with its own guard counter.
 *
 * Memory is modelled with byte images: a pointer is null, an offset into the
 * input image or the shape block, or the storage of some vector (its bytes).
 * Bytes read past the end of an image are zero and bytes stored past the end
 * of the shape block are dropped.
 */
module ShapeAlloc {
  import opened Bytes

  /** The three element types of the packed buffer. */
  datatype Width = W32 | W16 | W8 {
    /** `sizeof(T)`. */
    function Size(): (n: nat)
      ensures n == 1 || n == 2 || n == 4
    {
      match this
      case W32 => 4
      case W16 => 2
      case W8 => 1
    }
  }

  /** One value per element width (the three template instances). */
  datatype PerWidth<T> = PerWidth(w32: T, w16: T, w8: T) {
    function At(w: Width): T
    {
      match w
      case W32 => w32
      case W16 => w16
      case W8 => w8
    }

    function With(w: Width, v: T): (r: PerWidth<T>)
      ensures r.At(w) == v
      ensures forall u :: u != w ==> r.At(u) == At(u)
    {
      match w
      case W32 => this.(w32 := v)
      case W16 => this.(w16 := v)
      case W8 => this.(w8 := v)
    }
  }

  /** `kPageSize`. */
  const PageSize: nat := 1024

  /** The byte at p, zero outside the image. */
  function ByteAt(image: seq<byte>, p: int): byte
  {
    if 0 <= p < |image| then image[p] else 0
  }

  /** The count bytes from offset on; a negative count reads nothing. */
  function Slice(image: seq<byte>, offset: int, count: int): (r: seq<byte>)
    ensures |r| == if count < 0 then 0 else count
    ensures forall i :: 0 <= i < |r| ==> r[i] == ByteAt(image, offset + i)
  {
    seq<byte>(if count < 0 then 0 else count, i => ByteAt(image, offset + i))
  }

  /** The image with bs stored from offset on. */
  function Store(image: seq<byte>, offset: int, bs: seq<byte>): (r: seq<byte>)
    ensures |r| == |image|
    ensures forall p :: 0 <= p < |image| && offset <= p < offset + |bs| ==> r[p] == bs[p - offset]
    ensures forall p :: 0 <= p < |image| && !(offset <= p < offset + |bs|) ==> r[p] == image[p]
  {
    seq<byte>(|image|, p requires 0 <= p < |image| => if offset <= p < offset + |bs| then bs[p - offset] else image[p])
  }

  /** Stored bytes that fit the image are read back unchanged. */
  lemma StoreThenSlice(image: seq<byte>, offset: int, bs: seq<byte>)
    requires 0 <= offset && offset + |bs| <= |image|
    ensures Slice(Store(image, offset, bs), offset, |bs|) == bs
  {
  }

  /** The element of width w whose bytes start at p. */
  function Load(image: seq<byte>, p: int, w: Width): (v: int)
    ensures InSignedRange(v, w.Size())
  {
    Signed(Slice(image, p, w.Size()))
  }

  /** The elements of width w that bs holds, in memory order. */
  function Decode(bs: seq<byte>, w: Width): (vs: seq<int>)
    ensures |vs| == |bs| / w.Size()
    ensures forall i :: 0 <= i < |vs| ==> InSignedRange(vs[i], w.Size())
  {
    var s := w.Size();
    seq(|bs| / s, i requires 0 <= i < |bs| / s => Signed(bs[i * s .. i * s + s]))
  }

  /** The memory image of elements of width w. */
  function Encode(vs: seq<int>, w: Width): (bs: seq<byte>)
    ensures |bs| == w.Size() * |vs|
  {
    LeBytesAll(vs, w.Size())
  }

  /** Every value of vs fits an element of width w. */
  predicate AllFit(vs: seq<int>, w: Width)
  {
    forall i :: 0 <= i < |vs| ==> InSignedRange(vs[i], w.Size())
  }

  /** Element i of an encoding occupies bytes `[i * size, i * size + size)`. */
  lemma {:induction false} EncodeAt(vs: seq<int>, w: Width, i: nat)
    requires i < |vs|
    ensures Encode(vs, w)[i * w.Size() .. i * w.Size() + w.Size()] == LeBytes(vs[i], w.Size())
    decreases i
  {
    var k := w.Size();
    var head, rest := LeBytes(vs[0], k), LeBytesAll(vs[1..], k);
    assert Encode(vs, w) == head + rest;
    if i > 0 {
      EncodeAt(vs[1..], w, i - 1);
      var j := (i - 1) * k;
      assert i * k == j + k;
      SliceAfter(head, rest, j, k);
    }
  }

  /** Decoding an encoding gives back every value that fits. */
  lemma DecodeEncode(vs: seq<int>, w: Width)
    requires AllFit(vs, w)
    ensures Decode(Encode(vs, w), w) == vs
  {
    var k := w.Size();
    var d := Decode(Encode(vs, w), w);
    assert |d| == |vs| by {
      assert (k * |vs|) / k == |vs|;
    }
    forall i | 0 <= i < |vs|
      ensures d[i] == vs[i]
    {
      EncodeAt(vs, w, i);
      SignedLeBytes(vs[i], k);
    }
  }

  /** Decoding drops the first element's bytes with the first element. */
  lemma DecodeTail(bs: seq<byte>, w: Width)
    requires |bs| >= w.Size()
    ensures |Decode(bs, w)| >= 1
    ensures Decode(bs, w)[1..] == Decode(bs[w.Size()..], w)
  {
    var k := w.Size();
    var vs, rest := Decode(bs, w), bs[k..];
    assert |rest| / k == |bs| / k - 1 by {
      assert |bs| == |rest| + 1 * k;
    }
    forall i | 0 <= i < |rest| / k
      ensures vs[i + 1] == Decode(rest, w)[i]
    {
      WholeElement(i, |rest|, k);
      var j := i * k;
      assert (i + 1) * k == j + k;
      DropThenSlice(bs, k, j, k);
    }
  }

  /** A slice of what follows the first d bytes is a slice d bytes further on. */
  lemma DropThenSlice(bs: seq<byte>, d: nat, j: nat, m: nat)
    requires d + j + m <= |bs|
    ensures bs[d..][j .. j + m] == bs[j + d .. j + d + m]
  {
  }

  /** Element i of a decoding lies inside the bytes. */
  lemma WholeElement(i: nat, n: nat, k: nat)
    requires k > 0 && i < n / k
    ensures i * k + k <= n
  {
    assert i * k + k == (i + 1) * k <= n / k * k;
  }

  /** Encoding what was decoded gives back the bytes, when they hold whole
      elements. */
  lemma {:induction false} EncodeDecode(bs: seq<byte>, w: Width)
    requires |bs| % w.Size() == 0
    ensures Encode(Decode(bs, w), w) == bs
    decreases |bs|
  {
    var k := w.Size();
    if |bs| > 0 {
      WholeStep(|bs|, k);
      var vs, rest := Decode(bs, w), bs[k..];
      DecodeTail(bs, w);
      EncodeDecode(rest, w);
      var head := bs[..k];
      assert vs[0] == Signed(head);
      LeBytesSigned(head);
      EncodeFirst(vs, w);
      Rejoined(bs, k, LeBytes(vs[0], k), Encode(vs[1..], w));
    }
  }

  /** A positive multiple of k is a multiple of k after k. */
  lemma WholeStep(n: int, k: int)
    requires k > 0 && n > 0 && n % k == 0
    ensures k <= n && (n - k) % k == 0
  {
    var q := n / k;
    assert n == k * q;
    assert n - k == k * (q - 1);
    MultipleMod(k, q - 1);
  }

  lemma MultipleMod(k: int, m: int)
    requires k > 0
    ensures (k * m) % k == 0
  {
    var d, r := (k * m) / k, (k * m) % k;
    assert k * m == k * d + r;
    assert r == k * (m - d);
    assert m - d >= 1 ==> k * (m - d) >= k;
    assert m - d <= -1 ==> k * (m - d) <= -k;
  }

  /** The pages `Extend` allocates for x elements hold more than x. */
  lemma PagesAbove(x: nat)
    ensures (1 + x / PageSize) * PageSize > x && ((1 + x / PageSize) * PageSize) % PageSize == 0
  {
  }

  /** The first k bytes of bs followed by the rest are bs. */
  lemma Rejoined(bs: seq<byte>, k: nat, head: seq<byte>, rest: seq<byte>)
    requires k <= |bs| && head == bs[..k] && rest == bs[k..]
    ensures head + rest == bs
  {
  }

  /** An encoding starts with the first element's bytes. */
  lemma EncodeFirst(vs: seq<int>, w: Width)
    requires |vs| >= 1
    ensures Encode(vs, w) == LeBytes(vs[0], w.Size()) + Encode(vs[1..], w)
  {
  }

  /** The encoding of a concatenation is the concatenation of encodings. */
  lemma {:induction false} EncodeConcat(a: seq<int>, b: seq<int>, w: Width)
    ensures Encode(a + b, w) == Encode(a, w) + Encode(b, w)
    decreases |a|
  {
    if |a| > 0 {
      assert (a + b)[1..] == a[1..] + b;
      EncodeConcat(a[1..], b, w);
    } else {
      assert a + b == b;
    }
  }

  /** When the bytes at p encode a followed by b, the bytes at p encode a
      and the bytes right after them encode b. */
  lemma EncodedSplit(image: seq<byte>, p: int, a: seq<int>, b: seq<int>, w: Width)
    requires Slice(image, p, w.Size() * |a + b|) == Encode(a + b, w)
    ensures Slice(image, p, w.Size() * |a|) == Encode(a, w)
    ensures Slice(image, p + w.Size() * |a|, w.Size() * |b|) == Encode(b, w)
  {
    var k := w.Size();
    var n, m := k * |a|, k * |b|;
    assert k * |a + b| == n + m;
    EncodeConcat(a, b, w);
    SliceSplit(image, p, n, m);
    SplitHalves(Encode(a, w), Encode(b, w));
  }

  /** n + m bytes from p are the n bytes from p and the m bytes after them. */
  lemma SliceSplit(image: seq<byte>, p: int, n: nat, m: nat)
    ensures Slice(image, p, n) == Slice(image, p, n + m)[..n]
    ensures Slice(image, p + n, m) == Slice(image, p, n + m)[n..]
  {
  }

  /** The halves of x + y are x and y. */
  lemma SplitHalves<T>(x: seq<T>, y: seq<T>)
    ensures (x + y)[..|x|] == x && (x + y)[|x|..] == y
  {
  }

  /** A raw pointer. `Storage(bs)` points at the data of a vector whose
      memory image is bs. */
  datatype Ptr = Null | InputAt(offset: int) | ShapeAt(offset: int) | Storage(bytes: seq<byte>)

  /** The counters every read call updates: the three cursors (byte offsets
      into the input image), the three guard counters, `size_` and `mult_`.
      `dest_` is not among them: none of them depends on it. */
  datatype Counters = Counters(pos: PerWidth<int>, guard: PerWidth<int>, size: int, mult: int) {
    /** The cursor of width w moved over num elements. */
    function Advance(w: Width, num: int): Counters
    {
      this.(pos := pos.With(w, pos.At(w) + num * w.Size()))
    }

    /** `size_` grown by `sizeof(T) * mult_ * num`. */
    function Reserve(w: Width, num: int): Counters
    {
      this.(size := size + w.Size() * mult * num)
    }

    /** One guard of width w consumed and the counter incremented in T. */
    function Guarded(w: Width): Counters
    {
      Advance(w, 1).(guard := guard.With(w, Wrap(guard.At(w) + 1, w.Size())))
    }

    /** `Align32`: the 8-bit reservation that takes size up to a multiple of 4. */
    function Aligned(): Counters
    {
      Reserve(W8, RoundUp4(size) - size)
    }
  }

  /** `(size + 3) & ~3`: two's-complement masking rounds down, which is the
      floor division Dafny's `/` gives for a positive divisor. */
  function RoundUp4(n: int): int
  {
    (n + 3) / 4 * 4
  }

  /** `Align32` reserves 0 to 3 bytes and leaves a multiple of 4, unless the
      allocator is in skip mode, where it reserves nothing. */
  lemma AlignedSize(c: Counters)
    ensures c.mult == 1 ==> c.Aligned().size % 4 == 0 && c.size <= c.Aligned().size < c.size + 4
    ensures c.mult == 0 ==> c.Aligned().size == c.size
    ensures c.Aligned().pos == c.pos && c.Aligned().guard == c.guard
  {
  }

  /** The whole state of the reading side, as a value: the input image, the
      counters, `dest_` (null, or a byte offset into the shape block) and the
      shape block. Each call of `ITSShapeAlloc` is one of these functions. */
  datatype ReadState = ReadState(input: seq<byte>, c: Counters, dest: Option<int>, shape: seq<byte>) {
    /** The element at the cursor of width w. */
    function Next(w: Width): int
    {
      Load(input, c.pos.At(w), w)
    }

    /** What the bytes behind a pointer are, count of them. */
    function Deref(p: Ptr, count: int): (bs: seq<byte>)
      ensures |bs| == if count < 0 then 0 else count
    {
      match p
      case Null => Slice([], 0, count)
      case InputAt(offset) => Slice(input, offset, count)
      case ShapeAt(offset) => Slice(shape, offset, count)
      case Storage(bytes) => Slice(bytes, 0, count)
    }

    /** `memcpy` to a pointer into the shape block; no other memory is
        modelled as written. */
    function Memcpy(p: Ptr, bs: seq<byte>): (r: ReadState)
      ensures r.input == input && r.c == c && r.dest == dest
      ensures p.ShapeAt? ==> r.shape == Store(shape, p.offset, bs)
      ensures !p.ShapeAt? ==> r.shape == shape
    {
      if p.ShapeAt? then this.(shape := Store(shape, p.offset, bs)) else this
    }

    /** `Get()`: the element at the cursor; only that cursor moves, by one
        element. */
    function Get(w: Width): (r: (int, ReadState))
      ensures r.0 == Next(w) && InSignedRange(r.0, w.Size())
      ensures r.1.c.pos == c.pos.With(w, c.pos.At(w) + w.Size())
      ensures r.1.c.size == c.size && r.1.c.guard == c.guard && r.1.c.mult == c.mult
      ensures r.1.input == input && r.1.dest == dest && r.1.shape == shape
    {
      (Next(w), this.(c := c.Advance(w, 1)))
    }

    /** `Get(dest, num)`: num elements copied out of the input. */
    function GetInto(w: Width, num: int): (r: (seq<int>, ReadState))
      ensures r.0 == Decode(Slice(input, c.pos.At(w), num * w.Size()), w)
      ensures r.1 == this.(c := c.Advance(w, num))
    {
      (Decode(Slice(input, c.pos.At(w), num * w.Size()), w), this.(c := c.Advance(w, num)))
    }

    /** `CopyToShape(num, return_something)`: the input moves past num
        elements and size_ grows by `sizeof(T) * mult_ * num`; when dest_ is
        set, the next `mult_ * num` elements are copied there and dest_ moves
        by exactly the bytes size_ grew by. The result is dest_, or the input
        cursor when return_something is set and dest_ is null. */
    function CopyToShape(w: Width, num: int, returnSomething: bool): (r: (Ptr, ReadState))
      ensures r.0 == if dest.Some? then ShapeAt(dest.value) else if returnSomething then InputAt(c.pos.At(w)) else Null
      ensures r.1.c == c.Advance(w, num).Reserve(w, num) && r.1.input == input
      ensures dest.None? ==> r.1.dest == None && r.1.shape == shape
      ensures dest.Some? ==> r.1.dest == Some(dest.value + (r.1.c.size - c.size))
      ensures dest.Some? ==> r.1.shape == Store(shape, dest.value, Slice(input, c.pos.At(w), c.mult * num * w.Size()))
      ensures c.mult == 0 ==> r.1.c.size == c.size && r.1.dest == dest
    {
      var p := if !returnSomething || dest.Some? then (if dest.Some? then ShapeAt(dest.value) else Null) else InputAt(c.pos.At(w));
      var bytes := c.mult * num * w.Size();
      var copied := if dest.Some? then this.(shape := Store(shape, dest.value, Slice(input, c.pos.At(w), bytes)), dest := Some(dest.value + bytes)) else this;
      (p, copied.(c := c.Advance(w, num).Reserve(w, num)))
    }

    /** `GetPointer(num)`: the input cursor, which then moves past num
        elements; size_ and dest_ stay. */
    function GetPointer(w: Width, num: int): (r: (Ptr, ReadState))
      ensures r.0 == InputAt(c.pos.At(w))
      ensures r.1.c.pos == c.pos.With(w, c.pos.At(w) + num * w.Size())
      ensures r.1.c.size == c.size && r.1.c.guard == c.guard && r.1.c.mult == c.mult
      ensures r.1.input == input && r.1.dest == dest && r.1.shape == shape
    {
      (InputAt(c.pos.At(w)), this.(c := c.Advance(w, num)))
    }

    /** `AllocShape(num)`: room for num elements in the output; no input
        moves. The result is the old dest_ (null while sizing). */
    function AllocShape(w: Width, num: int): (r: (Ptr, ReadState))
      ensures r.0 == if dest.Some? then ShapeAt(dest.value) else Null
      ensures r.1.c == c.Reserve(w, num) && r.1.c.pos == c.pos
      ensures r.1.dest == if dest.Some? then Some(dest.value + c.mult * num * w.Size()) else None
      ensures r.1.input == input && r.1.shape == shape
    {
      var p := if dest.Some? then ShapeAt(dest.value) else Null;
      var moved := if dest.Some? then this.(dest := Some(dest.value + c.mult * num * w.Size())) else this;
      (p, moved.(c := c.Reserve(w, num)))
    }

    /** `IMemBuffer<T>::CheckGuard()`: one element consumed; the result says
        whether it equals the guard counter, which is incremented either way
        (in T, so the 8-bit counter wraps after 127). */
    function CheckGuardOf(w: Width): (r: (bool, ReadState))
      ensures r.0 <==> Next(w) == c.guard.At(w)
      ensures r.1.c.pos == c.pos.With(w, c.pos.At(w) + w.Size())
      ensures r.1.c.guard == c.guard.With(w, Wrap(c.guard.At(w) + 1, w.Size()))
      ensures r.1.c.size == c.size && r.1.c.mult == c.mult
      ensures r.1.input == input && r.1.dest == dest && r.1.shape == shape
    {
      (Next(w) == c.guard.At(w), this.(c := c.Guarded(w)))
    }

    /** `ITSShapeAlloc::CheckGuard`: one guard from each width; the result
        says whether all three match (the source asserts each). */
    function CheckGuard(): (r: (bool, ReadState))
      ensures r.0 <==> Next(W32) == c.guard.w32 && Next(W16) == c.guard.w16 && Next(W8) == c.guard.w8
      ensures r.1.c == c.Guarded(W32).Guarded(W16).Guarded(W8)
      ensures r.1.input == input && r.1.dest == dest && r.1.shape == shape
    {
      var (ok32, s32) := CheckGuardOf(W32);
      var (ok16, s16) := s32.CheckGuardOf(W16);
      var (ok8, s8) := s16.CheckGuardOf(W8);
      (ok32 && ok16 && ok8, s8)
    }

    /** `Align32`: an 8-bit reservation up to the next multiple of 4 (see
        `AlignedSize`); no cursor moves. */
    function Align32(): (r: ReadState)
      ensures r.c == c.Aligned() && r.c.pos == c.pos
      ensures r.input == input && r.shape == shape
    {
      AllocShape(W8, RoundUp4(c.size) - c.size).1
    }

    /** `SetSkipMode(skip)`: mult_ is 0 while skipping, 1 otherwise. */
    function SkipMode(skip: bool): (r: ReadState)
      ensures r.c.mult == (if skip then 0 else 1)
      ensures r.c.pos == c.pos && r.c.guard == c.guard && r.c.size == c.size
      ensures r.input == input && r.dest == dest && r.shape == shape
    {
      this.(c := c.(mult := if skip then 0 else 1))
    }

    /** `ITSShapeAlloc::SetRead`: all three cursors and guard counters reset
        (the 16- and 8-bit cursors at the given byte offsets); dest_ and size_
        cleared only when clear is set; skip mode off. */
    function SetRead(data: seq<byte>, start16: int, start8: int, clear: bool): (r: ReadState)
      ensures r.input == data && r.c.pos == PerWidth(0, start16, start8) && r.c.guard == PerWidth(0, 0, 0)
      ensures r.c.mult == 1 && r.shape == shape
      ensures clear ==> r.dest == None && r.c.size == 0
      ensures !clear ==> r.dest == dest && r.c.size == c.size
    {
      var size := if clear then 0 else c.size;
      ReadState(data, Counters(PerWidth(0, start16, start8), PerWidth(0, 0, 0), size, 1), if clear then None else dest, shape)
    }

    /** `DoAlloc`: a block of exactly size_ bytes (none for a negative size_);
        size_ restarts at 0 and dest_ points at the start of the block. */
    function DoAlloc(): (r: ReadState)
      ensures |r.shape| == (if c.size < 0 then 0 else c.size)
      ensures r.dest == Some(0) && r.c.size == 0
      ensures r.input == input && r.c.pos == c.pos && r.c.guard == c.guard && r.c.mult == c.mult
    {
      this.(shape := seq<byte>(if c.size < 0 then 0 else c.size, _ => 0), dest := Some(0), c := c.(size := 0))
    }
  }

  /** The bytes CopyToShape copies in the copying pass land at the old dest_
      and read back as the input bytes they came from. */
  lemma CopyLandsAtDest(s: ReadState, w: Width, num: nat, returnSomething: bool)
    requires s.dest.Some? && s.c.mult == 1
    requires 0 <= s.dest.value && s.dest.value + num * w.Size() <= |s.shape|
    ensures var (p, t) := s.CopyToShape(w, num, returnSomething);
      t.Deref(p, num * w.Size()) == s.Deref(InputAt(s.c.pos.At(w)), num * w.Size())
  {
    StoreThenSlice(s.shape, s.dest.value, Slice(s.input, s.c.pos.At(w), num * w.Size()));
  }

  /** The reading side: `ITSShapeAlloc` with its three `IMemBuffer<T>` bases. */
  class ITSShapeAlloc {
    /** The packed buffer all three cursors point into. */
    var input: seq<byte>
    /** `mem_buffer_` of each width, as a byte offset into input. */
    var pos: PerWidth<int>
    /** `mem_guard_` of each width. */
    var guard: PerWidth<int>
    /** `dest_`: null, or a byte offset into shape. */
    var dest: Option<int>
    /** `size_`. */
    var size: int
    /** `mult_`: 1, or 0 in skip mode. */
    var mult: int
    /** The block `DoAlloc` allocated. */
    var shape: seq<byte>

    function State(): ReadState
      reads this
    {
      ReadState(input, Counters(pos, guard, size, mult), dest, shape)
    }

    /** Sets every field from a state value. */
    method Assign(s: ReadState)
      modifies this
      ensures State() == s
    {
      input, pos, guard, size, mult := s.input, s.c.pos, s.c.guard, s.c.size, s.c.mult;
      dest, shape := s.dest, s.shape;
    }

    constructor ()
      ensures State() == ReadState([], Counters(PerWidth(0, 0, 0), PerWidth(0, 0, 0), 0, 0), None, [])
    {
      input := [];
      pos := PerWidth(0, 0, 0);
      guard := PerWidth(0, 0, 0);
      dest := None;
      size := 0;
      mult := 0;
      shape := [];
    }

    method Get(w: Width) returns (v: int)
      modifies this
      ensures (v, State()) == old(State()).Get(w)
    {
      v := Load(input, pos.At(w), w);
      pos := pos.With(w, pos.At(w) + w.Size());
    }

    method GetInto(w: Width, num: int) returns (vs: seq<int>)
      modifies this
      ensures (vs, State()) == old(State()).GetInto(w, num)
    {
      vs := Decode(Slice(input, pos.At(w), num * w.Size()), w);
      pos := pos.With(w, pos.At(w) + num * w.Size());
    }

    method CopyToShape(w: Width, num: int, returnSomething: bool) returns (p: Ptr)
      modifies this
      ensures (p, State()) == old(State()).CopyToShape(w, num, returnSomething)
    {
      p := if !returnSomething || dest.Some? then (if dest.Some? then ShapeAt(dest.value) else Null) else InputAt(pos.At(w));
      if dest.Some? {
        var bytes := mult * num * w.Size();
        shape := Store(shape, dest.value, Slice(input, pos.At(w), bytes));
        dest := Some(dest.value + bytes);
      }
      pos := pos.With(w, pos.At(w) + num * w.Size());
      size := size + w.Size() * mult * num;
    }

    method GetPointer(w: Width, num: int) returns (p: Ptr)
      modifies this
      ensures (p, State()) == old(State()).GetPointer(w, num)
    {
      p := InputAt(pos.At(w));
      pos := pos.With(w, pos.At(w) + num * w.Size());
    }

    method AllocShape(w: Width, num: int) returns (p: Ptr)
      modifies this
      ensures (p, State()) == old(State()).AllocShape(w, num)
    {
      p := if dest.Some? then ShapeAt(dest.value) else Null;
      if dest.Some? {
        dest := Some(dest.value + mult * num * w.Size());
      }
      size := size + w.Size() * mult * num;
    }

    method CheckGuardOf(w: Width) returns (ok: bool)
      modifies this
      ensures (ok, State()) == old(State()).CheckGuardOf(w)
    {
      var saved := Get(w);
      ok := saved == guard.At(w);
      guard := guard.With(w, Wrap(guard.At(w) + 1, w.Size()));
    }

    method SetRead(data: seq<byte>, start16: int, start8: int, clear: bool)
      modifies this
      ensures State() == old(State()).SetRead(data, start16, start8, clear)
    {
      input := data;
      pos := PerWidth(0, start16, start8);
      guard := PerWidth(0, 0, 0);
      if clear {
        dest := None;
        size := 0;
      }
      SetSkipMode(false);
    }

    method DoAlloc()
      modifies this
      ensures State() == old(State()).DoAlloc()
    {
      shape := seq<byte>(if size < 0 then 0 else size, _ => 0);
      dest := Some(0);
      size := 0;
    }

    method Align32()
      modifies this
      ensures State() == old(State()).Align32()
    {
      var aligned := RoundUp4(size);
      var _ := AllocShape(W8, aligned - size);
    }

    method CheckGuard() returns (ok: bool)
      modifies this
      ensures (ok, State()) == old(State()).CheckGuard()
    {
      var check32 := CheckGuardOf(W32);
      var check16 := CheckGuardOf(W16);
      var check8 := CheckGuardOf(W8);
      ok := check32 && check16 && check8;
    }

    method SetSkipMode(skip: bool)
      modifies this
      ensures State() == old(State()).SkipMode(skip)
    {
      mult := if skip then 0 else 1;
    }

    /** `memcpy` into the shape block. */
    method Memcpy(p: Ptr, bs: seq<byte>)
      modifies this
      ensures State() == old(State()).Memcpy(p, bs)
    {
      if p.ShapeAt? {
        shape := Store(shape, p.offset, bs);
      }
    }
  }

  /** The writing side: `OTSShapeAlloc` with its three `OMemBuffer<T>` bases. */
  class OTSShapeAlloc {
    /** The elements `mem_buffer_[0 .. size_)` of each width. */
    var buffer: PerWidth<seq<int>>
    /** `full_size_` of each width. */
    var capacity: PerWidth<int>
    /** `mem_guard_` of each width. */
    var guard: PerWidth<int>

    /** Each buffer fits its capacity, a whole number of pages. */
    ghost predicate Valid()
      reads this
    {
      forall w: Width :: |buffer.At(w)| <= capacity.At(w) && capacity.At(w) % PageSize == 0
    }

    constructor ()
      ensures Valid()
      ensures buffer == PerWidth([], [], []) && capacity == PerWidth(0, 0, 0) && guard == PerWidth(0, 0, 0)
    {
      buffer := PerWidth([], [], []);
      capacity := PerWidth(0, 0, 0);
      guard := PerWidth(0, 0, 0);
    }

    /** `OMemBuffer<T>::SetWrite`: the buffer of width w empty, its guard 0. */
    method SetWriteOf(w: Width)
      requires Valid()
      modifies this
      ensures Valid()
      ensures buffer == old(buffer).With(w, []) && capacity == old(capacity).With(w, 0) && guard == old(guard).With(w, 0)
    {
      buffer := buffer.With(w, []);
      capacity := capacity.With(w, 0);
      guard := guard.With(w, 0);
    }

    /** `Extend(add)`: add new elements at the end (zero here, uninitialised
        in the source); the result is the index of the first. When they do not
        fit, the capacity becomes `(1 + (full_size_ + add) / kPageSize)`
        pages, which is above the new size. */
    method Extend(w: Width, add: nat) returns (at: nat)
      requires Valid()
      modifies this
      ensures Valid()
      ensures at == |old(buffer.At(w))|
      ensures buffer == old(buffer).With(w, old(buffer.At(w)) + seq(add, _ => 0))
      ensures old(|buffer.At(w)|) + add > old(capacity.At(w)) ==>
        capacity == old(capacity).With(w, (1 + (old(capacity.At(w)) + add) / PageSize) * PageSize) &&
        capacity.At(w) > |buffer.At(w)|
      ensures old(|buffer.At(w)|) + add <= old(capacity.At(w)) ==> capacity == old(capacity)
      ensures guard == old(guard)
    {
      var buf := buffer.At(w);
      var full := capacity.At(w);
      if |buf| + add > full {
        var numPages := 1 + (full + add) / PageSize;
        PagesAbove(full + add);
        full := numPages * PageSize;
        capacity := capacity.With(w, full);
      }
      at := |buf|;
      buffer := buffer.With(w, buf + seq(add, _ => 0));
      forall u: Width
        ensures |buffer.At(u)| <= capacity.At(u) && capacity.At(u) % PageSize == 0
      {
        if u != w {
          assert buffer.At(u) == old(buffer.At(u)) && capacity.At(u) == old(capacity.At(u));
        }
      }
    }

    /** `Set(entry)`: one entry appended, converted to T; the result is the
        stored entry. */
    method Set(w: Width, entry: int) returns (r: int)
      requires Valid()
      modifies this
      ensures Valid()
      ensures r == Wrap(entry, w.Size()) && InSignedRange(r, w.Size())
      ensures buffer == Appended(old(buffer), Only(w, [r]))
      ensures guard == old(guard)
    {
      r := Wrap(entry, w.Size());
      WrapProperties(entry, w.Size());
      var at := Extend(w, 1);
      buffer := buffer.With(w, buffer.At(w)[at := r]);
      assert buffer.At(w) == old(buffer.At(w)) + [r];
      AppendedOnly(old(buffer), w, [r]);
    }

    /** `SetGuard()`: the guard counter appended, then incremented in T. */
    method SetGuardOf(w: Width)
      requires Valid()
      modifies this
      ensures Valid()
      ensures buffer == Appended(old(buffer), Only(w, [old(guard.At(w))]))
      ensures guard == old(guard).With(w, Wrap(old(guard.At(w)) + 1, w.Size()))
      requires InSignedRange(guard.At(w), w.Size())
    {
      WrapProperties(guard.At(w), w.Size());
      var _ := Set(w, guard.At(w));
      guard := guard.With(w, Wrap(guard.At(w) + 1, w.Size()));
    }

    /** `CopyToBuffer(entries, count)`: count entries appended, zeros when
        entries is null. Entries past the end of the source read as zero. */
    method CopyToBuffer(w: Width, entries: Option<seq<int>>, count: nat)
      requires Valid()
      modifies this
      ensures Valid()
      ensures buffer == Appended(old(buffer), Only(w, Copied(entries, count)))
      ensures guard == old(guard)
    {
      var at := Extend(w, count);
      buffer := buffer.With(w, buffer.At(w)[..at] + Copied(entries, count));
      AppendedOnly(old(buffer), w, Copied(entries, count));
    }

    /** `OTSShapeAlloc::SetWrite`: all three buffers empty, guards at 0. */
    method SetWrite()
      requires Valid()
      modifies this
      ensures Valid()
      ensures buffer == PerWidth([], [], []) && capacity == PerWidth(0, 0, 0) && guard == PerWidth(0, 0, 0)
    {
      SetWriteOf(W32);
      SetWriteOf(W16);
      SetWriteOf(W8);
    }

    /** `OTSShapeAlloc::SetGuard`: one guard appended to each buffer. */
    method SetGuard()
      requires Valid() && GuardsFit(guard)
      modifies this
      ensures Valid() && GuardsFit(guard)
      ensures buffer == Appended(old(buffer), GuardEntries(old(guard)))
      ensures guard == NextGuards(old(guard))
    {
      ghost var b := buffer;
      SetGuardOf(W32);
      assert guard.w16 == old(guard.w16) && guard.w8 == old(guard.w8);
      SetGuardOf(W16);
      assert guard.w8 == old(guard.w8);
      SetGuardOf(W8);
      AppendedAssoc(b, Only(W32, [old(guard.w32)]), Only(W16, [old(guard.w16)]));
      AppendedAssoc(b, Appended(Only(W32, [old(guard.w32)]), Only(W16, [old(guard.w16)])), Only(W8, [old(guard.w8)]));
      GuardEntriesSplit(old(guard));
    }
  }

  /** The buffers b with the entries of add appended, width by width. */
  function Appended(b: PerWidth<seq<int>>, add: PerWidth<seq<int>>): PerWidth<seq<int>>
  {
    PerWidth(b.w32 + add.w32, b.w16 + add.w16, b.w8 + add.w8)
  }

  /** Appending x and then y appends what x followed by y holds. */
  lemma AppendedAssoc(b: PerWidth<seq<int>>, x: PerWidth<seq<int>>, y: PerWidth<seq<int>>)
    ensures Appended(Appended(b, x), y) == Appended(b, Appended(x, y))
  {
    assert (b.w32 + x.w32) + y.w32 == b.w32 + (x.w32 + y.w32);
    assert (b.w16 + x.w16) + y.w16 == b.w16 + (x.w16 + y.w16);
    assert (b.w8 + x.w8) + y.w8 == b.w8 + (x.w8 + y.w8);
  }

  /** Entries for one width only. */
  function Only(w: Width, entries: seq<int>): (r: PerWidth<seq<int>>)
    ensures r.At(w) == entries
  {
    match w
    case W32 => PerWidth(entries, [], [])
    case W16 => PerWidth([], entries, [])
    case W8 => PerWidth([], [], entries)
  }

  /** Appending entries of one width is replacing that buffer by its
      extension. */
  lemma AppendedOnly(b: PerWidth<seq<int>>, w: Width, entries: seq<int>)
    ensures Appended(b, Only(w, entries)) == b.With(w, b.At(w) + entries)
  {
    assert b.w32 + [] == b.w32 && b.w16 + [] == b.w16 && b.w8 + [] == b.w8;
  }

  /** Two appends of one width are one append of both runs. */
  lemma AppendedTwice(b: PerWidth<seq<int>>, w: Width, a: seq<int>, c: seq<int>)
    ensures Appended(Appended(b, Only(w, a)), Only(w, c)) == Appended(b, Only(w, a + c))
  {
    AppendedAssoc(b, Only(w, a), Only(w, c));
    OnlyConcat(w, a, c);
  }

  /** Appending nothing changes nothing. */
  lemma AppendedNothing(b: PerWidth<seq<int>>, w: Width)
    ensures Appended(b, Only(w, [])) == b
  {
    assert b.w32 + [] == b.w32 && b.w16 + [] == b.w16 && b.w8 + [] == b.w8;
  }

  /** Appends to two different widths commute. */
  lemma AppendedCommute(b: PerWidth<seq<int>>, w: Width, a: seq<int>, u: Width, c: seq<int>)
    requires w != u
    ensures Appended(Appended(b, Only(w, a)), Only(u, c)) == Appended(Appended(b, Only(u, c)), Only(w, a))
  {
    AppendedOnly(b, w, a);
    AppendedOnly(b, u, c);
    AppendedOnly(Appended(b, Only(w, a)), u, c);
    AppendedOnly(Appended(b, Only(u, c)), w, a);
  }

  /** The guard entries are one guard appended per width. */
  lemma GuardEntriesSplit(g: PerWidth<int>)
    ensures Appended(Appended(Only(W32, [g.w32]), Only(W16, [g.w16])), Only(W8, [g.w8])) == GuardEntries(g)
  {
    assert [g.w32] + [] + [] == [g.w32];
    assert [] + [g.w16] + [] == [g.w16];
    assert [] + [] + [g.w8] == [g.w8];
  }

  /** Two runs of entries of one width are one run. */
  lemma OnlyConcat(w: Width, a: seq<int>, c: seq<int>)
    ensures Appended(Only(w, a), Only(w, c)) == Only(w, a + c)
  {
  }

  /** One guard entry per width, as `SetGuard` writes. */
  function GuardEntries(g: PerWidth<int>): PerWidth<seq<int>>
  {
    PerWidth([g.w32], [g.w16], [g.w8])
  }

  /** The count entries CopyToBuffer appends. */
  function Copied(entries: Option<seq<int>>, count: nat): (r: seq<int>)
    ensures |r| == count
  {
    seq(count, i requires 0 <= i < count => if entries.Some? && i < |entries.value| then entries.value[i] else 0)
  }

  /** Every guard counter holds a value of its type. */
  predicate GuardsFit(g: PerWidth<int>)
  {
    InSignedRange(g.w32, 4) && InSignedRange(g.w16, 2) && InSignedRange(g.w8, 1)
  }

  /** The guard counters after one `SetGuard` or `CheckGuard`. */
  function NextGuards(g: PerWidth<int>): (r: PerWidth<int>)
    ensures GuardsFit(r)
  {
    WrapProperties(g.w32 + 1, 4);
    WrapProperties(g.w16 + 1, 2);
    WrapProperties(g.w8 + 1, 1);
    PerWidth(Wrap(g.w32 + 1, 4), Wrap(g.w16 + 1, 2), Wrap(g.w8 + 1, 1))
  }
}
