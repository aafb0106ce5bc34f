/**
 * ShapeRecords: the fixed-size records of `TSShape` (nodes, objects, object
 * states, triggers, details) and how they lie in the packed buffer. Each
 * record is a run of 32-bit words (5, 6, 3, 2 and 7 of them); the loader
 * views a run of words as an array of records and the writer copies the
 * array back out as words. Float fields hold their bit patterns.
 */
module ShapeRecords {
  import opened Bytes
  import Float32
  import ShapeAlloc

  /** `TSShape::Node`. */
  datatype Node = Node(nameIndex: int, parentIndex: int, firstObject: int, firstChild: int, nextSibling: int)

  /** `TSShape::Object`. */
  datatype Object = Object(nameIndex: int, numMeshes: int, startMeshIndex: int, nodeIndex: int,
                           nextSibling: int, firstDecal: int)

  /** `TSShape::ObjectState`. */
  datatype ObjectState = ObjectState(vis: Float32.Bits, frameIndex: int, matFrameIndex: int)

  /** `TSShape::Trigger`: the state word is unsigned. */
  datatype Trigger = Trigger(state: Float32.Bits, pos: Float32.Bits)

  /** `TSShape::Detail`. */
  datatype Detail = Detail(nameIndex: int, subShapeNum: int, objectDetailNum: int, size: Float32.Bits,
                           averageError: Float32.Bits, maxError: Float32.Bits, polyCount: int)

  /** `Point3F`: three float words. */
  datatype Point3 = Point3(x: Float32.Bits, y: Float32.Bits, z: Float32.Bits)

  /** `Quat16`: four int16 values. */
  datatype Quat16 = Quat16(x: int, y: int, z: int, w: int)

  const NodeSize: nat := 5
  const ObjectSize: nat := 6
  const ObjectStateSize: nat := 3
  const TriggerSize: nat := 2
  const DetailSize: nat := 7
  const Point3Size: nat := 3
  const Quat16Size: nat := 4

  // ---------------------------------------------------------------------
  // Words and runs of words
  // ---------------------------------------------------------------------

  /** Word j of a run; a short run reads as zero past its end. */
  function At(ws: seq<int>, j: nat): int
  {
    if j < |ws| then ws[j] else 0
  }

  /** The signed 32-bit word holding the bits of a float or an unsigned. */
  function WordOf(b: Float32.Bits): (w: int)
    ensures InSignedRange(w, 4)
  {
    assert HalfRange(4) == 0x8000_0000 by { Int32Range(); }
    if b >= 0x8000_0000 then b - 0x1_0000_0000 else b
  }

  /** Bits and words are the same 32 bits. */
  lemma BitsWord(b: Float32.Bits, w: int)
    requires InSignedRange(w, 4)
    ensures Float32.OfWord(WordOf(b)) == b
    ensures WordOf(Float32.OfWord(w)) == w
  {
    Int32Range();
  }

  lemma ScaleLe(a: int, b: int, k: nat)
    requires a <= b
    ensures a * k <= b * k
  {
  }

  /** Taking k from a count takes one from its quotient by k. */
  lemma DivStep(n: nat, k: nat)
    requires k > 0
    ensures n >= k ==> (n - k) / k == n / k - 1 && (n - k) % k == n % k
    ensures n < k ==> n / k == 0 && n % k == n
  {
    if n >= k {
      var q, r := (n - k) / k, (n - k) % k;
      assert n == (q + 1) * k + r;
      var q2, r2 := n / k, n % k;
      assert n == q2 * k + r2;
      if q2 > q + 1 { ScaleLe(q + 2, q2, k); assert false; }
      if q2 < q + 1 { ScaleLe(q2, q, k); assert false; }
    }
  }

  /** Runs of k words, in order; words past the last whole run are dropped. */
  function Chunks(ws: seq<int>, k: nat): (cs: seq<seq<int>>)
    requires k > 0
    ensures |cs| == |ws| / k
    decreases |ws|
  {
    DivStep(|ws|, k);
    if |ws| < k then [] else [ws[..k]] + Chunks(ws[k..], k)
  }

  /** Runs laid one after the other. */
  function Flatten(cs: seq<seq<int>>): (ws: seq<int>)
  {
    if |cs| == 0 then [] else cs[0] + Flatten(cs[1..])
  }

  lemma {:induction false} ChunksFlatten(cs: seq<seq<int>>, k: nat)
    requires k > 0 && forall i :: 0 <= i < |cs| ==> |cs[i]| == k
    ensures |Flatten(cs)| == k * |cs|
    ensures Chunks(Flatten(cs), k) == cs
  {
    if |cs| > 0 {
      ChunksFlatten(cs[1..], k);
      var ws := Flatten(cs);
      assert ws[..k] == cs[0] && ws[k..] == Flatten(cs[1..]);
      assert cs == [cs[0]] + cs[1..];
    }
  }

  lemma {:induction false} FlattenChunks(ws: seq<int>, k: nat)
    requires k > 0 && |ws| % k == 0
    ensures Flatten(Chunks(ws, k)) == ws
    decreases |ws|
  {
    DivStep(|ws|, k);
    if |ws| >= k {
      FlattenChunks(ws[k..], k);
      assert Chunks(ws, k)[1..] == Chunks(ws[k..], k);
      assert ws == ws[..k] + ws[k..];
    } else {
      assert |ws| == 0;
    }
  }

  lemma {:induction false} ChunksFit(ws: seq<int>, k: nat)
    requires k > 0 && ShapeAlloc.AllFit(ws, ShapeAlloc.W32)
    ensures forall i :: 0 <= i < |Chunks(ws, k)| ==> |Chunks(ws, k)[i]| == k && ShapeAlloc.AllFit(Chunks(ws, k)[i], ShapeAlloc.W32)
    decreases |ws|
  {
    if |ws| >= k {
      ChunksFit(ws[k..], k);
    }
  }

  // ---------------------------------------------------------------------
  // One record and its words
  // ---------------------------------------------------------------------

  function NodeOf(ws: seq<int>): Node
  {
    Node(At(ws, 0), At(ws, 1), At(ws, 2), At(ws, 3), At(ws, 4))
  }

  function NodeWords(n: Node): (ws: seq<int>)
    ensures |ws| == NodeSize
  {
    [n.nameIndex, n.parentIndex, n.firstObject, n.firstChild, n.nextSibling]
  }

  function ObjectOf(ws: seq<int>): Object
  {
    Object(At(ws, 0), At(ws, 1), At(ws, 2), At(ws, 3), At(ws, 4), At(ws, 5))
  }

  function ObjectWords(o: Object): (ws: seq<int>)
    ensures |ws| == ObjectSize
  {
    [o.nameIndex, o.numMeshes, o.startMeshIndex, o.nodeIndex, o.nextSibling, o.firstDecal]
  }

  function ObjectStateOf(ws: seq<int>): ObjectState
  {
    ObjectState(Float32.OfWord(At(ws, 0)), At(ws, 1), At(ws, 2))
  }

  function ObjectStateWords(s: ObjectState): (ws: seq<int>)
    ensures |ws| == ObjectStateSize
  {
    [WordOf(s.vis), s.frameIndex, s.matFrameIndex]
  }

  function TriggerOf(ws: seq<int>): Trigger
  {
    Trigger(Float32.OfWord(At(ws, 0)), Float32.OfWord(At(ws, 1)))
  }

  function TriggerWords(t: Trigger): (ws: seq<int>)
    ensures |ws| == TriggerSize
  {
    [WordOf(t.state), WordOf(t.pos)]
  }

  function DetailOf(ws: seq<int>): Detail
  {
    Detail(At(ws, 0), At(ws, 1), At(ws, 2), Float32.OfWord(At(ws, 3)),
           Float32.OfWord(At(ws, 4)), Float32.OfWord(At(ws, 5)), At(ws, 6))
  }

  function DetailWords(d: Detail): (ws: seq<int>)
    ensures |ws| == DetailSize
  {
    [d.nameIndex, d.subShapeNum, d.objectDetailNum, WordOf(d.size),
     WordOf(d.averageError), WordOf(d.maxError), d.polyCount]
  }

  function Point3Of(ws: seq<int>): Point3
  {
    Point3(Float32.OfWord(At(ws, 0)), Float32.OfWord(At(ws, 1)), Float32.OfWord(At(ws, 2)))
  }

  function Point3Words(p: Point3): (ws: seq<int>)
    ensures |ws| == Point3Size
  {
    [WordOf(p.x), WordOf(p.y), WordOf(p.z)]
  }

  /** A quaternion from four int16 values. */
  function Quat16Of(hs: seq<int>): Quat16
  {
    Quat16(At(hs, 0), At(hs, 1), At(hs, 2), At(hs, 3))
  }

  function Quat16Halves(q: Quat16): (hs: seq<int>)
    ensures |hs| == Quat16Size
  {
    [q.x, q.y, q.z, q.w]
  }

  /** Every record reads back from its words, and every run of words in the
      32-bit range is the words of the record it reads as. */
  lemma RecordRoundTrips()
    ensures forall n :: NodeOf(NodeWords(n)) == n
    ensures forall o :: ObjectOf(ObjectWords(o)) == o
    ensures forall s :: ObjectStateOf(ObjectStateWords(s)) == s
    ensures forall t :: TriggerOf(TriggerWords(t)) == t
    ensures forall d :: DetailOf(DetailWords(d)) == d
  {
    forall s: ObjectState ensures ObjectStateOf(ObjectStateWords(s)) == s {
      BitsWord(s.vis, 0);
    }
    forall t: Trigger ensures TriggerOf(TriggerWords(t)) == t {
      BitsWord(t.state, 0);
      BitsWord(t.pos, 0);
    }
    forall d: Detail ensures DetailOf(DetailWords(d)) == d {
      BitsWord(d.size, 0);
      BitsWord(d.averageError, 0);
      BitsWord(d.maxError, 0);
    }
  }

  lemma WordRoundTrips(ws: seq<int>)
    requires ShapeAlloc.AllFit(ws, ShapeAlloc.W32)
    ensures |ws| == NodeSize ==> NodeWords(NodeOf(ws)) == ws
    ensures |ws| == ObjectSize ==> ObjectWords(ObjectOf(ws)) == ws
    ensures |ws| == ObjectStateSize ==> ObjectStateWords(ObjectStateOf(ws)) == ws
    ensures |ws| == TriggerSize ==> TriggerWords(TriggerOf(ws)) == ws
    ensures |ws| == DetailSize ==> DetailWords(DetailOf(ws)) == ws
  {
    forall j | 0 <= j < |ws| {
      BitsWord(0, ws[j]);
    }
  }

  // ---------------------------------------------------------------------
  // Arrays of records
  // ---------------------------------------------------------------------

  /** `Vector::Set(nodes_, ptr, n)`: the words behind the pointer as nodes. */
  function NodesOf(ws: seq<int>): (ns: seq<Node>)
    ensures |ns| == |ws| / NodeSize
  {
    var cs := Chunks(ws, NodeSize);
    seq(|cs|, i requires 0 <= i < |cs| => NodeOf(cs[i]))
  }

  /** The words `CopyToBuffer(Address(nodes_), n * 5)` writes. */
  function NodesWords(ns: seq<Node>): seq<int>
  {
    Flatten(seq(|ns|, i requires 0 <= i < |ns| => NodeWords(ns[i])))
  }

  function ObjectsOf(ws: seq<int>): (os: seq<Object>)
    ensures |os| == |ws| / ObjectSize
  {
    var cs := Chunks(ws, ObjectSize);
    seq(|cs|, i requires 0 <= i < |cs| => ObjectOf(cs[i]))
  }

  function ObjectsWords(os: seq<Object>): seq<int>
  {
    Flatten(seq(|os|, i requires 0 <= i < |os| => ObjectWords(os[i])))
  }

  function ObjectStatesOf(ws: seq<int>): (ss: seq<ObjectState>)
    ensures |ss| == |ws| / ObjectStateSize
  {
    var cs := Chunks(ws, ObjectStateSize);
    seq(|cs|, i requires 0 <= i < |cs| => ObjectStateOf(cs[i]))
  }

  function ObjectStatesWords(ss: seq<ObjectState>): seq<int>
  {
    Flatten(seq(|ss|, i requires 0 <= i < |ss| => ObjectStateWords(ss[i])))
  }

  function TriggersOf(ws: seq<int>): (ts: seq<Trigger>)
    ensures |ts| == |ws| / TriggerSize
  {
    var cs := Chunks(ws, TriggerSize);
    seq(|cs|, i requires 0 <= i < |cs| => TriggerOf(cs[i]))
  }

  function TriggersWords(ts: seq<Trigger>): seq<int>
  {
    Flatten(seq(|ts|, i requires 0 <= i < |ts| => TriggerWords(ts[i])))
  }

  function DetailsOf(ws: seq<int>): (ds: seq<Detail>)
    ensures |ds| == |ws| / DetailSize
  {
    var cs := Chunks(ws, DetailSize);
    seq(|cs|, i requires 0 <= i < |cs| => DetailOf(cs[i]))
  }

  function DetailsWords(ds: seq<Detail>): seq<int>
  {
    Flatten(seq(|ds|, i requires 0 <= i < |ds| => DetailWords(ds[i])))
  }

  function Points3Of(ws: seq<int>): (ps: seq<Point3>)
    ensures |ps| == |ws| / Point3Size
  {
    var cs := Chunks(ws, Point3Size);
    seq(|cs|, i requires 0 <= i < |cs| => Point3Of(cs[i]))
  }

  function Points3Words(ps: seq<Point3>): seq<int>
  {
    Flatten(seq(|ps|, i requires 0 <= i < |ps| => Point3Words(ps[i])))
  }

  function Quats16Of(hs: seq<int>): (qs: seq<Quat16>)
    ensures |qs| == |hs| / Quat16Size
  {
    var cs := Chunks(hs, Quat16Size);
    seq(|cs|, i requires 0 <= i < |cs| => Quat16Of(cs[i]))
  }

  function Quats16Halves(qs: seq<Quat16>): seq<int>
  {
    Flatten(seq(|qs|, i requires 0 <= i < |qs| => Quat16Halves(qs[i])))
  }

  /** Written records read back as themselves. */
  lemma RecordsReadBack(ns: seq<Node>, os: seq<Object>, ss: seq<ObjectState>, ts: seq<Trigger>, ds: seq<Detail>)
    ensures NodesOf(NodesWords(ns)) == ns
    ensures ObjectsOf(ObjectsWords(os)) == os
    ensures ObjectStatesOf(ObjectStatesWords(ss)) == ss
    ensures TriggersOf(TriggersWords(ts)) == ts
    ensures DetailsOf(DetailsWords(ds)) == ds
  {
    RecordRoundTrips();
    ChunksFlatten(seq(|ns|, i requires 0 <= i < |ns| => NodeWords(ns[i])), NodeSize);
    ChunksFlatten(seq(|os|, i requires 0 <= i < |os| => ObjectWords(os[i])), ObjectSize);
    ChunksFlatten(seq(|ss|, i requires 0 <= i < |ss| => ObjectStateWords(ss[i])), ObjectStateSize);
    ChunksFlatten(seq(|ts|, i requires 0 <= i < |ts| => TriggerWords(ts[i])), TriggerSize);
    ChunksFlatten(seq(|ds|, i requires 0 <= i < |ds| => DetailWords(ds[i])), DetailSize);
  }

  /** A whole number of records' worth of 32-bit words is written back as
      the same words. */
  lemma NodeWordsReadBack(ws: seq<int>)
    requires ShapeAlloc.AllFit(ws, ShapeAlloc.W32) && |ws| % NodeSize == 0
    ensures NodesWords(NodesOf(ws)) == ws
  {
    var cs := Chunks(ws, NodeSize);
    ChunksFit(ws, NodeSize);
    forall i | 0 <= i < |cs| ensures NodeWords(NodeOf(cs[i])) == cs[i] {
      WordRoundTrips(cs[i]);
    }
    assert seq(|cs|, i requires 0 <= i < |cs| => NodeWords(NodesOf(ws)[i])) == cs;
    FlattenChunks(ws, NodeSize);
  }

  lemma DetailWordsReadBack(ws: seq<int>)
    requires ShapeAlloc.AllFit(ws, ShapeAlloc.W32) && |ws| % DetailSize == 0
    ensures DetailsWords(DetailsOf(ws)) == ws
  {
    var cs := Chunks(ws, DetailSize);
    ChunksFit(ws, DetailSize);
    forall i | 0 <= i < |cs| ensures DetailWords(DetailOf(cs[i])) == cs[i] {
      WordRoundTrips(cs[i]);
    }
    assert seq(|cs|, i requires 0 <= i < |cs| => DetailWords(DetailsOf(ws)[i])) == cs;
    FlattenChunks(ws, DetailSize);
  }

  // ---------------------------------------------------------------------
  // Detail errors and the smallest visible detail
  // ---------------------------------------------------------------------

  /** A float is 0 (either zero). */
  predicate IsZero(b: Float32.Bits)
  {
    Float32.Equal(Float32.Decode(b), Float32.Finite(0.0))
  }

  /** A float is greater than 10000. */
  predicate Above10000(b: Float32.Bits)
  {
    Float32.Less(Float32.Decode(Float32.TenThousand), Float32.Decode(b))
  }

  /** An error some exporters write as garbage: 0 or above 10000. */
  predicate Garbage(b: Float32.Bits)
  {
    IsZero(b) || Above10000(b)
  }

  /** The loader's repair: when either error is garbage, both become -1. */
  function Sanitised(d: Detail): (r: Detail)
  {
    if Garbage(d.averageError) || Garbage(d.maxError) then d.(averageError := Float32.MinusOne, maxError := Float32.MinusOne)
    else d
  }

  /** A detail is a candidate for the smallest visible one when its size is
      at least 0 and below `FLT_MAX`. */
  predicate Visible(d: Detail)
  {
    Float32.AtLeast(Float32.Decode(d.size), Float32.Finite(0.0)) &&
    Float32.Less(Float32.Decode(d.size), Float32.Decode(Float32.FltMax))
  }

  /** The real value of a finite float. */
  function RealOf(b: Float32.Bits): real
  {
    match Float32.Decode(b)
    case Finite(r) => r
    case _ => 0.0
  }

  /** `UpdateSmallestVisibleDL` over the first n details: the index chosen
      and the size recorded, starting from -1 and `FLT_MAX`; a detail
      replaces the choice only when it is visible and strictly smaller. */
  function SmallestVisible(details: seq<Detail>, n: nat): (r: (int, Float32.Bits))
    requires n <= |details|
    ensures -1 <= r.0 < n
  {
    if n == 0 then (-1, Float32.FltMax)
    else
      var (dl, size) := SmallestVisible(details, n - 1);
      var d := details[n - 1];
      if Replaces(d, size) then (n - 1, d.size) else (dl, size)
  }

  /** Detail d replaces the choice of size `size`: its size is at least 0
      and strictly smaller. */
  predicate Replaces(d: Detail, size: Float32.Bits)
  {
    Float32.AtLeast(Float32.Decode(d.size), Float32.Finite(0.0)) &&
    Float32.Less(Float32.Decode(d.size), Float32.Decode(size))
  }

  lemma FltMaxFinite()
    ensures Float32.Decode(Float32.FltMax).Finite?
  {
  }

  /** dl is -1 with `FLT_MAX` exactly when none of the first n details is
      visible; otherwise it is a visible detail and size is its size. */
  predicate FoundChoice(details: seq<Detail>, n: nat, dl: int, size: Float32.Bits)
    requires n <= |details| && -1 <= dl < n
  {
    (dl == -1 <==> forall j :: 0 <= j < n ==> !Visible(details[j])) &&
    (dl == -1 ==> size == Float32.FltMax) &&
    (dl >= 0 ==> Visible(details[dl]) && size == details[dl].size)
  }

  /** Detail dl, if any, is no larger than any visible detail among the
      first n, and strictly smaller than every visible detail before it. */
  predicate LeastChoice(details: seq<Detail>, n: nat, dl: int)
    requires n <= |details| && -1 <= dl < n
  {
    dl >= 0 ==>
      (forall j :: 0 <= j < n && Visible(details[j]) ==> RealOf(details[dl].size) <= RealOf(details[j].size)) &&
      (forall j :: 0 <= j < dl && Visible(details[j]) ==> RealOf(details[dl].size) < RealOf(details[j].size))
  }

  /** The choice is -1 with `FLT_MAX` exactly when no detail is visible;
      otherwise it is a visible detail and the size recorded is its size. */
  lemma {:induction false} SmallestVisibleFound(details: seq<Detail>, n: nat)
    requires n <= |details|
    ensures FoundChoice(details, n, SmallestVisible(details, n).0, SmallestVisible(details, n).1)
  {
    if n > 0 {
      SmallestVisibleFound(details, n - 1);
      var (dl0, size0) := SmallestVisible(details, n - 1);
      var r := SmallestVisible(details, n);
      assert r == if Replaces(details[n - 1], size0) then (n - 1, details[n - 1].size) else (dl0, size0);
      FoundStep(details, n, dl0, size0, r.0, r.1);
    } else {
      FltMaxFinite();
    }
  }

  /** One step of `SmallestVisibleFound`. */
  lemma FoundStep(details: seq<Detail>, n: nat, dl0: int, size0: Float32.Bits, dl: int, size: Float32.Bits)
    requires 0 < n <= |details| && -1 <= dl0 < n - 1 && FoundChoice(details, n - 1, dl0, size0)
    requires (dl, size) == if Replaces(details[n - 1], size0) then (n - 1, details[n - 1].size) else (dl0, size0)
    ensures FoundChoice(details, n, dl, size)
  {
    FltMaxFinite();
    if Replaces(details[n - 1], size0) {
      if dl0 >= 0 {
        VisibleFinite(details[dl0]);
      }
      assert Visible(details[n - 1]);
    } else {
      if dl0 >= 0 {
        VisibleFinite(details[dl0]);
      }
      assert !Visible(details[n - 1]) || dl0 >= 0;
    }
  }

  /** The detail chosen is the first visible one of least size. */
  lemma {:induction false} SmallestVisibleLeast(details: seq<Detail>, n: nat)
    requires n <= |details|
    ensures LeastChoice(details, n, SmallestVisible(details, n).0)
  {
    if n > 0 {
      SmallestVisibleFound(details, n - 1);
      SmallestVisibleLeast(details, n - 1);
      var (dl0, size0) := SmallestVisible(details, n - 1);
      var r := SmallestVisible(details, n);
      assert r == if Replaces(details[n - 1], size0) then (n - 1, details[n - 1].size) else (dl0, size0);
      LeastStep(details, n, dl0, size0, r.0);
    }
  }

  /** One step of `SmallestVisibleLeast`: from the choice over the first
      n - 1 details to the choice over n. */
  lemma LeastStep(details: seq<Detail>, n: nat, dl0: int, size0: Float32.Bits, dl: int)
    requires 0 < n <= |details| && -1 <= dl0 < n - 1
    requires FoundChoice(details, n - 1, dl0, size0) && LeastChoice(details, n - 1, dl0)
    requires dl == if Replaces(details[n - 1], size0) then n - 1 else dl0
    ensures LeastChoice(details, n, dl)
  {
    if Replaces(details[n - 1], size0) {
      ChosenLeast(details, n, dl0, size0);
    } else if dl0 >= 0 {
      KeptLeast(details, n, dl0);
    }
  }

  /** A visible detail's size is a finite float. */
  lemma VisibleFinite(d: Detail)
    requires Visible(d)
    ensures Float32.Decode(d.size).Finite? && RealOf(d.size) == Float32.Decode(d.size).r
  {
    FltMaxFinite();
  }

  /** A detail that replaces the choice so far is smaller than every
      visible detail before it. */
  lemma ChosenLeast(details: seq<Detail>, n: nat, dl0: int, size0: Float32.Bits)
    requires 0 < n <= |details| && -1 <= dl0 < n - 1
    requires dl0 == -1 ==> size0 == Float32.FltMax && forall j :: 0 <= j < n - 1 ==> !Visible(details[j])
    requires dl0 >= 0 ==> Visible(details[dl0]) && size0 == details[dl0].size
    requires dl0 >= 0 ==> forall j :: 0 <= j < n - 1 && Visible(details[j]) ==> RealOf(size0) <= RealOf(details[j].size)
    requires Replaces(details[n - 1], size0)
    ensures forall j :: 0 <= j < n - 1 && Visible(details[j]) ==> RealOf(details[n - 1].size) < RealOf(details[j].size)
  {
    if dl0 >= 0 {
      VisibleFinite(details[dl0]);
      assert Float32.Decode(details[n - 1].size).Finite?;
      assert RealOf(details[n - 1].size) < RealOf(size0);
    }
  }

  /** A visible detail that does not replace the choice so far is at least
      as large as it. */
  lemma KeptLeast(details: seq<Detail>, n: nat, dl0: nat)
    requires 0 < n <= |details| && dl0 < n - 1 && Visible(details[dl0])
    requires !Replaces(details[n - 1], details[dl0].size)
    ensures Visible(details[n - 1]) ==> RealOf(details[dl0].size) <= RealOf(details[n - 1].size)
  {
    VisibleFinite(details[dl0]);
    if Visible(details[n - 1]) {
      VisibleFinite(details[n - 1]);
    }
  }
}
