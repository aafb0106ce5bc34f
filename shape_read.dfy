/**
 * ShapeRead: `TSShape::AssembleShape`, the walk over the packed buffer that
 * builds a shape, as functions of the allocator state. The walk is cut at
 * its guards into sections (the counts, the bounds, the node and object
 * tables, the subshape tables, the default transforms, the scales, the ground
 * frames, the states and triggers, the details, the meshes, the names and,
 * before version 23, the skins); `ReadShape` runs them in order.
 *
 * The same walk runs twice on a load: first with no shape block (it only
 * counts bytes), then into a block of the counted size. Pointers the
 * allocator answers are null in the first pass, so a table read through one
 * comes out empty there; see TwoPass for why both passes count the same.
 *
 * `ok` says whether every guard matched; the source only asserts that.
 */
module ShapeRead {
  import opened Bytes
  import opened ShapeAlloc
  import opened ShapeRecords
  import Float32
  import Stream
  import opened Mesh
  import MeshFactory

  /** The counts at the head of the buffer. */
  datatype Counts = Counts(
    nodes: int, objects: int, decals: int, subShapes: int, iflMaterials: int,
    nodeRots: int, nodeTrans: int, uniformScales: int, alignedScales: int, arbitraryScales: int,
    groundFrames: int, objectStates: int, decalStates: int, triggers: int, details: int,
    meshes: int, skins: int, names: int)

  /** The counts and the smallest visible size and detail as stored (the
      loader recomputes both from the details later). */
  datatype Head = Head(counts: Counts, smallestVisibleSize: Float32.Bits, smallestVisibleDL: int)

  datatype Bounds = Bounds(radius: Float32.Bits, tubeRadius: Float32.Bits, center: Point3, box: seq<int>)

  datatype Tables = Tables(nodes: seq<Node>, objects: seq<Object>)

  datatype SubShapes = SubShapes(firstNode: seq<int>, firstObject: seq<int>, numNodes: seq<int>, numObjects: seq<int>)

  datatype Defaults = Defaults(rotations: seq<Quat16>, translations: seq<Point3>,
                               nodeTranslations: seq<Point3>, nodeRotations: seq<Quat16>)

  datatype Scales = Scales(uniform: seq<Float32.Bits>, aligned: seq<Point3>,
                           arbitraryFactors: seq<Point3>, arbitraryRots: seq<Quat16>)

  datatype Ground = Ground(translations: seq<Point3>, rotations: seq<Quat16>)

  datatype States = States(objectStates: seq<ObjectState>, triggers: seq<Trigger>)

  /** Everything the walk assembles. Scales and ground frames are None when
      the version has none; the shape then keeps what it had. */
  datatype Assembled = Assembled(
    head: Head, bounds: Bounds, tables: Tables, subShapes: SubShapes, defaults: Defaults,
    scales: Option<Scales>, ground: Option<Ground>, states: States, details: seq<Detail>,
    meshes: seq<MeshFactory.Made>, names: seq<string>)

  /** The platform sizes the walk depends on: the mesh objects, and a mesh
      pointer in 32-bit words. */
  datatype Platform = Platform(sizes: MeshFactory.ObjectSizes, pointerWords: nat)

  /** `sizeof(Point3F) - 12`: a point is three floats, so no padding. */
  const Point3Padding: int := 0

  // ---------------------------------------------------------------------
  // The counts and the bounds
  // ---------------------------------------------------------------------

  /** The rotation, translation and three scale counts: before version 22
      one combined count less the node count serves as both the rotation
      and the translation count, and there are no scales. */
  function ReadAnimationCounts(s: ReadState, nodes: int, version: int): (r: (seq<int>, ReadState))
    ensures |r.0| == 5
  {
    if version < 22 then
      var (combined, s1) := s.Get(W32);
      ([combined - nodes, combined - nodes, 0, 0, 0], s1)
    else
      var (rots, s1) := s.Get(W32);
      var (trans, s2) := s1.Get(W32);
      var (uniform, s3) := s2.Get(W32);
      var (aligned, s4) := s3.Get(W32);
      var (arbitrary, s5) := s4.Get(W32);
      ([rots, trans, uniform, aligned, arbitrary], s5)
  }

  /** The counts of the tables after the animation counts: ground frames
      only after version 23, skins only before it. */
  function ReadTableCounts(s: ReadState, version: int): (r: (seq<int>, ReadState))
    ensures |r.0| == 8
  {
    var (ground, s1) := if version > 23 then s.Get(W32) else (0, s);
    var (objectStates, s2) := s1.Get(W32);
    var (decalStates, s3) := s2.Get(W32);
    var (triggers, s4) := s3.Get(W32);
    var (details, s5) := s4.Get(W32);
    var (meshes, s6) := s5.Get(W32);
    var (skins, s7) := if version < 23 then s6.Get(W32) else (0, s6);
    var (names, s8) := s7.Get(W32);
    ([ground, objectStates, decalStates, triggers, details, meshes, skins, names], s8)
  }

  /** The head: five counts, the animation counts, the table counts, the
      smallest visible size (converted from an integer) and detail, a
      guard. */
  function ReadHead(s: ReadState, version: int): (r: Read<Head>)
  {
    var (nodes, s1) := s.Get(W32);
    var (objects, s2) := s1.Get(W32);
    var (decals, s3) := s2.Get(W32);
    var (subShapes, s4) := s3.Get(W32);
    var (ifl, s5) := s4.Get(W32);
    var (a, s6) := ReadAnimationCounts(s5, nodes, version);
    var (t, s7) := ReadTableCounts(s6, version);
    var (size, s8) := s7.Get(W32);
    var (dl, s9) := s8.Get(W32);
    var (ok, s10) := s9.CheckGuard();
    var counts := Counts(nodes, objects, decals, subShapes, ifl, a[0], a[1], a[2], a[3], a[4],
                         t[0], t[1], t[2], t[3], t[4], t[5], t[6], t[7]);
    Read(Head(counts, Float32.FromInt(size), dl), ok, s10)
  }

  /** The radius and tube radius, 3 center words and 6 box words, copied
      as bits, then a guard. */
  function ReadBounds(s: ReadState): (r: Read<Bounds>)
  {
    var (radius, s1) := s.GetInto(W32, 1);
    var (tube, s2) := s1.GetInto(W32, 1);
    var (center, s3) := s2.GetInto(W32, 3);
    var (box, s4) := s3.GetInto(W32, 6);
    var (ok, s5) := s4.CheckGuard();
    Read(Bounds(Float32.OfWord(At(radius, 0)), Float32.OfWord(At(tube, 0)), Point3Of(center), box), ok, s5)
  }

  // ---------------------------------------------------------------------
  // The node, object and subshape tables
  // ---------------------------------------------------------------------

  /** The nodes (5 words each) copied, a guard; the objects (6 words each)
      copied with the room for the old separate skins reserved after them,
      a guard. */
  function ReadTables(s: ReadState, c: Counts): (r: Read<Tables>)
  {
    var (pn, s1) := s.CopyToShape(W32, c.nodes * NodeSize, false);
    var nodes := NodesOf(VectorAt(s1, pn, c.nodes, NodeSize, W32));
    var (ok1, s2) := s1.CheckGuard();
    var (po, s3) := s2.CopyToShape(W32, c.objects * ObjectSize, true);
    var (p, s4) := if po.Null? then s3.AllocShape(W32, c.skins * ObjectSize)
                   else (po, s3.AllocShape(W32, c.skins * ObjectSize).1);
    var objects := ObjectsOf(VectorAt(s4, p, c.objects, ObjectSize, W32));
    var (ok2, s5) := s4.CheckGuard();
    Read(Tables(nodes, objects), ok1 && ok2, s5)
  }

  /** The deprecated decals (5 words each, skipped), a guard; the deprecated
      IFL materials (5 words each, copied), a guard; each subshape's first
      node and first object copied and its deprecated first decal skipped,
      a guard; each subshape's node, object and deprecated decal count
      copied, a guard. */
  function ReadSubShapes(s: ReadState, c: Counts): (r: Read<SubShapes>)
  {
    var (_, s1) := s.GetPointer(W32, c.decals * 5);
    var (ok1, s2) := s1.CheckGuard();
    var (_, s3) := s2.CopyToShape(W32, c.iflMaterials * 5, false);
    var (ok2, s4) := s3.CheckGuard();
    var (pfn, s5) := s4.CopyToShape(W32, c.subShapes, true);
    var firstNode := VectorAt(s5, pfn, c.subShapes, 1, W32);
    var (pfo, s6) := s5.CopyToShape(W32, c.subShapes, true);
    var firstObject := VectorAt(s6, pfo, c.subShapes, 1, W32);
    var (_, s7) := s6.GetPointer(W32, c.subShapes);
    var (ok3, s8) := s7.CheckGuard();
    var (pnn, s9) := s8.CopyToShape(W32, c.subShapes, false);
    var numNodes := VectorAt(s9, pnn, c.subShapes, 1, W32);
    var (pno, s10) := s9.CopyToShape(W32, c.subShapes, false);
    var numObjects := VectorAt(s10, pno, c.subShapes, 1, W32);
    var (_, s11) := s10.CopyToShape(W32, c.subShapes, false);
    var (ok4, s12) := s11.CheckGuard();
    Read(SubShapes(firstNode, firstObject, numNodes, numObjects), ok1 && ok2 && ok3 && ok4, s12)
  }

  // ---------------------------------------------------------------------
  // Loops of fixed-size copies and reads
  // ---------------------------------------------------------------------

  /** n calls of `CopyToShape(k)` of width w. */
  function CopyEach(s: ReadState, w: Width, k: int, n: nat): ReadState
    decreases n
  {
    if n == 0 then s else CopyEach(s.CopyToShape(w, k, false).1, w, k, n - 1)
  }

  /** n rounds of `CopyToShape(3)` and `CopyToShape(sizeof(Point3F) - 12)`. */
  function CopyPoints(s: ReadState, n: nat): ReadState
    decreases n
  {
    if n == 0 then s
    else CopyPoints(s.CopyToShape(W32, 3, false).1.CopyToShape(W32, Point3Padding, false).1, n - 1)
  }

  /** n calls of `Get(dest, k)` of width w: the runs read, in order. */
  function GetEach(s: ReadState, w: Width, k: int, n: nat): (r: (seq<seq<int>>, ReadState))
    ensures |r.0| == n
    decreases n
  {
    if n == 0 then ([], s)
    else
      var (v, s1) := s.GetInto(w, k);
      var (rest, s2) := GetEach(s1, w, k, n - 1);
      ([v] + rest, s2)
  }

  function PointsRead(runs: seq<seq<int>>): (ps: seq<Point3>)
    ensures |ps| == |runs|
  {
    seq(|runs|, i requires 0 <= i < |runs| => Point3Of(runs[i]))
  }

  function QuatsRead(runs: seq<seq<int>>): (qs: seq<Quat16>)
    ensures |qs| == |runs|
  {
    seq(|runs|, i requires 0 <= i < |runs| => Quat16Of(runs[i]))
  }

  function FloatsRead(runs: seq<seq<int>>): (fs: seq<Float32.Bits>)
    ensures |fs| == |runs|
  {
    seq(|runs|, i requires 0 <= i < |runs| => Float32.OfWord(At(runs[i], 0)))
  }

  // ---------------------------------------------------------------------
  // Transforms
  // ---------------------------------------------------------------------

  /** The default rotations (4 int16 per node, copied one node at a time)
      and, after aligning, the default translations (3 words per node); the
      node translations (3 words each) and rotations (4 int16 each) read
      out; alignment and a guard. */
  function ReadDefaults(s: ReadState, c: Counts): (r: Read<Defaults>)
  {
    var (p16, s1) := s.AllocShape(W16, 0);
    var s2 := CopyEach(s1, W16, Quat16Size, Count(c.nodes));
    var rotations := Quats16Of(VectorAt(s2, p16, c.nodes, Quat16Size, W16));
    var s3 := s2.Align32();
    var (p32, s4) := s3.AllocShape(W32, 0);
    var s5 := CopyPoints(s4, Count(c.nodes));
    var translations := Points3Of(VectorAt(s5, p32, c.nodes, Point3Size, W32));
    var (trans, s6) := GetEach(s5, W32, Point3Size, Count(c.nodeTrans));
    var (rots, s7) := GetEach(s6, W16, Quat16Size, Count(c.nodeRots));
    var s8 := s7.Align32();
    var (ok, s9) := s8.CheckGuard();
    Read(Defaults(rotations, translations, PointsRead(trans), QuatsRead(rots)), ok, s9)
  }

  /** After version 21: uniform scales (1 word each), aligned scales and
      arbitrary scale factors (3 words each), arbitrary scale rotations (4
      int16 each), alignment, a guard. Earlier versions read nothing. */
  function ReadScales(s: ReadState, c: Counts, version: int): (r: Read<Option<Scales>>)
    ensures version <= 21 ==> r == Read(None, true, s)
  {
    if version <= 21 then Read(None, true, s)
    else
      var (uniform, s1) := GetEach(s, W32, 1, Count(c.uniformScales));
      var (aligned, s2) := GetEach(s1, W32, Point3Size, Count(c.alignedScales));
      var (factors, s3) := GetEach(s2, W32, Point3Size, Count(c.arbitraryScales));
      var (rots, s4) := GetEach(s3, W16, Quat16Size, Count(c.arbitraryScales));
      var s5 := s4.Align32();
      var (ok, s6) := s5.CheckGuard();
      Read(Some(Scales(FloatsRead(uniform), PointsRead(aligned), PointsRead(factors), QuatsRead(rots))), ok, s6)
  }

  /** After version 23: the ground translations (3 words each) and
      rotations (4 int16 each), alignment, a guard. */
  function ReadGround(s: ReadState, c: Counts, version: int): (r: Read<Option<Ground>>)
    ensures version <= 23 ==> r == Read(None, true, s)
  {
    if version <= 23 then Read(None, true, s)
    else
      var (trans, s1) := GetEach(s, W32, Point3Size, Count(c.groundFrames));
      var (rots, s2) := GetEach(s1, W16, Quat16Size, Count(c.groundFrames));
      var s3 := s2.Align32();
      var (ok, s4) := s3.CheckGuard();
      Read(Some(Ground(PointsRead(trans), QuatsRead(rots))), ok, s4)
  }

  // ---------------------------------------------------------------------
  // States, triggers and details
  // ---------------------------------------------------------------------

  /** The object states (3 words each) copied with room for the old skins'
      states after them, a guard; the deprecated decal states skipped, a
      guard; the triggers (2 words each) copied out of the input, a guard. */
  function ReadStates(s: ReadState, c: Counts): (r: Read<States>)
  {
    var (ps, s1) := s.CopyToShape(W32, c.objectStates * ObjectStateSize, false);
    var states := ObjectStatesOf(VectorAt(s1, ps, c.objectStates, ObjectStateSize, W32));
    var (_, s2) := s1.AllocShape(W32, c.skins * ObjectStateSize);
    var (ok1, s3) := s2.CheckGuard();
    var (_, s4) := s3.GetPointer(W32, c.decalStates);
    var (ok2, s5) := s4.CheckGuard();
    var (pt, s6) := s5.GetPointer(W32, c.triggers * TriggerSize);
    var triggers := TriggersOf(Decode(s6.Deref(pt, Count(c.triggers) * TriggerSize * 4), W32));
    var (ok3, s7) := s6.CheckGuard();
    Read(States(states, triggers), ok1 && ok2 && ok3, s7)
  }

  /** The details (7 words each) copied, each with garbage errors replaced
      by -1 (see `Sanitised`), a guard. */
  function ReadDetails(s: ReadState, c: Counts): (r: Read<seq<Detail>>)
  {
    var (p, s1) := s.CopyToShape(W32, c.details * DetailSize, true);
    var stored := DetailsOf(VectorAt(s1, p, c.details, DetailSize, W32));
    var (ok, s2) := s1.CheckGuard();
    Read(SanitisedAll(stored), ok, s2)
  }

  /** Every detail sanitised. */
  function SanitisedAll(ds: seq<Detail>): (r: seq<Detail>)
    ensures |r| == |ds| && forall i :: 0 <= i < |ds| ==> r[i] == Sanitised(ds[i])
  {
    seq(|ds|, i requires 0 <= i < |ds| => Sanitised(ds[i]))
  }

  // ---------------------------------------------------------------------
  // Meshes
  // ---------------------------------------------------------------------

  /** `std::vector::resize(n)`: the first n entries kept, new ones
      value-initialised to zero. */
  function Resized<T>(v: seq<T>, n: nat, zero: T): (r: seq<T>)
    ensures |r| == n
    ensures forall i :: 0 <= i < n ==> r[i] == if i < |v| then v[i] else zero
  {
    if n <= |v| then v[..n] else v + seq(n - |v|, _ => zero)
  }

  /** The reset loop over one table: entries below m become zero. */
  function Cleared<T>(v: seq<T>, m: nat, zero: T): (r: seq<T>)
    ensures |r| == |v|
    ensures forall i :: 0 <= i < |v| ==> r[i] == if i < m then zero else v[i]
  {
    if m >= |v| then seq(|v|, _ => zero) else seq(m, _ => zero) + v[m..]
  }

  /** One scratch table before the meshes: resized to n entries and its
      first m entries reset. */
  function ResetTable<T>(v: seq<T>, n: nat, m: nat, zero: T): seq<T>
  {
    Cleared(Resized(v, n, zero), m, zero)
  }

  /** t is prev resized to n entries with the first m reset to zero: an
      entry from m on that prev had is kept, any other entry is zero. */
  ghost predicate ResetFrom<T>(prev: seq<T>, t: seq<T>, n: nat, m: nat, zero: T)
  {
    |t| == n && forall i :: 0 <= i < n ==> t[i] == if i < m || i >= |prev| then zero else prev[i]
  }

  lemma ResetTableFrom<T>(v: seq<T>, n: nat, m: nat, zero: T)
    ensures ResetFrom(v, ResetTable(v, n, m, zero), n, m, zero)
  {
  }

  /** `scratch_size`: `max(num_skins, num_meshes)` entries. */
  function ScratchSize(c: Counts): nat
  {
    Count(if c.skins > c.meshes then c.skins else c.meshes)
  }

  /** The scratch tables before the meshes, from the static tables as an
      earlier load left them: each resized to `max(num_skins, num_meshes)`
      entries, and the first `num_meshes` entries null and not copied.
      Entries from `num_meshes` on keep what the earlier load put there. */
  function ResetScratch(statics: Scratch, c: Counts): (t: Scratch)
    ensures var n, m := ScratchSize(c), Count(c.meshes);
      ResetFrom(statics.verts, t.verts, n, m, Null) && ResetFrom(statics.tverts, t.tverts, n, m, Null) &&
      ResetFrom(statics.norms, t.norms, n, m, Null) && ResetFrom(statics.encodedNorms, t.encodedNorms, n, m, Null) &&
      ResetFrom(statics.initTransforms, t.initTransforms, n, m, Null) &&
      ResetFrom(statics.vertexIndex, t.vertexIndex, n, m, Null) && ResetFrom(statics.boneIndex, t.boneIndex, n, m, Null) &&
      ResetFrom(statics.weight, t.weight, n, m, Null) && ResetFrom(statics.nodeIndex, t.nodeIndex, n, m, Null) &&
      ResetFrom(statics.dataCopied, t.dataCopied, n, m, false)
  {
    var n, m := ScratchSize(c), Count(c.meshes);
    ResetTableFrom(statics.verts, n, m, Null);
    ResetTableFrom(statics.tverts, n, m, Null);
    ResetTableFrom(statics.norms, n, m, Null);
    ResetTableFrom(statics.encodedNorms, n, m, Null);
    ResetTableFrom(statics.initTransforms, n, m, Null);
    ResetTableFrom(statics.vertexIndex, n, m, Null);
    ResetTableFrom(statics.boneIndex, n, m, Null);
    ResetTableFrom(statics.weight, n, m, Null);
    ResetTableFrom(statics.nodeIndex, n, m, Null);
    ResetTableFrom(statics.dataCopied, n, m, false);
    Scratch(ResetTable(statics.verts, n, m, Null), ResetTable(statics.tverts, n, m, Null),
            ResetTable(statics.norms, n, m, Null), ResetTable(statics.encodedNorms, n, m, Null),
            ResetTable(statics.initTransforms, n, m, Null), ResetTable(statics.vertexIndex, n, m, Null),
            ResetTable(statics.boneIndex, n, m, Null), ResetTable(statics.weight, n, m, Null),
            ResetTable(statics.nodeIndex, n, m, Null), ResetTable(statics.dataCopied, n, m, false))
  }

  /** A load with no more meshes than an earlier one had skins or meshes
      keeps that load's scratch entries past its own meshes: a detail
      level whose parent lies there shares the earlier load's data. */
  lemma {:induction false} StaleEntriesKept(statics: Scratch, c: Counts, i: nat)
    requires Count(c.meshes) <= i < ScratchSize(c) && i < |statics.verts| && i < |statics.dataCopied|
    ensures Entry(ResetScratch(statics, c).verts, i) == statics.verts[i]
    ensures CopiedAt(ResetScratch(statics, c).dataCopied, i) == statics.dataCopied[i]
  {
    var t := ResetScratch(statics, c);
    assert t.verts[i] == statics.verts[i];
    assert t.dataCopied[i] == statics.dataCopied[i];
  }

  /** The entries of a table from m on. */
  function Tail<T>(v: seq<T>, m: nat): seq<T>
  {
    if m <= |v| then v[m..] else []
  }

  /** Every table's entries from m on. */
  function TailsFrom(t: Scratch, m: nat): Scratch
  {
    Scratch(Tail(t.verts, m), Tail(t.tverts, m), Tail(t.norms, m), Tail(t.encodedNorms, m), Tail(t.initTransforms, m),
            Tail(t.vertexIndex, m), Tail(t.boneIndex, m), Tail(t.weight, m), Tail(t.nodeIndex, m), Tail(t.dataCopied, m))
  }

  function Lengths(t: Scratch): seq<int>
  {
    [|t.verts|, |t.tverts|, |t.norms|, |t.encodedNorms|, |t.initTransforms|,
     |t.vertexIndex|, |t.boneIndex|, |t.weight|, |t.nodeIndex|, |t.dataCopied|]
  }

  /** Two scratch tables of the same lengths that agree from entry m on. */
  ghost predicate SameFrom(t: Scratch, u: Scratch, m: nat)
  {
    Lengths(t) == Lengths(u) && TailsFrom(t, m) == TailsFrom(u, m)
  }

  ghost predicate SameTail<T>(v: seq<T>, w: seq<T>, m: nat)
  {
    |v| == |w| && forall i :: m <= i < |v| ==> v[i] == w[i]
  }

  /** Equal tails of tables of equal length agree entry by entry. */
  lemma TailsAgree<T>(v: seq<T>, w: seq<T>, m: nat)
    requires |v| == |w| && Tail(v, m) == Tail(w, m)
    ensures SameTail(v, w, m)
  {
    forall i | m <= i < |v|
      ensures v[i] == w[i]
    {
      assert v[i] == Tail(v, m)[i - m];
    }
  }

  /** Replacing an entry below m leaves the table's tail from m alone. */
  lemma PutKeepsTail<T>(v: seq<T>, i: nat, x: T, m: nat)
    requires i < m
    ensures Tail(Put(v, i, x), m) == Tail(v, m)
  {
  }

  /** `Vector::Address` of a vector whose elements have width w. */
  function PtrTo(v: seq<int>, w: Width): (p: Ptr)
    ensures p.Null? <==> |v| == 0
  {
    if |v| == 0 then Null else Storage(Encode(v, w))
  }

  /** `Vector::Address` of a byte vector. */
  function BytesPtr(v: seq<byte>): (p: Ptr)
    ensures p.Null? <==> |v| == 0
  {
    if |v| == 0 then Null else Storage(v)
  }

  /** Entry i of a table replaced; a table too short keeps its entries. */
  function Put<T>(v: seq<T>, i: nat, x: T): (r: seq<T>)
    ensures |r| == |v|
  {
    if i < |v| then v[i := x] else v
  }

  /** Where mesh i's data is, for the detail levels after it to share: its
      vertex arrays (for a skin its initial vertices and normals) and, for
      a skin, its skin arrays; and whether its data went into the block. */
  function Recorded(t: Scratch, i: nat, typeCode: int, m: Mesh, skip: bool): (r: Scratch)
    ensures r.dataCopied == Put(t.dataCopied, i, !skip)
  {
    var t1 := t.(verts := Put(t.verts, i, PtrTo(m.verts, W32)), tverts := Put(t.tverts, i, PtrTo(m.tverts, W32)),
                 norms := Put(t.norms, i, PtrTo(m.norms, W32)), encodedNorms := Put(t.encodedNorms, i, BytesPtr(m.encodedNorms)),
                 dataCopied := Put(t.dataCopied, i, !skip));
    if typeCode == SkinMeshType && m.extra.Skin? then
      var k := m.extra.skin;
      t1.(verts := Put(t1.verts, i, PtrTo(k.initialVerts, W32)), norms := Put(t1.norms, i, PtrTo(k.initialNorms, W32)),
          initTransforms := Put(t1.initTransforms, i, PtrTo(k.initialTransforms, W32)),
          vertexIndex := Put(t1.vertexIndex, i, PtrTo(k.vertexIndex, W32)),
          boneIndex := Put(t1.boneIndex, i, PtrTo(k.boneIndex, W32)),
          weight := Put(t1.weight, i, PtrTo(k.weight, W32)),
          nodeIndex := Put(t1.nodeIndex, i, PtrTo(k.nodeIndex, W32)))
    else t1
  }

  /** One mesh: its type code, then the factory, in skip mode for a
      (deprecated) decal. The entry kept for the shape is null for a
      skipped decal; the scratch tables record the mesh when one was made. */
  function ReadOneMesh(s: ReadState, i: nat, version: int, sizes: MeshFactory.ObjectSizes, t: Scratch)
    : (r: Read<(MeshFactory.Made, Scratch)>)
  {
    var (typeCode, s1) := s.Get(W32);
    var skip := typeCode == DecalMeshType;
    var m := MeshFactory.ReadAnyMesh(s1, typeCode, skip, version, t, sizes);
    var made := m.value.0;
    var t1 := if made.MeshObject? then Recorded(t, i, typeCode, made.mesh, skip) else t;
    Read((if skip then MeshFactory.NoMesh else made, t1), m.ok, m.state)
  }

  /** Meshes i to n - 1, one after the other. */
  function ReadMeshList(s: ReadState, i: nat, n: nat, version: int, sizes: MeshFactory.ObjectSizes, t: Scratch)
    : (r: Read<(seq<MeshFactory.Made>, Scratch)>)
    ensures |r.value.0| == if i < n then n - i else 0
    decreases n - i
  {
    if i >= n then Read(([], t), true, s)
    else
      var m := ReadOneMesh(s, i, version, sizes, t);
      var rest := ReadMeshList(m.state, i + 1, n, version, sizes, m.value.1);
      Read(([m.value.0] + rest.value.0, rest.value.1), m.ok && rest.ok, rest.state)
  }

  /** The mesh section: room for the mesh pointer table (the meshes and,
      before version 23, one skin per detail), the meshes, a guard. The
      shape's mesh list is the table, so it is empty while only sizing. */
  function ReadMeshes(s: ReadState, c: Counts, version: int, p: Platform, statics: Scratch)
    : (r: Read<(seq<MeshFactory.Made>, Scratch)>)
    // where the section leaves the runs: after the mesh list and one guard
    ensures var l := ReadMeshList(s.AllocShape(W32, (c.meshes + c.skins * c.details) * p.pointerWords).1, 0, Count(c.meshes), version, p.sizes, ResetScratch(statics, c));
      r.ok == (l.ok && l.state.CheckGuard().0) && r.state == l.state.CheckGuard().1 && r.value.1 == l.value.1
  {
    var table := s.AllocShape(W32, (c.meshes + c.skins * c.details) * p.pointerWords);
    var l := ReadMeshList(table.1, 0, Count(c.meshes), version, p.sizes, ResetScratch(statics, c));
    var guard := l.state.CheckGuard();
    Read((if table.0.Null? then [] else l.value.0, l.value.1), l.ok && guard.0, guard.1)
  }

  /** The mesh section ends where the mesh list does, after one guard. */
  lemma MeshesAfterList(a: ReadState, c: Counts, version: int, p: Platform, statics: Scratch, l: Read<(seq<MeshFactory.Made>, Scratch)>)
    requires l == ReadMeshList(a.AllocShape(W32, (c.meshes + c.skins * c.details) * p.pointerWords).1, 0, Count(c.meshes), version, p.sizes, ResetScratch(statics, c))
    ensures var x := ReadMeshes(a, c, version, p, statics);
      x.ok == (l.ok && l.state.CheckGuard().0) && x.state == l.state.CheckGuard().1 && x.value.1 == l.value.1
  {}

  /** Recording mesh i changes entry i of the tables only. */
  lemma RecordedKeepsTail(t: Scratch, i: nat, typeCode: int, m: Mesh, skip: bool, n: nat)
    requires i < n
    ensures SameFrom(t, Recorded(t, i, typeCode, m, skip), n)
  {
    var r := Recorded(t, i, typeCode, m, skip);
    var t1 := t.(verts := Put(t.verts, i, PtrTo(m.verts, W32)), tverts := Put(t.tverts, i, PtrTo(m.tverts, W32)),
                 norms := Put(t.norms, i, PtrTo(m.norms, W32)), encodedNorms := Put(t.encodedNorms, i, BytesPtr(m.encodedNorms)),
                 dataCopied := Put(t.dataCopied, i, !skip));
    PutKeepsTail(t.verts, i, PtrTo(m.verts, W32), n);
    PutKeepsTail(t.tverts, i, PtrTo(m.tverts, W32), n);
    PutKeepsTail(t.norms, i, PtrTo(m.norms, W32), n);
    PutKeepsTail(t.encodedNorms, i, BytesPtr(m.encodedNorms), n);
    PutKeepsTail(t.dataCopied, i, !skip, n);
    assert SameFrom(t, t1, n);
    if typeCode == SkinMeshType && m.extra.Skin? {
      var k := m.extra.skin;
      PutKeepsTail(t1.verts, i, PtrTo(k.initialVerts, W32), n);
      PutKeepsTail(t1.norms, i, PtrTo(k.initialNorms, W32), n);
      PutKeepsTail(t1.initTransforms, i, PtrTo(k.initialTransforms, W32), n);
      PutKeepsTail(t1.vertexIndex, i, PtrTo(k.vertexIndex, W32), n);
      PutKeepsTail(t1.boneIndex, i, PtrTo(k.boneIndex, W32), n);
      PutKeepsTail(t1.weight, i, PtrTo(k.weight, W32), n);
      PutKeepsTail(t1.nodeIndex, i, PtrTo(k.nodeIndex, W32), n);
    }
  }

  /** Reading mesh i changes entry i of the tables only. */
  lemma OneMeshKeepsTail(s: ReadState, i: nat, version: int, sizes: MeshFactory.ObjectSizes, t: Scratch, n: nat)
    requires i < n
    ensures SameFrom(t, ReadOneMesh(s, i, version, sizes, t).value.1, n)
  {
    var (typeCode, s1) := s.Get(W32);
    var a := MeshFactory.ReadAnyMesh(s1, typeCode, typeCode == DecalMeshType, version, t, sizes);
    if a.value.0.MeshObject? {
      RecordedKeepsTail(t, i, typeCode, a.value.0.mesh, typeCode == DecalMeshType, n);
    }
  }

  /** Reading meshes i to n - 1 leaves the tables' lengths and their
      entries from n on as they were. */
  lemma {:induction false} MeshListKeepsTail(s: ReadState, i: nat, n: nat, version: int, sizes: MeshFactory.ObjectSizes, t: Scratch)
    ensures SameFrom(t, ReadMeshList(s, i, n, version, sizes, t).value.1, n)
    decreases n - i
  {
    if i < n {
      var m := ReadOneMesh(s, i, version, sizes, t);
      OneMeshKeepsTail(s, i, version, sizes, t, n);
      MeshListKeepsTail(m.state, i + 1, n, version, sizes, m.value.1);
    }
  }

  /** Resetting a table again after its entries below m changed gives the
      same table. */
  lemma ResetTableAgain<T>(prev: seq<T>, v: seq<T>, n: nat, m: nat, zero: T)
    requires SameTail(ResetTable(prev, n, m, zero), v, m)
    ensures ResetTable(v, n, m, zero) == ResetTable(prev, n, m, zero)
  {
    ResetTableFrom(prev, n, m, zero);
    ResetTableFrom(v, n, m, zero);
  }

  /** Tables that differ from the reset ones only below `num_meshes` reset
      to the same tables. */
  lemma ResetAgain(statics: Scratch, left: Scratch, c: Counts)
    requires SameFrom(ResetScratch(statics, c), left, Count(c.meshes))
    ensures ResetScratch(left, c) == ResetScratch(statics, c)
  {
    var t, n, m := ResetScratch(statics, c), ScratchSize(c), Count(c.meshes);
    assert Lengths(t)[0] == Lengths(left)[0] && Lengths(t)[1] == Lengths(left)[1] && Lengths(t)[2] == Lengths(left)[2];
    assert Lengths(t)[3] == Lengths(left)[3] && Lengths(t)[4] == Lengths(left)[4] && Lengths(t)[5] == Lengths(left)[5];
    assert Lengths(t)[6] == Lengths(left)[6] && Lengths(t)[7] == Lengths(left)[7] && Lengths(t)[8] == Lengths(left)[8];
    assert Lengths(t)[9] == Lengths(left)[9];
    TailsAgree(t.verts, left.verts, m);
    TailsAgree(t.tverts, left.tverts, m);
    TailsAgree(t.norms, left.norms, m);
    TailsAgree(t.encodedNorms, left.encodedNorms, m);
    TailsAgree(t.initTransforms, left.initTransforms, m);
    TailsAgree(t.vertexIndex, left.vertexIndex, m);
    TailsAgree(t.boneIndex, left.boneIndex, m);
    TailsAgree(t.weight, left.weight, m);
    TailsAgree(t.nodeIndex, left.nodeIndex, m);
    TailsAgree(t.dataCopied, left.dataCopied, m);
    ResetTableAgain(statics.verts, left.verts, n, m, Null);
    ResetTableAgain(statics.tverts, left.tverts, n, m, Null);
    ResetTableAgain(statics.norms, left.norms, n, m, Null);
    ResetTableAgain(statics.encodedNorms, left.encodedNorms, n, m, Null);
    ResetTableAgain(statics.initTransforms, left.initTransforms, n, m, Null);
    ResetTableAgain(statics.vertexIndex, left.vertexIndex, n, m, Null);
    ResetTableAgain(statics.boneIndex, left.boneIndex, n, m, Null);
    ResetTableAgain(statics.weight, left.weight, n, m, Null);
    ResetTableAgain(statics.nodeIndex, left.nodeIndex, n, m, Null);
    ResetTableAgain(statics.dataCopied, left.dataCopied, n, m, false);
  }

  /** The copying walk starts from the tables the sizing walk left; once
      they are reset, the meshes are read as from the tables the sizing
      walk started from, because the sizing walk only wrote entries below
      `num_meshes`. */
  lemma StaticsCarryOver(s1: ReadState, s2: ReadState, c: Counts, version: int, p: Platform, statics: Scratch)
    ensures ReadMeshes(s2, c, version, p, ReadMeshes(s1, c, version, p, statics).value.1) == ReadMeshes(s2, c, version, p, statics)
  {
    var t := ResetScratch(statics, c);
    var l := ReadMeshList(s1.AllocShape(W32, (c.meshes + c.skins * c.details) * p.pointerWords).1, 0, Count(c.meshes), version, p.sizes, t);
    MeshListKeepsTail(s1.AllocShape(W32, (c.meshes + c.skins * c.details) * p.pointerWords).1, 0, Count(c.meshes), version, p.sizes, t);
    MeshesAfterList(s1, c, version, p, statics, l);
    ResetAgain(statics, l.value.1, c);
    SameResetSameMeshes(s2, c, version, p, l.value.1, statics);
  }

  /** The mesh section depends on the static tables only through their
      reset. */
  lemma SameResetSameMeshes(s: ReadState, c: Counts, version: int, p: Platform, x: Scratch, y: Scratch)
    requires ResetScratch(x, c) == ResetScratch(y, c)
    ensures ReadMeshes(s, c, version, p, x) == ReadMeshes(s, c, version, p, y)
  {
  }

  // ---------------------------------------------------------------------
  // Names and the old skins
  // ---------------------------------------------------------------------

  /** The length of the NUL-terminated string at offset. */
  function StringLength(image: seq<byte>, offset: int): (n: nat)
    ensures forall j :: offset <= j < offset + n ==> ByteAt(image, j) != 0
    ensures ByteAt(image, offset + n) == 0
    decreases |image| - offset
  {
    if ByteAt(image, offset) == 0 then 0
    else
      1 + StringLength(image, offset + 1)
  }

  /** n NUL-terminated names from offset on, and the bytes they take with
      their terminators. */
  function NamesAt(image: seq<byte>, offset: int, n: nat): (r: (seq<string>, nat))
    ensures |r.0| == n
    decreases n
  {
    if n == 0 then ([], 0)
    else
      var j := StringLength(image, offset);
      var (rest, size) := NamesAt(image, offset + j + 1, n - 1);
      ([Stream.Chars(Slice(image, offset, j))] + rest, j + 1 + size)
  }

  /** The names, back to back in the 8-bit input, then skipped over,
      alignment, a guard. */
  function ReadNames(s: ReadState, c: Counts): (r: Read<seq<string>>)
  {
    var (p, s1) := s.GetPointer(W8, 0);
    var (names, size) := NamesAt(s1.input, p.offset, Count(c.names));
    var (_, s2) := s1.GetPointer(W8, size);
    var s3 := s2.Align32();
    var (ok, s4) := s3.CheckGuard();
    Read(names, ok, s4)
  }

  /** Skins k to n - 1 of an old file, each read as a skin mesh. */
  function ReadSkinList(s: ReadState, k: nat, n: nat, version: int, sizes: MeshFactory.ObjectSizes, t: Scratch)
    : (r: Read<seq<MeshFactory.Made>>)
    decreases n - k
  {
    if k >= n then Read([], true, s)
    else
      var m := MeshFactory.ReadAnyMesh(s, SkinMeshType, false, version, t, sizes);
      var rest := ReadSkinList(m.state, k + 1, n, version, sizes, t);
      Read([m.value.0] + rest.value, m.ok && rest.ok, rest.state)
  }

  /** Before version 23: each detail's first skin and skin count skipped,
      a guard, room for the skins, the skins, a guard. The skins are
      appended to the shape's meshes, one by one, when it has any (the
      list is empty while sizing). */
  function ReadSkins(s: ReadState, c: Counts, version: int, sizes: MeshFactory.ObjectSizes, t: Scratch,
                     meshes: seq<MeshFactory.Made>): (r: Read<seq<MeshFactory.Made>>)
    ensures version >= 23 ==> r == Read(meshes, true, s)
  {
    if version >= 23 then Read(meshes, true, s)
    else
      var (_, s1) := s.GetPointer(W32, c.details);
      var (_, s2) := s1.GetPointer(W32, c.details);
      var (ok1, s3) := s2.CheckGuard();
      var (_, s4) := s3.AllocShape(W32, c.skins);
      var l := ReadSkinList(s4, 0, Count(c.skins), version, sizes, t);
      var (ok2, s5) := l.state.CheckGuard();
      Read(if |meshes| > 0 then meshes + l.value else meshes, ok1 && l.ok && ok2, s5)
  }

  // ---------------------------------------------------------------------
  // The whole walk
  // ---------------------------------------------------------------------

  /** The head, bounds, tables and subshapes. */
  function ReadFront(s: ReadState, version: int): (r: Read<(Head, Bounds, Tables, SubShapes)>)
  {
    var h := ReadHead(s, version);
    var b := ReadBounds(h.state);
    var t := ReadTables(b.state, h.value.counts);
    var u := ReadSubShapes(t.state, h.value.counts);
    Read((h.value, b.value, t.value, u.value), h.ok && b.ok && t.ok && u.ok, u.state)
  }

  /** The transforms, scales, ground frames, states and details. */
  function ReadMiddle(s: ReadState, c: Counts, version: int)
    : (r: Read<(Defaults, Option<Scales>, Option<Ground>, States, seq<Detail>)>)
  {
    var d := ReadDefaults(s, c);
    var sc := ReadScales(d.state, c, version);
    var g := ReadGround(sc.state, c, version);
    var st := ReadStates(g.state, c);
    var de := ReadDetails(st.state, c);
    Read((d.value, sc.value, g.value, st.value, de.value), d.ok && sc.ok && g.ok && st.ok && de.ok, de.state)
  }

  /** The meshes, names and old skins. */
  function ReadBack(s: ReadState, c: Counts, version: int, p: Platform, statics: Scratch): (r: Read<(seq<MeshFactory.Made>, seq<string>)>)
  {
    var m := ReadMeshes(s, c, version, p, statics);
    var n := ReadNames(m.state, c);
    var k := ReadSkins(n.state, c, version, p.sizes, m.value.1, m.value.0);
    Read((k.value, n.value), m.ok && n.ok && k.ok, k.state)
  }

  /** `AssembleShape` for a file of the given version, with the static
      scratch tables as they stood when the walk began. */
  function ReadShape(s: ReadState, version: int, p: Platform, statics: Scratch): (r: Read<Assembled>)
  {
    var f := ReadFront(s, version);
    var (head, bounds, tables, subShapes) := f.value;
    var m := ReadMiddle(f.state, head.counts, version);
    var (defaults, scales, ground, states, details) := m.value;
    var b := ReadBack(m.state, head.counts, version, p, statics);
    Read(Assembled(head, bounds, tables, subShapes, defaults, scales, ground, states, details, b.value.0, b.value.1),
         f.ok && m.ok && b.ok, b.state)
  }
}
