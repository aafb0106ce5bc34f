/**
 * ShapeLoad: `TSShape::LoadFromStream` and `TSShape::AssembleShape` as a
 * step of the shape object.
 *
 * A shape file starts with the version word: the version in its low byte,
 * the exporter version in its upper half. Versions 19 to 24 are read. Then
 * comes the packed buffer (its size in 32-bit words, the word offsets at
 * which its 16-bit and 8-bit regions start, and its bytes), the sequences
 * and the material list. The buffer is then walked twice: once to count the
 * bytes of the shape block, once to fill a block of that size (TwoPass).
 */
module ShapeLoad {
  import opened Bytes
  import Bitwise
  import opened ShapeAlloc
  import opened ShapeRecords
  import Stream
  import Sequences
  import MaterialLists
  import ShapeRead
  import TwoPass
  import Shape
  import opened Mesh

  /** `kVersion`: the newest version read, and the one written. */
  const ShapeVersion: int := 24
  /** The oldest version read. */
  const OldestVersion: int := 19
  /** `kMostRecentExporterVersion`. */
  const ExporterVersion: int := 124

  /** The version: the low byte of the version word. */
  function VersionOf(word: int): (v: int)
    ensures 0 <= v < 256
    ensures (word - v) % 256 == 0
  {
    word % 256
  }

  /** The exporter version: the version word shifted right by 16 bits
      (an arithmetic shift of the signed word), stored into the unsigned
      32-bit `exporter_version_`, so a negative shift wraps to 2^32 more. */
  function ExporterOf(word: int): (e: int)
    ensures 0 <= e < 0x1_0000_0000
    ensures InSignedRange(word, 4) ==>
      var s := if word < 0 then e - 0x1_0000_0000 else e;
      s * 0x1_0000 <= word < (s + 1) * 0x1_0000
  {
    (word / 0x1_0000) % 0x1_0000_0000
  }

  /** The versions a load accepts. */
  predicate Accepted(version: int)
  {
    OldestVersion <= version <= ShapeVersion
  }

  /** The version word of an exporter version and a version byte. */
  function VersionWord(version: int, exporter: int): int
  {
    version + exporter * 0x1_0000
  }

  /** A version word splits back into the version byte and the exporter
      version it was made from. */
  lemma VersionWordSplits(version: int, exporter: int)
    requires 0 <= version < 256
    ensures VersionOf(VersionWord(version, exporter)) == version
    ensures ExporterOf(VersionWord(version, exporter)) == exporter % 0x1_0000_0000
  {
    var w := VersionWord(version, exporter);
    assert w == (exporter * 256) * 256 + version;
    DivUnique(w, 256, exporter * 256, version);
    DivUnique(w, 0x1_0000, exporter, version);
  }

  /** A version word whose top half is 0xFFFF is accepted as version 24,
      and its exporter version is 0xFFFFFFFF: the shift of the signed word
      gives -1, which the unsigned field holds as 2^32 - 1. */
  lemma NegativeExporterWraps()
    ensures InSignedRange(VersionWord(ShapeVersion, -1), 4)
    ensures Accepted(VersionOf(VersionWord(ShapeVersion, -1)))
    ensures ExporterOf(VersionWord(ShapeVersion, -1)) == 0xFFFF_FFFF
  {
    VersionWordSplits(ShapeVersion, -1);
  }

  /** Quotient and remainder of a division are the only pair that
      rebuilds the dividend with the remainder in range. */
  lemma DivUnique(w: int, d: int, q: int, r: int)
    requires 0 < d && 0 <= r < d && w == q * d + r
    ensures w / d == q && w % d == r
  {
    var q', r' := w / d, w % d;
    assert w == d * q' + r';
    assert d * (q - q') == r' - r;
    Bitwise.MulSmall(q - q', d);
  }

  /** The word the writer puts first reads back as the current version of
      the current exporter, and is accepted. */
  lemma WrittenVersionAccepted()
    ensures VersionOf(VersionWord(ShapeVersion, ExporterVersion)) == ShapeVersion
    ensures ExporterOf(VersionWord(ShapeVersion, ExporterVersion)) == ExporterVersion
    ensures Accepted(VersionOf(VersionWord(ShapeVersion, ExporterVersion)))
  {
    VersionWordSplits(ShapeVersion, ExporterVersion);
  }

  // ---------------------------------------------------------------------
  // The packed buffer and the sequences
  // ---------------------------------------------------------------------

  /** The packed buffer: its bytes and the byte offsets of its 16-bit and
      8-bit regions. */
  datatype Packed = Packed(data: seq<byte>, start16: nat, start8: nat)

  /** The size in words, the two start words and the buffer's bytes. */
  function TakePacked(r: Stream.Reader): (g: Stream.Got<Packed>)
    requires r.Valid()
    ensures g.rest.Valid()
    ensures var size := Stream.TakeUnsigned(r, 4).value;
      |g.value.data| == 4 * size && g.value.start16 % 4 == 0 && g.value.start8 % 4 == 0
  {
    var size := Stream.TakeUnsigned(r, 4);
    var start16 := Stream.TakeUnsigned(size.rest, 4);
    var start8 := Stream.TakeUnsigned(start16.rest, 4);
    var bytes := Stream.Take(start8.rest, 4 * size.value);
    Stream.Got(bytes.rest, Packed(bytes.value, 4 * start16.value, 4 * start8.value))
  }

  /** What sequence i is read over: the shape's old sequence i when it had
      one (resizing keeps it), a value-initialised one otherwise. */
  function StartOf(prior: seq<Sequences.Sequence>, i: nat): Sequences.Sequence
  {
    if i < |prior| then prior[i] else Sequences.Blank()
  }

  /** Sequences i to n - 1, each read with its name index. */
  function TakeSequences(r: Stream.Reader, prior: seq<Sequences.Sequence>, i: nat, n: nat, version: int)
    : (g: Stream.Got<seq<Sequences.Sequence>>)
    requires r.Valid()
    ensures g.rest.Valid()
    ensures |g.value| == if i <= n then n - i else 0
    decreases n - i
  {
    if i >= n then Stream.Got(r, [])
    else
      var first := Sequences.TakeSequence(r, StartOf(prior, i), version, true);
      var rest := TakeSequences(first.rest, prior, i + 1, n, version);
      Stream.Got(rest.rest, [first.value] + rest.value)
  }

  // ---------------------------------------------------------------------
  // Assembling the shape
  // ---------------------------------------------------------------------

  /** The shape's bounds. */
  function BoundsOf(shape: Shape.TSShape): ShapeRead.Bounds
    reads shape`radius, shape`tubeRadius, shape`center, shape`bounds
  {
    ShapeRead.Bounds(shape.radius, shape.tubeRadius, shape.center, shape.bounds)
  }

  /** The shape's node and object tables. */
  function TablesOf(shape: Shape.TSShape): ShapeRead.Tables
    reads shape`nodes, shape`objects
  {
    ShapeRead.Tables(shape.nodes, shape.objects)
  }

  /** The shape's subshape ranges. */
  function SubShapesOf(shape: Shape.TSShape): ShapeRead.SubShapes
    reads shape`subShapeFirstNode, shape`subShapeFirstObject, shape`subShapeNumNodes, shape`subShapeNumObjects
  {
    ShapeRead.SubShapes(shape.subShapeFirstNode, shape.subShapeFirstObject, shape.subShapeNumNodes, shape.subShapeNumObjects)
  }

  /** The shape's default transforms and node animation frames. */
  function DefaultsOf(shape: Shape.TSShape): ShapeRead.Defaults
    reads shape`defaultRotations, shape`defaultTranslations, shape`nodeTranslations, shape`nodeRotations
  {
    ShapeRead.Defaults(shape.defaultRotations, shape.defaultTranslations, shape.nodeTranslations, shape.nodeRotations)
  }

  /** The shape's scale frames. */
  function ScalesOf(shape: Shape.TSShape): ShapeRead.Scales
    reads shape`nodeUniformScales, shape`nodeAlignedScales, shape`nodeArbitraryScaleFactors, shape`nodeArbitraryScaleRots
  {
    ShapeRead.Scales(shape.nodeUniformScales, shape.nodeAlignedScales, shape.nodeArbitraryScaleFactors, shape.nodeArbitraryScaleRots)
  }

  /** The shape's ground frames. */
  function GroundOf(shape: Shape.TSShape): ShapeRead.Ground
    reads shape`groundTranslations, shape`groundRotations
  {
    ShapeRead.Ground(shape.groundTranslations, shape.groundRotations)
  }

  /** The shape's object states and triggers. */
  function StatesOf(shape: Shape.TSShape): ShapeRead.States
    reads shape`objectStates, shape`triggers
  {
    ShapeRead.States(shape.objectStates, shape.triggers)
  }

  /** The bounds, node and object tables and subshape ranges are a walk's. */
  predicate FrontHeld(shape: Shape.TSShape, a: ShapeRead.Assembled)
    reads shape
  {
    BoundsOf(shape) == a.bounds && TablesOf(shape) == a.tables && SubShapesOf(shape) == a.subShapes
  }

  /** The shape holds what a walk assembled, with the smallest visible
      detail recomputed from the details. Scales and ground frames a version
      does not store are not constrained here. */
  predicate Installed(shape: Shape.TSShape, a: ShapeRead.Assembled)
    reads shape
  {
    FrontHeld(shape, a) && DefaultsOf(shape) == a.defaults &&
    (a.scales.Some? ==> ScalesOf(shape) == a.scales.value) &&
    (a.ground.Some? ==> GroundOf(shape) == a.ground.value) &&
    StatesOf(shape) == a.states && shape.details == a.details && shape.meshes == a.meshes && shape.names == a.names &&
    (shape.smallestVisibleDL, shape.smallestVisibleSize) == SmallestVisible(a.details, |a.details|)
  }

  /** After a walk's result r is stored: the allocator ends where the walk
      did and the shape holds its tables; the scales and ground frames of a
      version without them are as they were. */
  twostate predicate Stored(shape: Shape.TSShape, alloc: ITSShapeAlloc, new r: Read<ShapeRead.Assembled>)
    reads shape, alloc
  {
    alloc.State() == r.state && Installed(shape, r.value) &&
    (r.value.scales.None? ==> ScalesOf(shape) == old(ScalesOf(shape))) &&
    (r.value.ground.None? ==> GroundOf(shape) == old(GroundOf(shape)))
  }

  /** The scale and ground frames, when the version stores them. */
  method StoreFrames(shape: Shape.TSShape, scales: Option<ShapeRead.Scales>, ground: Option<ShapeRead.Ground>)
    modifies shape`nodeUniformScales, shape`nodeAlignedScales, shape`nodeArbitraryScaleFactors, shape`nodeArbitraryScaleRots
    modifies shape`groundTranslations, shape`groundRotations
    ensures ScalesOf(shape) == if scales.Some? then scales.value else old(ScalesOf(shape))
    ensures GroundOf(shape) == if ground.Some? then ground.value else old(GroundOf(shape))
  {
    if scales.Some? {
      var sc := scales.value;
      shape.nodeUniformScales, shape.nodeAlignedScales := sc.uniform, sc.aligned;
      shape.nodeArbitraryScaleFactors, shape.nodeArbitraryScaleRots := sc.arbitraryFactors, sc.arbitraryRots;
    }
    if ground.Some? {
      shape.groundTranslations, shape.groundRotations := ground.value.translations, ground.value.rotations;
    }
  }

  /** The smallest visible detail as the header gives it, the bounds, the
      node and object tables, the subshape ranges, the default transforms
      and node animation frames. */
  method StoreFront(shape: Shape.TSShape, a: ShapeRead.Assembled)
    modifies shape`smallestVisibleSize, shape`smallestVisibleDL
    modifies shape`radius, shape`tubeRadius, shape`center, shape`bounds, shape`nodes, shape`objects
    modifies shape`subShapeFirstNode, shape`subShapeFirstObject, shape`subShapeNumNodes, shape`subShapeNumObjects
    modifies shape`defaultRotations, shape`defaultTranslations, shape`nodeTranslations, shape`nodeRotations
    ensures FrontHeld(shape, a) && DefaultsOf(shape) == a.defaults
  {
    shape.smallestVisibleSize, shape.smallestVisibleDL := a.head.smallestVisibleSize, a.head.smallestVisibleDL;
    shape.radius, shape.tubeRadius, shape.center, shape.bounds := a.bounds.radius, a.bounds.tubeRadius, a.bounds.center, a.bounds.box;
    shape.nodes, shape.objects := a.tables.nodes, a.tables.objects;
    shape.subShapeFirstNode, shape.subShapeFirstObject := a.subShapes.firstNode, a.subShapes.firstObject;
    shape.subShapeNumNodes, shape.subShapeNumObjects := a.subShapes.numNodes, a.subShapes.numObjects;
    shape.defaultRotations, shape.defaultTranslations := a.defaults.rotations, a.defaults.translations;
    shape.nodeTranslations, shape.nodeRotations := a.defaults.nodeTranslations, a.defaults.nodeRotations;
  }

  /** The object states, triggers, details, meshes and names, then
      `UpdateSmallestVisibleDL`. */
  method StoreLists(shape: Shape.TSShape, a: ShapeRead.Assembled)
    modifies shape`objectStates, shape`triggers, shape`details, shape`meshes, shape`names
    modifies shape`smallestVisibleSize, shape`smallestVisibleDL
    requires FrontHeld(shape, a) && DefaultsOf(shape) == a.defaults
    ensures FrontHeld(shape, a) && DefaultsOf(shape) == a.defaults
    ensures StatesOf(shape) == a.states && shape.details == a.details && shape.meshes == a.meshes && shape.names == a.names
    ensures (shape.smallestVisibleDL, shape.smallestVisibleSize) == SmallestVisible(a.details, |a.details|)
  {
    shape.objectStates, shape.triggers := a.states.objectStates, a.states.triggers;
    shape.details, shape.meshes, shape.names := a.details, a.meshes, a.names;
    shape.UpdateSmallestVisibleDL();
  }

  /** The shape takes what a walk assembled. */
  method StoreShape(shape: Shape.TSShape, a: ShapeRead.Assembled)
    modifies shape`radius, shape`tubeRadius, shape`center, shape`bounds, shape`nodes, shape`objects
    modifies shape`subShapeFirstNode, shape`subShapeFirstObject, shape`subShapeNumNodes, shape`subShapeNumObjects
    modifies shape`defaultRotations, shape`defaultTranslations, shape`nodeTranslations, shape`nodeRotations
    modifies shape`nodeUniformScales, shape`nodeAlignedScales, shape`nodeArbitraryScaleFactors, shape`nodeArbitraryScaleRots
    modifies shape`groundTranslations, shape`groundRotations
    modifies shape`objectStates, shape`triggers, shape`details, shape`meshes, shape`names
    modifies shape`smallestVisibleSize, shape`smallestVisibleDL
    ensures Installed(shape, a)
    ensures ScalesOf(shape) == if a.scales.Some? then a.scales.value else old(ScalesOf(shape))
    ensures GroundOf(shape) == if a.ground.Some? then a.ground.value else old(GroundOf(shape))
  {
    ghost var scales, ground := ScalesOf(shape), GroundOf(shape);
    StoreFront(shape, a);
    StoreLists(shape, a);
    assert ScalesOf(shape) == scales && GroundOf(shape) == ground;
    StoreFrames(shape, a.scales, a.ground);
  }

  /** The shape and the allocator take a walk's result. */
  method Store(shape: Shape.TSShape, alloc: ITSShapeAlloc, r: Read<ShapeRead.Assembled>)
    modifies shape`radius, shape`tubeRadius, shape`center, shape`bounds, shape`nodes, shape`objects
    modifies shape`subShapeFirstNode, shape`subShapeFirstObject, shape`subShapeNumNodes, shape`subShapeNumObjects
    modifies shape`defaultRotations, shape`defaultTranslations, shape`nodeTranslations, shape`nodeRotations
    modifies shape`nodeUniformScales, shape`nodeAlignedScales, shape`nodeArbitraryScaleFactors, shape`nodeArbitraryScaleRots
    modifies shape`groundTranslations, shape`groundRotations
    modifies shape`objectStates, shape`triggers, shape`details, shape`meshes, shape`names
    modifies shape`smallestVisibleSize, shape`smallestVisibleDL, alloc
    ensures Stored(shape, alloc, r)
  {
    StoreShape(shape, r.value);
    alloc.Assign(r.state);
  }

  /** A walk over the allocator's buffers: from a version and the
      allocator's state, what it assembles and where it leaves the
      allocator. */
  type Walk = (int, ReadState) -> Read<ShapeRead.Assembled>

  /** The walk `AssembleShape` makes on a platform, with the static mesh
      scratch tables as an earlier load left them: `ShapeRead.ReadShape`.
      Both walks of a load start from the same tables: the copying walk
      resets what the sizing walk wrote (`ShapeRead.StaticsCarryOver`). */
  function WalkOf(p: ShapeRead.Platform, statics: Scratch): (w: Walk)
    ensures forall version, s :: w(version, s) == ShapeRead.ReadShape(s, version, p, statics)
  {
    (version, s) => ShapeRead.ReadShape(s, version, p, statics)
  }

  /** `TSShape::AssembleShape`: one walk over the allocator's buffers (for a
      platform p, the walk `WalkOf(p, statics)`), stored in the shape and the
      allocator. */
  method AssembleShape(shape: Shape.TSShape, alloc: ITSShapeAlloc, version: int, walk: Walk)
    returns (r: Read<ShapeRead.Assembled>)
    modifies shape`radius, shape`tubeRadius, shape`center, shape`bounds, shape`nodes, shape`objects
    modifies shape`subShapeFirstNode, shape`subShapeFirstObject, shape`subShapeNumNodes, shape`subShapeNumObjects
    modifies shape`defaultRotations, shape`defaultTranslations, shape`nodeTranslations, shape`nodeRotations
    modifies shape`nodeUniformScales, shape`nodeAlignedScales, shape`nodeArbitraryScaleFactors, shape`nodeArbitraryScaleRots
    modifies shape`groundTranslations, shape`groundRotations
    modifies shape`objectStates, shape`triggers, shape`details, shape`meshes, shape`names
    modifies shape`smallestVisibleSize, shape`smallestVisibleDL, alloc
    ensures r == walk(version, old(alloc.State()))
    ensures Stored(shape, alloc, r)
  {
    r := walk(version, alloc.State());
    Store(shape, alloc, r);
  }

  /** `shape_data_size_`: a size as an unsigned 32-bit value. */
  function AsUnsigned32(size: int): (u: nat)
    ensures u < 0x1_0000_0000 && (u - size) % 0x1_0000_0000 == 0
  {
    size % 0x1_0000_0000
  }

  /** The sizing walk: the cursors at the packed buffer's regions, no
      block, size_ from 0; the byte count it ends with is kept as
      `shape_data_size_`. */
  method SizingPass(shape: Shape.TSShape, alloc: ITSShapeAlloc, pk: Packed, version: int, walk: Walk)
    returns (first: Read<ShapeRead.Assembled>)
    modifies shape`radius, shape`tubeRadius, shape`center, shape`bounds, shape`nodes, shape`objects
    modifies shape`subShapeFirstNode, shape`subShapeFirstObject, shape`subShapeNumNodes, shape`subShapeNumObjects
    modifies shape`defaultRotations, shape`defaultTranslations, shape`nodeTranslations, shape`nodeRotations
    modifies shape`nodeUniformScales, shape`nodeAlignedScales, shape`nodeArbitraryScaleFactors, shape`nodeArbitraryScaleRots
    modifies shape`groundTranslations, shape`groundRotations
    modifies shape`objectStates, shape`triggers, shape`details, shape`meshes, shape`names
    modifies shape`smallestVisibleSize, shape`smallestVisibleDL, alloc
    modifies shape`shapeDataSize
    ensures first == walk(version, old(alloc.State()).SetRead(pk.data, pk.start16, pk.start8, true))
    ensures alloc.State() == first.state && shape.shapeDataSize == AsUnsigned32(first.state.c.size)
  {
    alloc.SetRead(pk.data, pk.start16, pk.start8, true);
    first := AssembleShape(shape, alloc, version, walk);
    shape.shapeDataSize := AsUnsigned32(alloc.size);
  }

  /** The copying walk: a block of the size counted so far, the cursors
      back at the packed buffer's regions; the shape keeps the block. */
  method CopyingPass(shape: Shape.TSShape, alloc: ITSShapeAlloc, pk: Packed, version: int, walk: Walk)
    returns (second: Read<ShapeRead.Assembled>)
    modifies shape`radius, shape`tubeRadius, shape`center, shape`bounds, shape`nodes, shape`objects
    modifies shape`subShapeFirstNode, shape`subShapeFirstObject, shape`subShapeNumNodes, shape`subShapeNumObjects
    modifies shape`defaultRotations, shape`defaultTranslations, shape`nodeTranslations, shape`nodeRotations
    modifies shape`nodeUniformScales, shape`nodeAlignedScales, shape`nodeArbitraryScaleFactors, shape`nodeArbitraryScaleRots
    modifies shape`groundTranslations, shape`groundRotations
    modifies shape`objectStates, shape`triggers, shape`details, shape`meshes, shape`names
    modifies shape`smallestVisibleSize, shape`smallestVisibleDL, alloc
    modifies shape`shapeData
    ensures second == walk(version, old(alloc.State()).DoAlloc().SetRead(pk.data, pk.start16, pk.start8, false))
    ensures alloc.State() == second.state && Installed(shape, second.value) && shape.shapeData == second.state.shape
  {
    alloc.DoAlloc();
    alloc.SetRead(pk.data, pk.start16, pk.start8, false);
    second := AssembleShape(shape, alloc, version, walk);
    shape.shapeData := alloc.shape;
  }

  /** The two walks of a load over the packed buffer: a sizing walk with no
      block, then, into a block of the size it counted, a copying walk.
      The shape keeps the copying walk's tables and block. */
  method AssembleTwice(shape: Shape.TSShape, alloc: ITSShapeAlloc, pk: Packed, version: int, walk: Walk)
    returns (first: Read<ShapeRead.Assembled>, second: Read<ShapeRead.Assembled>)
    modifies shape`radius, shape`tubeRadius, shape`center, shape`bounds, shape`nodes, shape`objects
    modifies shape`subShapeFirstNode, shape`subShapeFirstObject, shape`subShapeNumNodes, shape`subShapeNumObjects
    modifies shape`defaultRotations, shape`defaultTranslations, shape`nodeTranslations, shape`nodeRotations
    modifies shape`nodeUniformScales, shape`nodeAlignedScales, shape`nodeArbitraryScaleFactors, shape`nodeArbitraryScaleRots
    modifies shape`groundTranslations, shape`groundRotations
    modifies shape`objectStates, shape`triggers, shape`details, shape`meshes, shape`names
    modifies shape`smallestVisibleSize, shape`smallestVisibleDL, alloc
    modifies shape`shapeDataSize, shape`shapeData
    ensures first == walk(version, old(alloc.State()).SetRead(pk.data, pk.start16, pk.start8, true))
    ensures second == walk(version, first.state.DoAlloc().SetRead(pk.data, pk.start16, pk.start8, false))
    ensures alloc.State() == second.state && Installed(shape, second.value) && shape.shapeData == second.state.shape
    ensures shape.shapeDataSize == AsUnsigned32(first.state.c.size)
    ensures shape.sequences == old(shape.sequences) && shape.materialList == old(shape.materialList)
  {
    first := SizingPass(shape, alloc, pk, version, walk);
    second := CopyingPass(shape, alloc, pk, version, walk);
  }

  /** For the shape walk, the two walks of a load stay in step, so the
      copying walk ends having filled its block exactly: its size_ equals
      the size the sizing walk counted (what the source asserts), and the
      block has that many bytes. */
  lemma LoadWalksAgree(s0: ReadState, pk: Packed, version: int, p: ShapeRead.Platform, statics: Scratch,
                       first: Read<ShapeRead.Assembled>, second: Read<ShapeRead.Assembled>)
    requires first == WalkOf(p, statics)(version, s0.SetRead(pk.data, pk.start16, pk.start8, true))
    requires second == WalkOf(p, statics)(version, first.state.DoAlloc().SetRead(pk.data, pk.start16, pk.start8, false))
    ensures second.state.c.size == first.state.c.size
    ensures |second.state.shape| == (if first.state.c.size < 0 then 0 else first.state.c.size)
    ensures TwoPass.Paired(first.state, second.state, |second.state.shape|)
  {
    TwoPass.LoadPassesAgree(s0, pk.data, pk.start16, pk.start8, version, p, statics);
  }

  // ---------------------------------------------------------------------
  // Loading
  // ---------------------------------------------------------------------

  /** The version word: the exporter version is kept; the version is the
      shape's read version when it is accepted. */
  method LoadVersion(shape: Shape.TSShape, input: Stream.IStream) returns (version: int, accepted: bool)
    requires input.Valid()
    modifies shape`exporterVersion, shape`readVersion, input
    ensures input.Valid()
    ensures var w := Stream.TakeSigned(old(input.State()), 4);
      input.State() == w.rest && version == VersionOf(w.value) && shape.exporterVersion == ExporterOf(w.value)
    ensures accepted == Accepted(version)
    ensures shape.readVersion == if accepted then version else old(shape.readVersion)
  {
    var _, word := input.ReadSigned(4);
    shape.exporterVersion := ExporterOf(word);
    version := VersionOf(word);
    accepted := Accepted(version);
    if accepted {
      shape.readVersion := version;
    }
  }

  /** The packed buffer's size, start words and bytes. */
  method LoadPacked(input: Stream.IStream) returns (pk: Packed)
    requires input.Valid()
    modifies input
    ensures input.Valid() && Stream.Got(input.State(), pk) == TakePacked(old(input.State()))
  {
    var _, size := input.ReadUnsigned(4);
    var _, start16 := input.ReadUnsigned(4);
    var _, start8 := input.ReadUnsigned(4);
    var _, bytes := input.Read(4 * size);
    pk := Packed(bytes, 4 * start16, 4 * start8);
  }

  /** The sequence count, then that many sequences, each read over the
      shape's sequence at its index (a value-initialised one past the old
      end). A negative count makes resizing the list fail: nothing more is
      read and the load fails. */
  method LoadSequences(shape: Shape.TSShape, input: Stream.IStream, version: int) returns (ok: bool)
    requires input.Valid()
    modifies shape`sequences, input
    ensures input.Valid()
    ensures var n := Stream.TakeSigned(old(input.State()), 4);
      if n.value < 0 then !ok && input.State() == n.rest && shape.sequences == old(shape.sequences)
      else
        var g := TakeSequences(n.rest, old(shape.sequences), 0, n.value, version);
        ok && input.State() == g.rest && shape.sequences == g.value
  {
    ghost var start := input.State();
    var _, n := input.ReadSigned(4);
    if n < 0 {
      return false;
    }
    var loaded := ReadSequenceList(input, shape.sequences, n, version);
    shape.sequences := loaded;
    ok := true;
  }

  /** The loop over the n sequences, each read over prior's sequence at
      its index. */
  method ReadSequenceList(input: Stream.IStream, prior: seq<Sequences.Sequence>, n: nat, version: int)
    returns (loaded: seq<Sequences.Sequence>)
    requires input.Valid()
    modifies input
    ensures input.Valid()
    ensures var g := TakeSequences(old(input.State()), prior, 0, n, version);
      input.State() == g.rest && loaded == g.value
  {
    ghost var all := TakeSequences(input.State(), prior, 0, n, version);
    ghost var left := all;
    loaded := [];
    var i := 0;
    while i < n
      invariant 0 <= i <= n && input.Valid()
      invariant left == TakeSequences(input.State(), prior, i, n, version)
      invariant left.rest == all.rest && loaded + left.value == all.value
    {
      loaded, left := ReadNextSequence(input, prior, i, n, version, loaded, left);
      i := i + 1;
    }
  }

  /** One pass of the sequence loop: sequence i is read and appended, and
      what is left to read shrinks by it. */
  method ReadNextSequence(input: Stream.IStream, prior: seq<Sequences.Sequence>, i: nat, n: nat, version: int,
                          loaded: seq<Sequences.Sequence>, ghost left: Stream.Got<seq<Sequences.Sequence>>)
    returns (loaded': seq<Sequences.Sequence>, ghost left': Stream.Got<seq<Sequences.Sequence>>)
    requires input.Valid() && i < n
    requires left == TakeSequences(input.State(), prior, i, n, version)
    modifies input
    ensures input.Valid()
    ensures left' == TakeSequences(input.State(), prior, i + 1, n, version)
    ensures left'.rest == left.rest && loaded' + left'.value == loaded + left.value
  {
    ghost var here := input.State();
    var sq, _ := Sequences.LoadFromStream(input, StartOf(prior, i), version, true);
    SequencesStep(here, prior, i, n, version);
    left' := TakeSequences(input.State(), prior, i + 1, n, version);
    Regroup(loaded, sq, left'.value, loaded + left.value);
    loaded' := loaded + [sq];
  }

  /** Moving one element from the front of the part still to read to the
      end of the part already read keeps the whole. */
  lemma Regroup<T>(done: seq<T>, x: T, rest: seq<T>, whole: seq<T>)
    requires done + ([x] + rest) == whole
    ensures (done + [x]) + rest == whole
  {
    assert (done + [x]) + rest == done + ([x] + rest);
  }

  /** Reading sequences i to n - 1 is reading sequence i, then the rest. */
  lemma SequencesStep(r: Stream.Reader, prior: seq<Sequences.Sequence>, i: nat, n: nat, version: int)
    requires r.Valid() && i < n
    ensures var one := Sequences.TakeSequence(r, StartOf(prior, i), version, true);
      var rest := TakeSequences(one.rest, prior, i + 1, n, version);
      TakeSequences(r, prior, i, n, version) == Stream.Got(rest.rest, [one.value] + rest.value)
  {
  }

  /** The names and attributes a material list read from r holds, and the
      stream after it. */
  predicate MaterialsRead(r: Stream.Reader, version: int, names: seq<string>, attrs: MaterialLists.Attributes,
                          after: Stream.Reader)
    requires r.Valid()
  {
    var g := MaterialLists.TakeNameList(r);
    names == g.value.names &&
    if !g.value.ok then after == g.rest && attrs.Sized(0)
    else
      var a := MaterialLists.TakeAttributes(g.rest, |names|, version);
      after == a.rest && attrs == a.value
  }

  /** A new material list, loaded; its result is not looked at. */
  method LoadMaterials(shape: Shape.TSShape, input: Stream.IStream, version: int)
    requires input.Valid()
    modifies shape`materialList, input
    ensures input.Valid() && shape.materialList != null && fresh(shape.materialList)
    ensures MaterialsRead(old(input.State()), version, shape.materialList.names, shape.materialList.Attrs(), input.State())
  {
    var list := new MaterialLists.TSMaterialList();
    var _ := list.LoadFromStream(input, version);
    shape.materialList := list;
  }

  /** What an accepted load of a version leaves, after the version word,
      with r the stream after it, alloc0 the allocator's state and prior the
      shape's sequences before the load: the packed buffer, the sequences
      (or, for a negative count, a failed load), the material list, the
      two walks over the buffer (see `LoadWalksAgree` for the shape walk)
      with the shape holding the copying walk's tables and block, and the
      result is whether the stream after is good. */
  predicate Loaded(shape: Shape.TSShape, alloc: ITSShapeAlloc, alloc0: ReadState, r: Stream.Reader,
                   prior: seq<Sequences.Sequence>, version: int, walk: Walk, ok: bool,
                   first: Read<ShapeRead.Assembled>, second: Read<ShapeRead.Assembled>, after: Stream.Reader)
    requires r.Valid()
    reads shape, alloc, if shape.materialList != null then {shape.materialList} else {}
  {
    match TakePacked(r)
    case Got(rest, pk) =>
      if Stream.TakeSigned(rest, 4).value < 0 then
        PartsRead(r, prior, version, pk, false, shape.sequences, [], NoAttributes, after) && !ok
      else
        shape.materialList != null &&
        PartsRead(r, prior, version, pk, true, shape.sequences, shape.materialList.names, shape.materialList.Attrs(), after) &&
        AssembledTwice(shape, alloc, alloc0, pk, version, walk, first, second) && ok == after.good
  }

  /** The attributes of a material list that was never read. */
  const NoAttributes := MaterialLists.Attributes([], [], [], [], [], [])

  /** The stream part of a load read from r, with prior the shape's
      sequences before it: the packed buffer pk, then the sequence count,
      which is negative exactly when counted is false (the load then stops
      after it, with the sequences as they were), else the sequences and a
      material list with the given names and attributes. */
  predicate PartsRead(r: Stream.Reader, prior: seq<Sequences.Sequence>, version: int, pk: Packed, counted: bool,
                      sequences: seq<Sequences.Sequence>, names: seq<string>, attrs: MaterialLists.Attributes,
                      after: Stream.Reader)
    requires r.Valid()
  {
    var p := TakePacked(r);
    var n := Stream.TakeSigned(p.rest, 4);
    pk == p.value && counted == (n.value >= 0) &&
    if !counted then after == n.rest && sequences == prior
    else
      var sq := TakeSequences(n.rest, prior, 0, n.value, version);
      sequences == sq.value && MaterialsRead(sq.rest, version, names, attrs, after)
  }

  /** The two walks over pk from the allocator state alloc0, with the shape
      and the allocator holding what the copying walk left. */
  predicate AssembledTwice(shape: Shape.TSShape, alloc: ITSShapeAlloc, alloc0: ReadState, pk: Packed, version: int,
                           walk: Walk, first: Read<ShapeRead.Assembled>, second: Read<ShapeRead.Assembled>)
    reads shape, alloc
  {
    first == walk(version, alloc0.SetRead(pk.data, pk.start16, pk.start8, true)) &&
    second == walk(version, first.state.DoAlloc().SetRead(pk.data, pk.start16, pk.start8, false)) &&
    alloc.State() == second.state && Installed(shape, second.value) && shape.shapeData == second.state.shape &&
    shape.shapeDataSize == AsUnsigned32(first.state.c.size)
  }

  /** The packed buffer, the sequences and the material list. */
  method LoadParts(shape: Shape.TSShape, input: Stream.IStream, version: int) returns (pk: Packed, counted: bool)
    requires input.Valid()
    modifies shape`sequences, shape`materialList, input
    ensures input.Valid()
    ensures counted ==> shape.materialList != null && fresh(shape.materialList)
    ensures if counted then
        PartsRead(old(input.State()), old(shape.sequences), version, pk, true, shape.sequences,
                  shape.materialList.names, shape.materialList.Attrs(), input.State())
      else PartsRead(old(input.State()), old(shape.sequences), version, pk, false, shape.sequences, [], NoAttributes, input.State())
  {
    pk := LoadPacked(input);
    counted := LoadSequences(shape, input, version);
    if counted {
      LoadMaterials(shape, input, version);
    }
  }

  /** The two walks of a load whose sequence count was not negative; the
      result is whether the stream is still good. */
  method LoadCounted(shape: Shape.TSShape, input: Stream.IStream, alloc: ITSShapeAlloc, pk: Packed, version: int, walk: Walk)
    returns (ok: bool, ghost first: Read<ShapeRead.Assembled>, ghost second: Read<ShapeRead.Assembled>)
    modifies shape`radius, shape`tubeRadius, shape`center, shape`bounds, shape`nodes, shape`objects
    modifies shape`subShapeFirstNode, shape`subShapeFirstObject, shape`subShapeNumNodes, shape`subShapeNumObjects
    modifies shape`defaultRotations, shape`defaultTranslations, shape`nodeTranslations, shape`nodeRotations
    modifies shape`nodeUniformScales, shape`nodeAlignedScales, shape`nodeArbitraryScaleFactors, shape`nodeArbitraryScaleRots
    modifies shape`groundTranslations, shape`groundRotations
    modifies shape`objectStates, shape`triggers, shape`details, shape`meshes, shape`names
    modifies shape`smallestVisibleSize, shape`smallestVisibleDL, alloc
    modifies shape`shapeDataSize, shape`shapeData
    ensures AssembledTwice(shape, alloc, old(alloc.State()), pk, version, walk, first, second)
    ensures shape.sequences == old(shape.sequences) && shape.materialList == old(shape.materialList)
    ensures ok == input.good
  {
    first, second := AssembleTwice(shape, alloc, pk, version, walk);
    ok := input.good;
  }

  /** An accepted load after its version word: the packed buffer, the
      sequences, the material list and the two walks. */
  method LoadBody(shape: Shape.TSShape, input: Stream.IStream, alloc: ITSShapeAlloc, version: int, walk: Walk)
    returns (ok: bool, ghost first: Read<ShapeRead.Assembled>, ghost second: Read<ShapeRead.Assembled>)
    requires input.Valid()
    modifies shape`radius, shape`tubeRadius, shape`center, shape`bounds, shape`nodes, shape`objects
    modifies shape`subShapeFirstNode, shape`subShapeFirstObject, shape`subShapeNumNodes, shape`subShapeNumObjects
    modifies shape`defaultRotations, shape`defaultTranslations, shape`nodeTranslations, shape`nodeRotations
    modifies shape`nodeUniformScales, shape`nodeAlignedScales, shape`nodeArbitraryScaleFactors, shape`nodeArbitraryScaleRots
    modifies shape`groundTranslations, shape`groundRotations
    modifies shape`objectStates, shape`triggers, shape`details, shape`meshes, shape`names
    modifies shape`smallestVisibleSize, shape`smallestVisibleDL, alloc
    modifies shape`shapeDataSize, shape`shapeData, shape`sequences, shape`materialList, input
    ensures input.Valid()
    ensures Loaded(shape, alloc, old(alloc.State()), old(input.State()), old(shape.sequences), version, walk, ok, first, second, input.State())
  {
    ghost var alloc0 := alloc.State();
    first := walk(version, alloc0);
    second := first;
    var pk, counted := LoadParts(shape, input, version);
    if !counted {
      return false, first, second;
    }
    ok, first, second := LoadCounted(shape, input, alloc, pk, version, walk);
  }

  /** `TSShape::LoadFromStream` with the given walk (for a platform p,
      `WalkOf(p, statics)`). The version word first: a version outside 19 to 24 ends
      the load, failed, with only the exporter version kept. Then the packed
      buffer, the sequences and the material list, the two walks over the
      buffer, and the result is whether the stream is still good. */
  method LoadFromStream(shape: Shape.TSShape, input: Stream.IStream, alloc: ITSShapeAlloc, walk: Walk)
    returns (ok: bool, ghost first: Read<ShapeRead.Assembled>, ghost second: Read<ShapeRead.Assembled>)
    requires input.Valid()
    modifies shape, input, alloc
    ensures input.Valid()
    ensures var w := Stream.TakeSigned(old(input.State()), 4);
      shape.exporterVersion == ExporterOf(w.value) &&
      if !Accepted(VersionOf(w.value)) then
        !ok && input.State() == w.rest && shape.readVersion == old(shape.readVersion)
      else
        shape.readVersion == VersionOf(w.value) && Loaded(shape, alloc, old(alloc.State()), w.rest, old(shape.sequences), VersionOf(w.value), walk, ok, first, second, input.State())
  {
    var version, accepted := LoadVersion(shape, input);
    if !accepted {
      first := walk(version, alloc.State());
      return false, first, first;
    }
    ok, first, second := LoadBody(shape, input, alloc, version, walk);
  }
}
