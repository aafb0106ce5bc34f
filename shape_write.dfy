/**
 * ShapeWrite: `TSShape::DisassembleShape` and `TSShape::WriteToStream`.
 *
 * Disassembling appends the shape to the three output buffers of the
 * writing allocator in the order the loader reads it back: the counts, the
 * bounds, the tables, the transforms and frames, the object states,
 * triggers and details, every mesh slot with its type code, and the names,
 * with a guard after each section. Writing puts the version word, the sizes
 * of the three buffers in 32-bit words, the buffers themselves, the
 * sequences and the material list on the stream.
 *
 * The shape is written from a little-endian host, so the buffers' memory
 * images are their little-endian encodings (the byte swap of `FixEndian`
 * is not part of this model).
 */
module ShapeWrite {
  import opened Bytes
  import opened ShapeAlloc
  import opened ShapeRecords
  import Float32
  import Bitwise
  import Stream
  import Normals
  import Mesh
  import MeshFactory
  import SortedMesh
  import Decal
  import Sequences
  import MaterialLists
  import ShapeRead
  import ShapeLoad
  import Shape

  // ---------------------------------------------------------------------
  // Which mesh slots hold meshes
  // ---------------------------------------------------------------------

  /** Mesh slot k lies in the mesh range of one of the first n objects. */
  predicate InObjectRange(objects: seq<Object>, n: nat, k: int)
    requires n <= |objects|
  {
    exists i :: 0 <= i < n && objects[i].startMeshIndex <= k < objects[i].startMeshIndex + objects[i].numMeshes
  }

  /** Every object's mesh range lies inside the mesh table. */
  predicate RangesInside(objects: seq<Object>, numMeshes: nat)
  {
    forall i :: 0 <= i < |objects| && objects[i].numMeshes > 0 ==>
      0 <= objects[i].startMeshIndex && objects[i].startMeshIndex + objects[i].numMeshes <= numMeshes
  }

  /** A slot is in the range of one of the first n + 1 objects when it is in
      the range of one of the first n or in the range of object n. */
  lemma InObjectRangeStep(objects: seq<Object>, n: nat, k: int)
    requires n < |objects|
    ensures InObjectRange(objects, n + 1, k) <==>
      InObjectRange(objects, n, k) || objects[n].startMeshIndex <= k < objects[n].startMeshIndex + objects[n].numMeshes
  {
    if InObjectRange(objects, n + 1, k) && !InObjectRange(objects, n, k) {
      var i :| 0 <= i < n + 1 && objects[i].startMeshIndex <= k < objects[i].startMeshIndex + objects[i].numMeshes;
      assert i == n;
    }
  }

  /** The `is_mesh` marks: slot k is marked exactly when it lies in some
      object's mesh range, whether or not it holds a mesh. */
  method MarkMeshes(objects: seq<Object>, numMeshes: nat) returns (isMesh: array<bool>)
    requires RangesInside(objects, numMeshes)
    ensures fresh(isMesh) && isMesh.Length == numMeshes
    ensures forall k :: 0 <= k < numMeshes ==> (isMesh[k] <==> InObjectRange(objects, |objects|, k))
  {
    isMesh := new bool[numMeshes];
    var i := 0;
    while i < numMeshes
      invariant 0 <= i <= numMeshes
      invariant forall k :: 0 <= k < i ==> !isMesh[k]
    {
      isMesh[i] := false;
      i := i + 1;
    }
    i := 0;
    while i < |objects|
      invariant 0 <= i <= |objects|
      invariant forall k :: 0 <= k < numMeshes ==> (isMesh[k] <==> InObjectRange(objects, i, k))
    {
      MarkObject(objects[i], isMesh);
      forall k | 0 <= k < numMeshes
        ensures isMesh[k] <==> InObjectRange(objects, i + 1, k)
      {
        InObjectRangeStep(objects, i, k);
      }
      i := i + 1;
    }
  }

  /** The inner loop: every slot of one object's range marked. */
  method MarkObject(obj: Object, isMesh: array<bool>)
    requires obj.numMeshes > 0 ==> 0 <= obj.startMeshIndex && obj.startMeshIndex + obj.numMeshes <= isMesh.Length
    modifies isMesh
    ensures forall k :: 0 <= k < isMesh.Length ==>
      (isMesh[k] <==> old(isMesh[k]) || obj.startMeshIndex <= k < obj.startMeshIndex + obj.numMeshes)
  {
    var j := 0;
    while j < obj.numMeshes
      invariant 0 <= j && (if obj.numMeshes > 0 then j <= obj.numMeshes else j == 0)
      invariant forall k :: 0 <= k < isMesh.Length ==>
        (isMesh[k] <==> old(isMesh[k]) || obj.startMeshIndex <= k < obj.startMeshIndex + j)
    {
      isMesh[obj.startMeshIndex + j] := true;
      j := j + 1;
    }
  }

  /** The type code written for a mesh slot: the mesh's own code when the
      slot is marked and holds a mesh whose code is not the decal code; the
      null code otherwise. */
  function SlotType(made: MeshFactory.Made, marked: bool): (t: nat)
  {
    if marked && made.MeshObject? && Mesh.GetMeshType(made.mesh.meshType) != Mesh.DecalMeshType
    then Mesh.GetMeshType(made.mesh.meshType)
    else Mesh.NullMeshType
  }

  /** A slot code is below 8 and never the decal code. */
  lemma SlotTypeBelow(made: MeshFactory.Made, marked: bool)
    ensures SlotType(made, marked) < 8 && SlotType(made, marked) != Mesh.DecalMeshType
  {
    if made.MeshObject? {
      Mesh.AndBelow(made.mesh.meshType, Mesh.TypeMask, 3);
    }
  }

  /** A slot code is one of the eight type codes and never the decal code,
      so the loader never makes a decal out of a slot; an unmarked or empty
      slot, or one holding a decal, reads back as no mesh and consumes
      nothing. */
  lemma SlotReadBack(made: MeshFactory.Made, marked: bool, s: ReadState, version: int, skip: bool, t: Mesh.Scratch)
    ensures !MeshFactory.ReadKind(s, SlotType(made, marked), version, skip, t).value.DecalObject?
    ensures !marked || !made.MeshObject? ==>
      MeshFactory.ReadKind(s, SlotType(made, marked), version, skip, t) == Mesh.Read(MeshFactory.NoMesh, true, s)
  {
    SlotTypeBelow(made, marked);
    MeshFactory.KindMade(s, SlotType(made, marked), version, skip, t);
  }

  // ---------------------------------------------------------------------
  // The output buffers, section by section
  // ---------------------------------------------------------------------

  /** The three output buffers and their guard counters. */
  datatype Out = Out(buffer: PerWidth<seq<int>>, guard: PerWidth<int>)

  /** The writing allocator's buffers and counters. */
  function Now(out: OTSShapeAlloc): Out
    reads out
  {
    Out(out.buffer, out.guard)
  }

  /** Entries of width w appended. */
  function Emit(o: Out, w: Width, es: seq<int>): Out
  {
    o.(buffer := Appended(o.buffer, Only(w, es)))
  }

  /** `SetGuard`: each counter appended to its buffer, then incremented. */
  function Guard(o: Out): Out
  {
    Out(Appended(o.buffer, GuardEntries(o.guard)), NextGuards(o.guard))
  }

  /** The run `CopyToBuffer(Vector::Address(v), count)` appends: count
      entries of v, zeros past its end (an empty vector's address is null,
      which appends zeros). */
  function Run(v: seq<int>, count: nat): seq<int>
  {
    Copied(Some(v), count)
  }

  /** A run of exactly the entries there are is those entries. */
  lemma RunAll(v: seq<int>)
    ensures Run(v, |v|) == v
  {
  }

  /** What `DisassembleShape` reads of the shape. */
  datatype Parts = Parts(
    bounds: ShapeRead.Bounds, tables: ShapeRead.Tables, subShapes: ShapeRead.SubShapes,
    defaults: ShapeRead.Defaults, scales: ShapeRead.Scales, ground: ShapeRead.Ground,
    states: ShapeRead.States, details: seq<Detail>, meshes: seq<MeshFactory.Made>, names: seq<string>,
    smallestVisibleSize: Float32.Bits, smallestVisibleDL: int)

  function PartsOf(shape: Shape.TSShape): Parts
    reads shape
  {
    Parts(ShapeLoad.BoundsOf(shape), ShapeLoad.TablesOf(shape), ShapeLoad.SubShapesOf(shape),
          ShapeLoad.DefaultsOf(shape), ShapeLoad.ScalesOf(shape), ShapeLoad.GroundOf(shape),
          ShapeLoad.StatesOf(shape), shape.details, shape.meshes, shape.names,
          shape.smallestVisibleSize, shape.smallestVisibleDL)
  }

  /** Every count the writer stores as an `int32_t`, and every element
      count it derives from one, fits; so does the smallest visible detail. */
  predicate Fits(p: Parts)
  {
    var n := 0x8000_0000;
    |p.tables.nodes| * NodeSize < n && |p.tables.objects| * ObjectSize < n &&
    |p.subShapes.firstNode| < n &&
    |p.defaults.nodeRotations| * Quat16Size < n && |p.defaults.nodeTranslations| * Point3Size < n &&
    |p.scales.uniform| < n && |p.scales.aligned| * Point3Size < n && |p.scales.arbitraryFactors| * Quat16Size < n &&
    |p.ground.translations| * Quat16Size < n && |p.states.objectStates| * ObjectStateSize < n &&
    |p.states.triggers| * TriggerSize < n && |p.details| * DetailSize < n &&
    |p.meshes| < n && |p.names| < n && InSignedRange(p.smallestVisibleDL, 4)
  }

  /** The counts at the head, in the loader's order for the current
      version: the deprecated decal, IFL material and decal state counts
      are 0, and the smallest visible size is truncated to an integer. */
  function HeadWords(p: Parts): (ws: seq<int>)
    ensures |ws| == 19
  {
    [|p.tables.nodes|, |p.tables.objects|, 0, |p.subShapes.firstNode|, 0,
     |p.defaults.nodeRotations|, |p.defaults.nodeTranslations|,
     |p.scales.uniform|, |p.scales.aligned|, |p.scales.arbitraryFactors|,
     |p.ground.translations|, |p.states.objectStates|, 0, |p.states.triggers|,
     |p.details|, |p.meshes|, |p.names|,
     Float32.TruncToInt(p.smallestVisibleSize), p.smallestVisibleDL]
  }

  function HeadOut(p: Parts, o: Out): Out
  {
    Guard(Emit(o, W32, HeadWords(p)))
  }

  /** The radius, tube radius, center and box, copied as bits. */
  function BoundsOut(b: ShapeRead.Bounds, o: Out): Out
  {
    var o1 := Emit(o, W32, Run([WordOf(b.radius)], 1));
    var o2 := Emit(o1, W32, Run([WordOf(b.tubeRadius)], 1));
    var o3 := Emit(o2, W32, Run(Point3Words(b.center), 3));
    Guard(Emit(o3, W32, Run(b.box, 6)))
  }

  /** The nodes, a guard, the objects, a guard. */
  function TablesOut(t: ShapeRead.Tables, o: Out): Out
  {
    var o1 := Guard(Emit(o, W32, Run(NodesWords(t.nodes), |t.nodes| * NodeSize)));
    Guard(Emit(o1, W32, Run(ObjectsWords(t.objects), |t.objects| * ObjectSize)))
  }

  /** No decals and no IFL materials, each closed by a guard; then each
      subshape's first node, first object and (zero) first decal, a guard;
      each subshape's node, object and (zero) decal count, a guard. There
      are as many subshapes as first-node entries. */
  function SubShapesOut(ss: ShapeRead.SubShapes, o: Out): Out
  {
    var n := |ss.firstNode|;
    var o1 := Guard(Guard(o));
    var o2 := Emit(Emit(Emit(o1, W32, Run(ss.firstNode, n)), W32, Run(ss.firstObject, n)), W32, Copied(None, n));
    var o3 := Emit(Emit(Emit(Guard(o2), W32, Run(ss.numNodes, n)), W32, Run(ss.numObjects, n)), W32, Copied(None, n));
    Guard(o3)
  }

  /** The default rotations (16-bit) and translations, one per node; the
      animated node rotations (16-bit) and translations; a guard. */
  function TransformsOut(d: ShapeRead.Defaults, numNodes: nat, o: Out): Out
  {
    var o1 := Emit(o, W16, Run(Quats16Halves(d.rotations), numNodes * Quat16Size));
    var o2 := Emit(o1, W32, Run(Points3Words(d.translations), numNodes * Point3Size));
    var o3 := Emit(o2, W16, Run(Quats16Halves(d.nodeRotations), |d.nodeRotations| * Quat16Size));
    Guard(Emit(o3, W32, Run(Points3Words(d.nodeTranslations), |d.nodeTranslations| * Point3Size)))
  }

  /** The float words of a list of floats. */
  function FloatWords(fs: seq<Float32.Bits>): (ws: seq<int>)
    ensures |ws| == |fs|
  {
    seq(|fs|, i requires 0 <= i < |fs| => WordOf(fs[i]))
  }

  /** The uniform, aligned and arbitrary scale factors, the arbitrary scale
      rotations (16-bit, one per arbitrary factor), a guard. */
  function ScalesOut(sc: ShapeRead.Scales, o: Out): Out
  {
    var o1 := Emit(o, W32, Run(FloatWords(sc.uniform), |sc.uniform|));
    var o2 := Emit(o1, W32, Run(Points3Words(sc.aligned), |sc.aligned| * Point3Size));
    var o3 := Emit(o2, W32, Run(Points3Words(sc.arbitraryFactors), |sc.arbitraryFactors| * Point3Size));
    Guard(Emit(o3, W16, Run(Quats16Halves(sc.arbitraryRots), |sc.arbitraryFactors| * Quat16Size)))
  }

  /** The ground translations, the ground rotations (16-bit, one per
      translation), a guard. */
  function GroundOut(g: ShapeRead.Ground, o: Out): Out
  {
    var o1 := Emit(o, W32, Run(Points3Words(g.translations), |g.translations| * Point3Size));
    Guard(Emit(o1, W16, Run(Quats16Halves(g.rotations), |g.translations| * Quat16Size)))
  }

  /** The object states, a guard, no decal states, a guard, the triggers, a
      guard, the details, a guard. */
  function StatesOut(st: ShapeRead.States, details: seq<Detail>, o: Out): Out
  {
    var o1 := Guard(Guard(Emit(o, W32, Run(ObjectStatesWords(st.objectStates), |st.objectStates| * ObjectStateSize))));
    var o2 := Guard(Emit(o1, W32, Run(TriggersWords(st.triggers), |st.triggers| * TriggerSize)));
    Guard(Emit(o2, W32, Run(DetailsWords(details), |details| * DetailSize)))
  }

  /** What a mesh's own `Disassemble` appends, by its class. */
  function MeshOut(m: Mesh.Mesh, o: Out, dot: (seq<int>, Normals.Normal) -> real): Out
  {
    match m.extra
    case Standard => Out(Appended(o.buffer, Mesh.MeshEntries(m, o.guard, dot)), NextGuards(NextGuards(o.guard)))
    case Skin(_) => Out(Appended(o.buffer, Mesh.SkinEntries(m, o.guard, dot)), NextGuards(NextGuards(NextGuards(o.guard))))
    case Sorted(_) => Out(Appended(o.buffer, SortedMesh.SortedEntries(m, o.guard, dot)), NextGuards(NextGuards(NextGuards(o.guard))))
  }

  /** A slot: its type code, then, when it is marked and not null, what its
      object's `Disassemble` appends (a decal object's too, under the null
      code). */
  function SlotOut(made: MeshFactory.Made, marked: bool, o: Out, dot: (seq<int>, Normals.Normal) -> real): Out
  {
    var o1 := Emit(o, W32, [SlotType(made, marked)]);
    if !marked then o1
    else
      match made
      case NoMesh => o1
      case MeshObject(m) => MeshOut(m, o1, dot)
      case DecalObject(d) => Out(Appended(o1.buffer, Decal.DecalEntries(d, o1.guard)), NextGuards(o1.guard))
  }

  /** The first k slots. */
  function SlotsOut(meshes: seq<MeshFactory.Made>, marks: seq<bool>, k: nat, o: Out, dot: (seq<int>, Normals.Normal) -> real): Out
    requires k <= |meshes| && k <= |marks|
  {
    if k == 0 then o else SlotOut(meshes[k - 1], marks[k - 1], SlotsOut(meshes, marks, k - 1, o, dot), dot)
  }

  /** The `is_mesh` marks of n slots. */
  function Marks(objects: seq<Object>, n: nat): (ms: seq<bool>)
    ensures |ms| == n
  {
    seq(n, k requires 0 <= k < n => InObjectRange(objects, |objects|, k))
  }

  /** Every slot, then a guard. */
  function MeshesOut(objects: seq<Object>, meshes: seq<MeshFactory.Made>, o: Out, dot: (seq<int>, Normals.Normal) -> real): Out
  {
    Guard(SlotsOut(meshes, Marks(objects, |meshes|), |meshes|, o, dot))
  }

  /** An 8-bit entry: a byte as a signed `int8_t`. */
  function Int8Of(b: byte): (v: int)
    ensures InSignedRange(v, 1)
  {
    if b < 0x80 then b else b - 0x100
  }

  /** A name's characters and its terminating NUL. */
  function NameEntries(name: string): (es: seq<int>)
    ensures |es| == |name| + 1
  {
    seq(|name|, i requires 0 <= i < |name| => Int8Of(Stream.ByteOf(name[i]))) + [0]
  }

  /** The first k names. */
  function NamesOut(names: seq<string>, k: nat, o: Out): Out
    requires k <= |names|
  {
    if k == 0 then o else Emit(NamesOut(names, k - 1, o), W8, NameEntries(names[k - 1]))
  }

  /** The head, bounds, tables and subshapes. */
  function FrontOut(p: Parts, o: Out): Out
  {
    SubShapesOut(p.subShapes, TablesOut(p.tables, BoundsOut(p.bounds, HeadOut(p, o))))
  }

  /** The transforms, scales and ground frames. */
  function FramesOut(p: Parts, o: Out): Out
  {
    GroundOut(p.ground, ScalesOut(p.scales, TransformsOut(p.defaults, |p.tables.nodes|, o)))
  }

  /** Everything `DisassembleShape` appends, section after section. */
  function Disassembled(p: Parts, o: Out, dot: (seq<int>, Normals.Normal) -> real): Out
  {
    var meshes := MeshesOut(p.tables.objects, p.meshes, StatesOut(p.states, p.details, FramesOut(p, FrontOut(p, o))), dot);
    Guard(NamesOut(p.names, |p.names|, meshes))
  }

  // ---------------------------------------------------------------------
  // The writer, section by section
  // ---------------------------------------------------------------------

  /** `OMemBuffer32::Set` of the k-th of the words ws, a value that fits:
      it is appended as is. */
  method SetWord(out: OTSShapeAlloc, ghost o0: Out, ghost ws: seq<int>, k: nat, v: int)
    requires out.Valid() && GuardsFit(out.guard)
    requires k < |ws| && v == ws[k] && InSignedRange(v, 4)
    requires Now(out) == Emit(o0, W32, ws[..k])
    modifies out
    ensures out.Valid() && GuardsFit(out.guard)
    ensures Now(out) == Emit(o0, W32, ws[..k + 1])
  {
    var r := out.Set(W32, v);
    WrapProperties(v, 4);
    AppendedTwice(o0.buffer, W32, ws[..k], [v]);
    assert ws[..k + 1] == ws[..k] + [v];
  }

  /** Every head word of a shape that fits is an `int32_t` value. */
  lemma HeadFits(p: Parts)
    requires Fits(p)
    ensures forall w <- HeadWords(p) :: InSignedRange(w, 4)
  {
  }

  /** The nineteen `Set` calls of the head, in order, then a guard. */
  method PutHead(out: OTSShapeAlloc, p: Parts)
    requires out.Valid() && GuardsFit(out.guard) && Fits(p)
    modifies out
    ensures out.Valid() && GuardsFit(out.guard)
    ensures Now(out) == HeadOut(p, old(Now(out)))
  {
    ghost var o0 := Now(out);
    AppendedNothing(o0.buffer, W32);
    var ws := HeadWords(p);
    HeadFits(p);
    assert ws[..0] == [];
    for k := 0 to |ws|
      invariant out.Valid() && GuardsFit(out.guard)
      invariant Now(out) == Emit(o0, W32, ws[..k])
    {
      SetWord(out, o0, ws, k, ws[k]);
    }
    assert ws[..|ws|] == ws;
    out.SetGuard();
  }

  method PutBounds(out: OTSShapeAlloc, b: ShapeRead.Bounds)
    requires out.Valid() && GuardsFit(out.guard)
    modifies out
    ensures out.Valid() && GuardsFit(out.guard)
    ensures Now(out) == BoundsOut(b, old(Now(out)))
  {
    out.CopyToBuffer(W32, Some([WordOf(b.radius)]), 1);
    out.CopyToBuffer(W32, Some([WordOf(b.tubeRadius)]), 1);
    out.CopyToBuffer(W32, Some(Point3Words(b.center)), 3);
    out.CopyToBuffer(W32, Some(b.box), 6);
    out.SetGuard();
  }

  method PutTables(out: OTSShapeAlloc, t: ShapeRead.Tables)
    requires out.Valid() && GuardsFit(out.guard)
    modifies out
    ensures out.Valid() && GuardsFit(out.guard)
    ensures Now(out) == TablesOut(t, old(Now(out)))
  {
    out.CopyToBuffer(W32, Some(NodesWords(t.nodes)), |t.nodes| * NodeSize);
    out.SetGuard();
    out.CopyToBuffer(W32, Some(ObjectsWords(t.objects)), |t.objects| * ObjectSize);
    out.SetGuard();
  }

  method PutSubShapes(out: OTSShapeAlloc, ss: ShapeRead.SubShapes)
    requires out.Valid() && GuardsFit(out.guard)
    modifies out
    ensures out.Valid() && GuardsFit(out.guard)
    ensures Now(out) == SubShapesOut(ss, old(Now(out)))
  {
    var n := |ss.firstNode|;
    out.SetGuard();
    ghost var b := out.buffer;
    out.CopyToBuffer(W32, None, 0);
    AppendedNothing(b, W32);
    out.SetGuard();
    out.CopyToBuffer(W32, Some(ss.firstNode), n);
    out.CopyToBuffer(W32, Some(ss.firstObject), n);
    out.CopyToBuffer(W32, None, n);
    out.SetGuard();
    out.CopyToBuffer(W32, Some(ss.numNodes), n);
    out.CopyToBuffer(W32, Some(ss.numObjects), n);
    out.CopyToBuffer(W32, None, n);
    out.SetGuard();
  }

  method PutTransforms(out: OTSShapeAlloc, d: ShapeRead.Defaults, numNodes: nat)
    requires out.Valid() && GuardsFit(out.guard)
    modifies out
    ensures out.Valid() && GuardsFit(out.guard)
    ensures Now(out) == TransformsOut(d, numNodes, old(Now(out)))
  {
    out.CopyToBuffer(W16, Some(Quats16Halves(d.rotations)), numNodes * Quat16Size);
    out.CopyToBuffer(W32, Some(Points3Words(d.translations)), numNodes * Point3Size);
    out.CopyToBuffer(W16, Some(Quats16Halves(d.nodeRotations)), |d.nodeRotations| * Quat16Size);
    out.CopyToBuffer(W32, Some(Points3Words(d.nodeTranslations)), |d.nodeTranslations| * Point3Size);
    out.SetGuard();
  }

  method PutScales(out: OTSShapeAlloc, sc: ShapeRead.Scales)
    requires out.Valid() && GuardsFit(out.guard)
    modifies out
    ensures out.Valid() && GuardsFit(out.guard)
    ensures Now(out) == ScalesOut(sc, old(Now(out)))
  {
    out.CopyToBuffer(W32, Some(FloatWords(sc.uniform)), |sc.uniform|);
    out.CopyToBuffer(W32, Some(Points3Words(sc.aligned)), |sc.aligned| * Point3Size);
    out.CopyToBuffer(W32, Some(Points3Words(sc.arbitraryFactors)), |sc.arbitraryFactors| * Point3Size);
    out.CopyToBuffer(W16, Some(Quats16Halves(sc.arbitraryRots)), |sc.arbitraryFactors| * Quat16Size);
    out.SetGuard();
  }

  method PutGround(out: OTSShapeAlloc, g: ShapeRead.Ground)
    requires out.Valid() && GuardsFit(out.guard)
    modifies out
    ensures out.Valid() && GuardsFit(out.guard)
    ensures Now(out) == GroundOut(g, old(Now(out)))
  {
    out.CopyToBuffer(W32, Some(Points3Words(g.translations)), |g.translations| * Point3Size);
    out.CopyToBuffer(W16, Some(Quats16Halves(g.rotations)), |g.translations| * Quat16Size);
    out.SetGuard();
  }

  method PutStates(out: OTSShapeAlloc, st: ShapeRead.States, details: seq<Detail>)
    requires out.Valid() && GuardsFit(out.guard)
    modifies out
    ensures out.Valid() && GuardsFit(out.guard)
    ensures Now(out) == StatesOut(st, details, old(Now(out)))
  {
    out.CopyToBuffer(W32, Some(ObjectStatesWords(st.objectStates)), |st.objectStates| * ObjectStateSize);
    out.SetGuard();
    out.SetGuard();
    out.CopyToBuffer(W32, Some(TriggersWords(st.triggers)), |st.triggers| * TriggerSize);
    out.SetGuard();
    out.CopyToBuffer(W32, Some(DetailsWords(details)), |details| * DetailSize);
    out.SetGuard();
  }

  /** The virtual `Disassemble` of a mesh, by its class. */
  method PutMesh(out: OTSShapeAlloc, m: Mesh.Mesh, dot: (seq<int>, Normals.Normal) -> real)
    requires out.Valid() && GuardsFit(out.guard)
    modifies out
    ensures out.Valid() && GuardsFit(out.guard)
    ensures Now(out) == MeshOut(m, old(Now(out)), dot)
  {
    match m.extra
    case Standard => Mesh.Disassemble(out, m, dot);
    case Skin(_) => Mesh.DisassembleSkin(out, m, dot);
    case Sorted(_) => SortedMesh.DisassembleSorted(out, m, dot);
  }

  /** One slot of the mesh loop. */
  method PutSlot(out: OTSShapeAlloc, made: MeshFactory.Made, marked: bool, dot: (seq<int>, Normals.Normal) -> real)
    requires out.Valid() && GuardsFit(out.guard)
    modifies out
    ensures out.Valid() && GuardsFit(out.guard)
    ensures Now(out) == SlotOut(made, marked, old(Now(out)), dot)
  {
    SlotTypeBelow(made, marked);
    var code := out.Set(W32, SlotType(made, marked));
    WrapProperties(SlotType(made, marked), 4);
    if marked {
      match made
      case NoMesh =>
      case MeshObject(m) => PutMesh(out, m, dot);
      case DecalObject(d) => Decal.DisassembleDecal(out, d);
    }
  }

  method PutMeshes(out: OTSShapeAlloc, objects: seq<Object>, meshes: seq<MeshFactory.Made>, dot: (seq<int>, Normals.Normal) -> real)
    requires out.Valid() && GuardsFit(out.guard) && RangesInside(objects, |meshes|)
    modifies out
    ensures out.Valid() && GuardsFit(out.guard)
    ensures Now(out) == MeshesOut(objects, meshes, old(Now(out)), dot)
  {
    var isMesh := MarkMeshes(objects, |meshes|);
    ghost var marks := Marks(objects, |meshes|);
    assert isMesh[..] == marks;
    ghost var o0 := Now(out);
    var i := 0;
    while i < |meshes|
      invariant 0 <= i <= |meshes|
      invariant out.Valid() && GuardsFit(out.guard)
      invariant isMesh[..] == marks
      invariant Now(out) == SlotsOut(meshes, marks, i, o0, dot)
    {
      PutSlot(out, meshes[i], isMesh[i], dot);
      i := i + 1;
    }
    out.SetGuard();
  }

  method PutNames(out: OTSShapeAlloc, names: seq<string>)
    requires out.Valid() && GuardsFit(out.guard)
    modifies out
    ensures out.Valid() && GuardsFit(out.guard)
    ensures Now(out) == NamesOut(names, |names|, old(Now(out)))
  {
    ghost var o0 := Now(out);
    for i := 0 to |names|
      invariant out.Valid() && GuardsFit(out.guard)
      invariant Now(out) == NamesOut(names, i, o0)
    {
      var entries := NameEntries(names[i]);
      out.CopyToBuffer(W8, Some(entries), |names[i]| + 1);
      RunAll(entries);
    }
  }

  /** `TSShape::DisassembleShape`: the shape into the writing allocator's
      buffers, section after section. */
  method DisassembleShape(out: OTSShapeAlloc, shape: Shape.TSShape, dot: (seq<int>, Normals.Normal) -> real)
    requires out.Valid() && GuardsFit(out.guard)
    requires Fits(PartsOf(shape)) && RangesInside(shape.objects, |shape.meshes|)
    modifies out
    ensures out.Valid() && GuardsFit(out.guard)
    ensures Now(out) == Disassembled(old(PartsOf(shape)), old(Now(out)), dot)
  {
    var p := PartsOf(shape);
    PutHead(out, p);
    PutBounds(out, p.bounds);
    PutTables(out, p.tables);
    PutSubShapes(out, p.subShapes);
    PutTransforms(out, p.defaults, |p.tables.nodes|);
    PutScales(out, p.scales);
    PutGround(out, p.ground);
    PutStates(out, p.states, p.details);
    PutMeshes(out, p.tables.objects, p.meshes, dot);
    PutNames(out, p.names);
    out.SetGuard();
  }
}
