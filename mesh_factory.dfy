/**
 * MeshFactory: `TSMesh::AssembleMesh`, which makes the mesh object a type
 * code names and reads it from the packed buffer. While the shape block is
 * only being sized (no block yet, or the mesh is to be skipped) the object is
 * a temporary outside the block, but its room is reserved all the same; when
 * the block exists it is placed at the current shape address. The kind's own
 * reader runs with skip mode set as asked, and skip mode is off afterwards.
 *
 * The object sizes (`sizeof(TSMesh) >> 2` and so on) depend on the platform
 * and are parameters.
 */
module MeshFactory {
  import opened Bytes
  import opened ShapeAlloc
  import opened Mesh
  import SortedMesh
  import Decal
  import Bitwise

  /** `sizeof` of each mesh class, in 32-bit words. */
  datatype ObjectSizes = ObjectSizes(standard: nat, skin: nat, decal: nat, sorted: nat)

  /** The object a type code makes: a mesh of one of the three mesh kinds, a
      decal, or nothing for an unknown code. */
  datatype Made = NoMesh | MeshObject(mesh: Mesh) | DecalObject(decal: Decal.DecalMesh)

  /** Where the object lives: nowhere (no object), a temporary outside the
      shape block, or a byte offset in the shape block. */
  datatype Home = Nowhere | Temporary | InShape(offset: int)

  /** The size of the object a type code makes; None for a code that names
      none of the four classes. */
  function ObjectWords(sizes: ObjectSizes, typeCode: int): (r: Option<nat>)
    ensures r.Some? <==> 0 <= typeCode <= SortedMeshType
    ensures typeCode == DecalMeshType ==> r == Some(sizes.decal)
  {
    if typeCode == StandardMeshType then Some(sizes.standard)
    else if typeCode == SkinMeshType then Some(sizes.skin)
    else if typeCode == DecalMeshType then Some(sizes.decal)
    else if typeCode == SortedMeshType then Some(sizes.sorted)
    else None
  }

  /** The kind's own reader: a decal, or a base mesh followed by the
      section of its kind. */
  function ReadKind(s: ReadState, typeCode: int, version: int, skip: bool, t: Scratch): (r: Read<Made>)
    ensures !(0 <= typeCode <= SortedMeshType) ==> r == Read(NoMesh, true, s)
  {
    if typeCode == DecalMeshType then
      var d := Decal.ReadDecal(s, version);
      Read(DecalObject(d.value), d.ok, d.state)
    else if typeCode == StandardMeshType || typeCode == SkinMeshType || typeCode == SortedMeshType then
      var m := ReadMeshKind(s, typeCode, version, skip, t);
      Read(MeshObject(m.value), m.ok, m.state)
    else
      Read(NoMesh, true, s)
  }

  /** The base mesh, then the section its kind adds. */
  function ReadMeshKind(s: ReadState, typeCode: Bitwise.Word, version: int, skip: bool, t: Scratch): Read<Mesh>
  {
    SectionAfter(ReadMesh(s, version, skip, t, typeCode), typeCode, version, skip, t)
  }

  /** The section a mesh kind adds after the base mesh (none for a standard
      mesh); a sorted mesh's is read as the loader as written reads it. */
  function SectionAfter(base: Read<Mesh>, typeCode: Bitwise.Word, version: int, skip: bool, t: Scratch): Read<Mesh>
  {
    if typeCode == SkinMeshType then SkinAfter(base, version, skip, t)
    else if typeCode == SortedMeshType then SortedMesh.SortedAfterAsWritten(base)
    else base
  }

  /** The object's home and the state the kind's reader starts from: the
      probe `AllocShape(0)` (null while only sizing), the reservation of the
      object, and skip mode as asked. */
  function Place(s: ReadState, typeCode: int, skip: bool, sizes: ObjectSizes): (r: (Home, ReadState))
    ensures r.0.Nowhere? <==> !(0 <= typeCode <= SortedMeshType)
    ensures r.1.c.pos == s.c.pos && r.1.input == s.input && r.1.c.mult == (if skip then 0 else 1)
  {
    var (probe, s0) := s.AllocShape(W32, 0);
    var justSize := skip || probe.Null?;
    match ObjectWords(sizes, typeCode)
    case None => (Nowhere, s0.SkipMode(skip))
    case Some(words) =>
      var (p, s1) := s0.AllocShape(W32, words);
      (if justSize || !p.ShapeAt? then Temporary else InShape(p.offset), s1.SkipMode(skip))
  }

  /** `TSMesh::AssembleMesh(mesh_type, skip)` with the current read version
      and the scratch tables. */
  function ReadAnyMesh(s: ReadState, typeCode: int, skip: bool, version: int, t: Scratch, sizes: ObjectSizes): (r: Read<(Made, Home)>)
    ensures r.value.1.Nowhere? <==> !(0 <= typeCode <= SortedMeshType)
    ensures !(0 <= typeCode <= SortedMeshType) ==> r.value.0 == NoMesh && r.ok
    ensures r.state.c.mult == 1
  {
    var (home, start) := Place(s, typeCode, skip, sizes);
    var r := ReadKind(start, typeCode, version, skip, t);
    Read((r.value, home), r.ok, r.state.SkipMode(false))
  }

  method AssembleMesh(alloc: ITSShapeAlloc, typeCode: int, skip: bool, version: int, t: Scratch, sizes: ObjectSizes)
    returns (made: Made, home: Home, ok: bool)
    modifies alloc
    ensures Read((made, home), ok, alloc.State()) == ReadAnyMesh(old(alloc.State()), typeCode, skip, version, t, sizes)
  {
    home := PlaceObject(alloc, typeCode, skip, sizes);
    made, ok := AssembleKind(alloc, typeCode, version, skip, t);
    alloc.SetSkipMode(false);
  }

  method PlaceObject(alloc: ITSShapeAlloc, typeCode: int, skip: bool, sizes: ObjectSizes) returns (home: Home)
    modifies alloc
    ensures (home, alloc.State()) == Place(old(alloc.State()), typeCode, skip, sizes)
  {
    var probe := alloc.AllocShape(W32, 0);
    var justSize := skip || probe.Null?;
    var words := ObjectWords(sizes, typeCode);
    home := Nowhere;
    if words.Some? {
      var p := alloc.AllocShape(W32, words.value);
      home := if justSize || !p.ShapeAt? then Temporary else InShape(p.offset);
    }
    alloc.SetSkipMode(skip);
  }

  method AssembleKind(alloc: ITSShapeAlloc, typeCode: int, version: int, skip: bool, t: Scratch) returns (made: Made, ok: bool)
    modifies alloc
    ensures Read(made, ok, alloc.State()) == ReadKind(old(alloc.State()), typeCode, version, skip, t)
  {
    made, ok := NoMesh, true;
    ghost var s := alloc.State();
    if typeCode == DecalMeshType {
      var d, ok1 := Decal.AssembleDecal(alloc, version);
      made, ok := DecalObject(d), ok1;
      DecalKind(s, typeCode, version, skip, t);
    } else if typeCode == StandardMeshType || typeCode == SkinMeshType || typeCode == SortedMeshType {
      var m, ok1 := AssembleMeshKind(alloc, typeCode, version, skip, t);
      made, ok := MeshObject(m), ok1;
      MeshKind(s, typeCode, version, skip, t);
    }
  }

  /** `mesh->Assemble(skip)`: the virtual call reaches the base reader and
      then the kind's own section. */
  method AssembleMeshKind(alloc: ITSShapeAlloc, typeCode: Bitwise.Word, version: int, skip: bool, t: Scratch) returns (m: Mesh, ok: bool)
    modifies alloc
    ensures Read(m, ok, alloc.State()) == ReadMeshKind(old(alloc.State()), typeCode, version, skip, t)
  {
    m, ok := Assemble(alloc, version, skip, t, typeCode);
    m, ok := AssembleSection(alloc, m, ok, typeCode, version, skip, t);
  }

  method AssembleSection(alloc: ITSShapeAlloc, base: Mesh, ok0: bool, typeCode: Bitwise.Word, version: int, skip: bool, t: Scratch)
    returns (m: Mesh, ok: bool)
    modifies alloc
    ensures Read(m, ok, alloc.State()) == SectionAfter(Read(base, ok0, old(alloc.State())), typeCode, version, skip, t)
  {
    m, ok := base, ok0;
    if typeCode == SkinMeshType {
      m, ok := AssembleSkinAfter(alloc, base, ok0, version, skip, t);
    } else if typeCode == SortedMeshType {
      m, ok := SortedMesh.AssembleSortedAfterAsWritten(alloc, base, ok0);
    }
  }

  lemma DecalKind(s: ReadState, typeCode: int, version: int, skip: bool, t: Scratch)
    requires typeCode == DecalMeshType
    ensures var d := Decal.ReadDecal(s, version);
      ReadKind(s, typeCode, version, skip, t) == Read(DecalObject(d.value), d.ok, d.state)
  {
  }

  lemma MeshKind(s: ReadState, typeCode: int, version: int, skip: bool, t: Scratch)
    requires typeCode == StandardMeshType || typeCode == SkinMeshType || typeCode == SortedMeshType
    ensures var m := ReadMeshKind(s, typeCode, version, skip, t);
      ReadKind(s, typeCode, version, skip, t) == Read(MeshObject(m.value), m.ok, m.state)
  {
  }

  /** A known code makes an object of its kind; an unknown one makes
      nothing and reads nothing. */
  lemma KindMade(s: ReadState, typeCode: int, version: int, skip: bool, t: Scratch)
    ensures var r := ReadKind(s, typeCode, version, skip, t);
      (r.value.DecalObject? <==> typeCode == DecalMeshType) &&
      (r.value.MeshObject? <==> typeCode == StandardMeshType || typeCode == SkinMeshType || typeCode == SortedMeshType)
    ensures !(0 <= typeCode <= SortedMeshType) ==> ReadKind(s, typeCode, version, skip, t) == Read(NoMesh, true, s)
  {
    if typeCode == DecalMeshType {
      DecalKind(s, typeCode, version, skip, t);
    } else if typeCode == StandardMeshType || typeCode == SkinMeshType || typeCode == SortedMeshType {
      MeshKind(s, typeCode, version, skip, t);
    }
  }

  /** Where the object goes. With the shape block there and the mesh not
      skipped, it sits at the current shape address; otherwise it is a
      temporary, though its room is reserved in the block all the same. The
      kind's reader starts past that room, in skip mode as asked. An unknown
      code places nothing and reserves nothing. */
  lemma Placement(s: ReadState, typeCode: int, skip: bool, sizes: ObjectSizes)
    requires s.c.mult == 1
    ensures var (home, start) := Place(s, typeCode, skip, sizes);
      start.input == s.input && start.shape == s.shape && start.c.pos == s.c.pos &&
      start.c.guard == s.c.guard && start.c.mult == (if skip then 0 else 1) &&
      (s.dest.Some? <==> start.dest.Some?) &&
      match ObjectWords(sizes, typeCode)
      case None =>
        home == Nowhere && start.c.size == s.c.size && start.dest == s.dest
      case Some(k) =>
        home == (if !skip && s.dest.Some? then InShape(s.dest.value) else Temporary) &&
        start.c.size == s.c.size + 4 * k &&
        (s.dest.Some? ==> start.dest.value == s.dest.value + 4 * k)
  {
    var (probe, s0) := s.AllocShape(W32, 0);
    assert s0.c == s.c.Reserve(W32, 0);
    assert s0 == s;
  }

  /** The factory leaves skip mode off, whatever it made. */
  lemma SkipModeOff(s: ReadState, typeCode: int, skip: bool, version: int, t: Scratch, sizes: ObjectSizes)
    ensures ReadAnyMesh(s, typeCode, skip, version, t, sizes).state.c.mult == 1
  {
  }

  /** A decal is read, as `TSShape::Assemble` reads it, in skip mode: its
      object's room is the only thing it reserves, nothing reaches the shape
      block, and skip mode is off afterwards. */
  lemma SkippedDecal(s: ReadState, version: int, t: Scratch, sizes: ObjectSizes)
    requires s.c.mult == 1
    ensures var r := ReadAnyMesh(s, DecalMeshType, true, version, t, sizes);
      r.value.1 == Temporary && r.state.shape == s.shape && r.state.input == s.input &&
      r.state.c.size == s.c.size + 4 * sizes.decal && r.state.c.mult == 1 &&
      (s.dest.Some? <==> r.state.dest.Some?) &&
      (s.dest.Some? ==> r.state.dest.value == s.dest.value + 4 * sizes.decal)
  {
    Placement(s, DecalMeshType, true, sizes);
    var (home, start) := Place(s, DecalMeshType, true, sizes);
    Decal.DecalCopiesNothing(start, version);
  }
}
