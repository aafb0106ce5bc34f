/**
 * ShapeConstruct: adding a collision detail to a shape. The source geometry
 * is gathered by a `MeshFit`; when there is some and the collision type is
 * known, the fitted meshes are named after their kind and index and
 * attached to a collision node named after the detail size. The names are
 * chosen so that the mesh-name parser splits each mesh name back into its
 * object name and the detail size.
 *
 * The fits are foreign code over floats: the meshes they produce come in as
 * a parameter. Adding a mesh to the shape (`TSShape::AddMesh`) is not part
 * of this model, so the shape edits are returned as a list.
 */
module ShapeConstruct {
  import opened Bytes
  import opened ShapeRecords
  import Strings
  import Shape
  import ShapeEdit
  import MeshFit
  import Mesh
  import MeshFactory

  /** `CollisionDetailType`. */
  datatype CollisionType = BoxType | SphereType | CapsuleType | Dop10XType | Dop10YType | Dop10ZType | Dop18Type | Dop26Type

  /** The enumerator values 0 to 7; any other value is unknown. */
  function TypeOf(code: int): (r: Option<CollisionType>)
    ensures r.Some? <==> 0 <= code < 8
  {
    if code == 0 then Some(BoxType)
    else if code == 1 then Some(SphereType)
    else if code == 2 then Some(CapsuleType)
    else if code == 3 then Some(Dop10XType)
    else if code == 4 then Some(Dop10YType)
    else if code == 5 then Some(Dop10ZType)
    else if code == 6 then Some(Dop18Type)
    else if code == 7 then Some(Dop26Type)
    else None
  }

  /** The planes a k-DOP type fits with; none for the primitive fits. */
  function DopOf(t: CollisionType): Option<MeshFit.DopKind>
  {
    match t
    case Dop10XType => Some(MeshFit.Dop10X)
    case Dop10YType => Some(MeshFit.Dop10Y)
    case Dop10ZType => Some(MeshFit.Dop10Z)
    case Dop18Type => Some(MeshFit.Dop18)
    case Dop26Type => Some(MeshFit.Dop26)
    case _ => None
  }

  /** Each code 0 to 7 names a different type, and the codes 3 to 7 are the
      k-DOPs with 10, 10, 10, 18 and 26 planes. */
  lemma TypeCodes(c: int, d: int)
    requires TypeOf(c).Some? && TypeOf(d).Some? && TypeOf(c) == TypeOf(d)
    ensures c == d
    ensures DopOf(TypeOf(c).value).Some? <==> 3 <= c
    ensures DopOf(TypeOf(c).value).Some? ==>
      MeshFit.K(DopOf(TypeOf(c).value).value) == (if c < 6 then 10 else if c == 6 then 18 else 26)
  {
  }

  // ---------------------------------------------------------------------
  // Names
  // ---------------------------------------------------------------------

  /** The collision node of a detail size: "Col" and the size. */
  function ColNodeName(size: int): string
  {
    "Col" + Strings.ToString(size)
  }

  /** The object-name prefix of each kind of fitted mesh. */
  function Prefix(kind: MeshFit.FitKind): (p: string)
    ensures |p| >= 6 && p[..3] == "Col"
  {
    match kind
    case Box => "ColBox"
    case Sphere => "ColSphere"
    case Capsule => "ColCapsule"
    case Hull => "ColConvex"
  }

  /** The suffix of mesh i: i in base 26 with the letters A to Z, least
      significant letter first, and nothing for 0. */
  function Suffix(i: nat): (s: string)
    ensures |s| == 0 <==> i == 0
  {
    if i == 0 then [] else [('A' as int + i % 26) as char] + Suffix(i / 26)
  }

  /** The value of a suffix read back, least significant letter first. */
  function SuffixValue(s: string): int
  {
    if s == [] then 0 else (s[0] as int - 'A' as int) + 26 * SuffixValue(s[1..])
  }

  predicate AllUpper(s: string)
  {
    forall j :: 0 <= j < |s| ==> 'A' <= s[j] <= 'Z'
  }

  /** A suffix is made of capital letters and reads back as the index; its
      last letter is never 'A' (there is no leading zero), so different
      indices get different suffixes. */
  lemma {:induction false} SuffixDecodes(i: nat)
    ensures AllUpper(Suffix(i))
    ensures SuffixValue(Suffix(i)) == i
    ensures i > 0 ==> Suffix(i)[|Suffix(i)| - 1] != 'A'
  {
    if i > 0 {
      SuffixDecodes(i / 26);
      var s := Suffix(i);
      assert s[1..] == Suffix(i / 26);
      if i / 26 == 0 {
        assert i % 26 != 0;
      }
    }
  }

  lemma SuffixInjective(i: nat, j: nat)
    requires Suffix(i) == Suffix(j)
    ensures i == j
  {
    SuffixDecodes(i);
    SuffixDecodes(j);
  }

  /** The object name of fitted mesh i. */
  function ObjectName(kind: MeshFit.FitKind, i: nat): string
  {
    Prefix(kind) + Suffix(i)
  }

  /** The mesh name of fitted mesh i: the object name and the detail size. */
  function MeshName(kind: MeshFit.FitKind, i: nat, size: int): string
  {
    ObjectName(kind, i) + Strings.ToString(size)
  }

  /** Two fitted meshes get the same object name only when they are of the
      same kind and have the same index: the prefixes end in small letters
      and their fourth and fifth characters tell the kinds apart. */
  lemma ObjectNameInjective(k1: MeshFit.FitKind, i1: nat, k2: MeshFit.FitKind, i2: nat)
    requires ObjectName(k1, i1) == ObjectName(k2, i2)
    ensures k1 == k2 && i1 == i2
  {
    var p1, p2 := Prefix(k1), Prefix(k2);
    var s1, s2 := Suffix(i1), Suffix(i2);
    SuffixDecodes(i1);
    SuffixDecodes(i2);
    var n := p1 + s1;
    assert n == p2 + s2;
    assert n[3] == p1[3] == p2[3] && n[4] == p1[4] == p2[4];
    assert k1 == k2;
    assert s1 == n[|p1|..] == s2;
    SuffixInjective(i1, i2);
  }

  /** The last character of an object name is a letter. */
  lemma ObjectNameEnd(kind: MeshFit.FitKind, i: nat)
    ensures var n := ObjectName(kind, i);
      |n| > 1 && ('a' <= n[|n| - 1] <= 'z' || 'A' <= n[|n| - 1] <= 'Z')
  {
    SuffixDecodes(i);
    var n := ObjectName(kind, i);
    if i > 0 {
      assert n[|n| - 1] == Suffix(i)[|Suffix(i)| - 1];
    }
  }

  /** The mesh-name parser (`GetTrailingNumber`, as `AddMesh` uses it)
      splits a mesh name back into its object name and the detail size,
      whatever default it is given. */
  lemma MeshNameSplits(kind: MeshFit.FitKind, i: nat, size: int, number: int)
    ensures Strings.SplitNumber(MeshName(kind, i, size), number) == (ObjectName(kind, i), size)
  {
    ObjectNameEnd(kind, i);
    SplitsBack(ObjectName(kind, i), size, number);
  }

  /** The collision node name splits back into "Col" and the size. */
  lemma ColNodeSplits(size: int, number: int)
    ensures Strings.SplitNumber(ColNodeName(size), number) == ("Col", size)
  {
    SplitsBack("Col", size, number);
  }

  /** A name ending in a letter, followed by a number, splits back into the
      two. */
  lemma SplitsBack(name: string, size: int, number: int)
    requires |name| > 1 && ('a' <= name[|name| - 1] <= 'z' || 'A' <= name[|name| - 1] <= 'Z')
    ensures Strings.SplitNumber(name + Strings.ToString(size), number) == (name, size)
  {
    if size >= 0 {
      SplitsBackUnsigned(name, size, number);
    } else {
      SplitsBackSigned(name, size, number);
    }
  }

  lemma SplitsBackUnsigned(name: string, size: nat, number: int)
    requires |name| > 1 && ('a' <= name[|name| - 1] <= 'z' || 'A' <= name[|name| - 1] <= 'Z')
    ensures Strings.SplitNumber(name + Strings.Digits(size), number) == (name, size)
  {
    var ds := Strings.Digits(size);
    Strings.DigitsValue(size);
    Strings.SplitUnsigned(name, [], ds, [], number);
    assert name + [] == name && ds + [] == ds;
  }

  lemma SplitsBackSigned(name: string, size: int, number: int)
    requires size < 0
    requires |name| > 1 && ('a' <= name[|name| - 1] <= 'z' || 'A' <= name[|name| - 1] <= 'Z')
    ensures Strings.SplitNumber(name + ("-" + Strings.Digits(-size)), number) == (name, size)
  {
    Strings.DigitsValue(-size);
    SplitsNegated(name, Strings.Digits(-size), size, number);
  }

  lemma SplitsNegated(name: string, ds: string, size: int, number: int)
    requires |name| > 1 && ('a' <= name[|name| - 1] <= 'z' || 'A' <= name[|name| - 1] <= 'Z')
    requires |ds| > 0 && Strings.AllDigits(ds) && Strings.DecimalValue(ds) == -size
    ensures Strings.SplitNumber(name + ("-" + ds), number) == (name, size)
  {
    SignedSpelling(name, ds);
    Strings.SplitSigned(name, '-', ds, [], number);
    var r := Strings.SplitNumber((name + ['-']) + (ds + []), number);
    assert r.0 == name && r.1 == size;
  }

  lemma SignedSpelling(name: string, ds: string)
    ensures name + ("-" + ds) == (name + ['-']) + (ds + [])
  {
    assert ds + [] == ds;
  }

  /** No mesh name is the collision node's name: the fourth character of a
      mesh name is a capital letter, that of the node name a digit or '-'. */
  lemma ColNodeIsNoMesh(kind: MeshFit.FitKind, i: nat, size: int, size2: int)
    ensures ColNodeName(size) != MeshName(kind, i, size2)
  {
    var m := MeshName(kind, i, size2);
    assert m[3] == Prefix(kind)[3];
    var c := Strings.ToString(size);
    assert ColNodeName(size)[3] == c[0];
    assert c[0] == '-' || Strings.IsDigit(c[0]);
  }

  /** The suffix loop: `for (suffix = i; suffix != 0; suffix /= 26)`
      appending 'A' + suffix % 26. */
  method AppendSuffix(name: string, i: nat) returns (r: string)
    ensures r == name + Suffix(i)
  {
    r := name;
    var suffix := i;
    while suffix != 0
      invariant r + Suffix(suffix) == name + Suffix(i)
    {
      r := r + [('A' as int + suffix % 26) as char];
      suffix := suffix / 26;
    }
  }

  // ---------------------------------------------------------------------
  // The edits
  // ---------------------------------------------------------------------

  /** The shape edits `AddCollisionDetail` makes, in order. */
  datatype Edit =
    | AddRootNode(name: string)                   // `AddNode(name, "")`
    | ResetNode(name: string)                     // `SetNodeTransform(name, zero, identity)`
    | AddMesh(meshName: string)                   // `TSShape::AddMesh(tsmesh, meshName)`
    | AddChildNode(name: string, parent: string)  // `AddNode(name, parent, pos, rot)`
    | SetObjectNode(objName: string, nodeName: string)

  /** The edits for the collision node: added at the root when there is no
      node of that name, its transform reset when its world transform is
      not the identity, nothing otherwise. */
  function NodeEdits(colNode: string, found: bool, identity: bool): seq<Edit>
  {
    if !found then [AddRootNode(colNode)]
    else if !identity then [ResetNode(colNode)]
    else []
  }

  /** The edits for fitted mesh i: the mesh is added under its name, then
      its object attached to the collision node when its transform is the
      identity, or to a new node named after the mesh under it otherwise. */
  function MeshEdits(m: MeshFit.FittedMesh, i: nat, size: int): (es: seq<Edit>)
  {
    var obj := ObjectName(m.kind, i);
    var name := MeshName(m.kind, i, size);
    if m.identity then [AddMesh(name), SetObjectNode(obj, ColNodeName(size))]
    else [AddMesh(name), AddChildNode(name, ColNodeName(size)), SetObjectNode(obj, name)]
  }

  /** The edits for the first k fitted meshes, in order. */
  function MeshesEdits(fitted: seq<MeshFit.FittedMesh>, k: nat, size: int): seq<Edit>
    requires k <= |fitted|
  {
    if k == 0 then [] else MeshesEdits(fitted, k - 1, size) + MeshEdits(fitted[k - 1], k - 1, size)
  }

  /** Where fitted mesh i is attached. */
  function AttachedTo(m: MeshFit.FittedMesh, i: nat, size: int): string
  {
    if m.identity then ColNodeName(size) else MeshName(m.kind, i, size)
  }

  /** Each fitted mesh is added and its object attached: to the collision
      node, or to its own node, which the edits add under the collision
      node first. */
  lemma {:induction false} MeshesAttached(fitted: seq<MeshFit.FittedMesh>, k: nat, size: int, i: nat)
    requires i < k <= |fitted|
    ensures Attached(MeshesEdits(fitted, k, size), fitted[i], i, size)
    decreases k, 1
  {
    if i < k - 1 {
      AttachedCarried(fitted, k, size, i);
    } else {
      LastAttached(fitted, k, size, i);
    }
  }

  /** Mesh m, numbered i, is added to edits es and its object attached. */
  predicate Attached(es: seq<Edit>, m: MeshFit.FittedMesh, i: nat, size: int)
  {
    AddMesh(MeshName(m.kind, i, size)) in es &&
    SetObjectNode(ObjectName(m.kind, i), AttachedTo(m, i, size)) in es &&
    (!m.identity ==> AddChildNode(MeshName(m.kind, i, size), ColNodeName(size)) in es)
  }

  /** A mesh attached by the edits for the meshes before the last stays
      attached once the last mesh's edits follow. */
  lemma {:induction false} AttachedCarried(fitted: seq<MeshFit.FittedMesh>, k: nat, size: int, i: nat)
    requires i < k - 1 && k <= |fitted|
    ensures Attached(MeshesEdits(fitted, k, size), fitted[i], i, size)
    decreases k, 0
  {
    var front, last := MeshesEdits(fitted, k - 1, size), MeshEdits(fitted[k - 1], k - 1, size);
    assert Attached(front + last, fitted[i], i, size) by {
      MeshesAttached(fitted, k - 1, size, i);
      AttachedAppend(front, last, fitted[i], i, size);
    }
    assert MeshesEdits(fitted, k, size) == front + last;
  }

  lemma AttachedAppend(front: seq<Edit>, last: seq<Edit>, m: MeshFit.FittedMesh, i: nat, size: int)
    requires Attached(front, m, i, size)
    ensures Attached(front + last, m, i, size)
  {
  }

  lemma AttachedPrepend(front: seq<Edit>, last: seq<Edit>, m: MeshFit.FittedMesh, i: nat, size: int)
    requires Attached(last, m, i, size)
    ensures Attached(front + last, m, i, size)
  {
  }

  lemma LastAttached(fitted: seq<MeshFit.FittedMesh>, k: nat, size: int, i: nat)
    requires i == k - 1 && k <= |fitted|
    ensures Attached(MeshesEdits(fitted, k, size), fitted[i], i, size)
  {
    var front, last := MeshesEdits(fitted, i, size), MeshEdits(fitted[i], i, size);
    assert Attached(front + last, fitted[i], i, size) by {
      MeshEditsAttach(fitted[i], i, size);
      AttachedPrepend(front, last, fitted[i], i, size);
    }
    assert MeshesEdits(fitted, k, size) == front + last;
  }

  /** The edits for one mesh add it and attach its object. */
  lemma MeshEditsAttach(m: MeshFit.FittedMesh, i: nat, size: int)
    ensures Attached(MeshEdits(m, i, size), m, i, size)
  {
    var es := MeshEdits(m, i, size);
    assert es[0] == AddMesh(MeshName(m.kind, i, size));
    if m.identity {
      assert es[1] == SetObjectNode(ObjectName(m.kind, i), AttachedTo(m, i, size));
    } else {
      assert es[1] == AddChildNode(MeshName(m.kind, i, size), ColNodeName(size));
      assert es[2] == SetObjectNode(ObjectName(m.kind, i), AttachedTo(m, i, size));
    }
  }

  /** The one object the edits for one mesh attach is that mesh's. */
  lemma MeshEditsAttachOnce(m: MeshFit.FittedMesh, i: nat, size: int, e: Edit)
    requires e in MeshEdits(m, i, size) && e.SetObjectNode?
    ensures e == SetObjectNode(ObjectName(m.kind, i), AttachedTo(m, i, size))
  {
  }

  /** Every object the edits attach belongs to one of the fitted meshes,
      and to the node that mesh is attached to; since object names differ
      between meshes, each object is attached once. */
  lemma {:induction false} AttachmentsFromMeshes(fitted: seq<MeshFit.FittedMesh>, k: nat, size: int, e: Edit)
    requires k <= |fitted|
    requires e in MeshesEdits(fitted, k, size) && e.SetObjectNode?
    ensures AttachmentOf(fitted, k, size, e)
  {
    if k == 0 {
      assert false;
    } else if e in MeshesEdits(fitted, k - 1, size) {
      AttachmentsFromMeshes(fitted, k - 1, size, e);
      AttachmentWidened(fitted, k, size, e);
    } else {
      LastAttachment(fitted, k, size, e);
    }
  }

  /** e attaches the object of one of the first k fitted meshes to the
      node that mesh is attached to. */
  ghost predicate AttachmentOf(fitted: seq<MeshFit.FittedMesh>, k: nat, size: int, e: Edit)
    requires k <= |fitted|
  {
    exists i :: 0 <= i < k && e == SetObjectNode(ObjectName(fitted[i].kind, i), AttachedTo(fitted[i], i, size))
  }

  lemma AttachmentWidened(fitted: seq<MeshFit.FittedMesh>, k: nat, size: int, e: Edit)
    requires 0 < k <= |fitted| && AttachmentOf(fitted, k - 1, size, e)
    ensures AttachmentOf(fitted, k, size, e)
  {
    var j :| 0 <= j < k - 1 && e == SetObjectNode(ObjectName(fitted[j].kind, j), AttachedTo(fitted[j], j, size));
    assert 0 <= j < k;
  }

  lemma LastAttachment(fitted: seq<MeshFit.FittedMesh>, k: nat, size: int, e: Edit)
    requires 0 < k <= |fitted| && e.SetObjectNode?
    requires e in MeshesEdits(fitted, k, size) && e !in MeshesEdits(fitted, k - 1, size)
    ensures AttachmentOf(fitted, k, size, e)
  {
    var front, last := MeshesEdits(fitted, k - 1, size), MeshEdits(fitted[k - 1], k - 1, size);
    assert MeshesEdits(fitted, k, size) == front + last;
    MeshEditsAttachOnce(fitted[k - 1], k - 1, size, e);
    assert 0 <= k - 1 < k;
  }

  /** The mesh loop of `AddCollisionDetail`: each fitted mesh named,
      added and attached in turn. */
  method AddMeshes(fitted: seq<MeshFit.FittedMesh>, size: int, colNode: string) returns (edits: seq<Edit>)
    requires colNode == ColNodeName(size)
    ensures edits == MeshesEdits(fitted, |fitted|, size)
  {
    edits := [];
    var i := 0;
    while i < |fitted|
      invariant 0 <= i <= |fitted|
      invariant edits == MeshesEdits(fitted, i, size)
    {
      var mesh := fitted[i];
      var objName := AppendSuffix(Prefix(mesh.kind), i);
      var meshName := objName + Strings.ToString(size);
      var es := [AddMesh(meshName)];
      if mesh.identity {
        es := es + [SetObjectNode(objName, colNode)];
      } else {
        es := es + [AddChildNode(meshName, colNode), SetObjectNode(objName, meshName)];
      }
      assert es == MeshEdits(mesh, i, size);
      assert MeshesEdits(fitted, i + 1, size) == MeshesEdits(fitted, i, size) + es;
      assert edits + es == MeshesEdits(fitted, i + 1, size);
      edits := edits + es;
      i := i + 1;
    }
  }

  /** The source geometry a collision detail is fitted to is there: the
      gathering did not stop early and found both vertices and triangles. */
  predicate SourceReady(t: MeshFit.SourceTables, target: string, world: (int, Point3) -> Point3)
    requires MeshFit.SourceFits(t, target)
  {
    var g := MeshFit.Gathered(MeshFit.Sources(t, target), world);
    !MeshFit.Aborted(t, target) && g.0 != [] && g.1 != []
  }

  /** `AddCollisionDetail(size, type, target)`. The source geometry is
      gathered from target; without any, or for an unknown type, the call
      fails and edits nothing. Otherwise the collision node is made ready
      and each fitted mesh added and attached. The fitted meshes and
      whether the collision node's world transform is the identity are
      floating-point results and come in as parameters. */
  method AddCollisionDetail(shape: Shape.TSShape, size: int, typeCode: int, target: string,
                            world: (int, Point3) -> Point3, fitted: seq<MeshFit.FittedMesh>, colNodeIdentity: bool)
    returns (ok: bool, edits: seq<Edit>)
    requires MeshFit.SourceFits(MeshFit.TablesOf(shape), target)
    ensures ok <==> SourceReady(MeshFit.TablesOf(shape), target, world) && TypeOf(typeCode).Some?
    ensures !ok ==> edits == []
    ensures ok ==> edits == NodeEdits(ColNodeName(size), ShapeEdit.NodeLookup(shape.nodes, shape.names, ColNodeName(size)) != -1,
                                      colNodeIdentity) + MeshesEdits(fitted, |fitted|, size)
  {
    var fit := new MeshFit.MeshFit(shape);
    fit.InitSourceGeometry(MeshFit.TablesOf(shape), target, world);
    if !fit.isReady {
      return false, [];
    }
    var kind := TypeOf(typeCode);
    if kind.None? {
      return false, [];
    }
    var colNode := "Col" + Strings.ToString(size);
    var nodeIndex := ShapeEdit.FindNodeAt(shape, colNode);
    edits := CollisionEdits(size, nodeIndex, colNodeIdentity, fitted);
    ok := true;
  }

  /** The edits of a collision detail whose geometry was found: the
      collision node added when the lookup answered -1 and reset when its
      transform is not the identity, then the fitted meshes. */
  method CollisionEdits(size: int, nodeIndex: int, colNodeIdentity: bool, fitted: seq<MeshFit.FittedMesh>) returns (edits: seq<Edit>)
    ensures edits == NodeEdits(ColNodeName(size), nodeIndex != -1, colNodeIdentity) + MeshesEdits(fitted, |fitted|, size)
  {
    var colNode := "Col" + Strings.ToString(size);
    if nodeIndex == -1 {
      edits := [AddRootNode(colNode)];
    } else if !colNodeIdentity {
      edits := [ResetNode(colNode)];
    } else {
      edits := [];
    }
    var meshEdits := AddMeshes(fitted, size, colNode);
    edits := edits + meshEdits;
  }

  /** `AddCollisionDetail` as written: the target argument is not used, the
      source geometry is always gathered from "bounds", and the collision
      node is looked up with the name search as written, which answers an
      unnamed node when "ColN" is not a name. */
  method AddCollisionDetailAsWritten(shape: Shape.TSShape, size: int, typeCode: int, target: string,
                                     world: (int, Point3) -> Point3, fitted: seq<MeshFit.FittedMesh>, colNodeIdentity: bool)
    returns (ok: bool, edits: seq<Edit>)
    requires MeshFit.SourceFits(MeshFit.TablesOf(shape), "bounds")
    ensures ok <==> SourceReady(MeshFit.TablesOf(shape), "bounds", world) && TypeOf(typeCode).Some?
    ensures !ok ==> edits == []
    ensures ok ==> edits == NodeEdits(ColNodeName(size), ShapeEdit.WrittenNodeLookup(shape.nodes, shape.names, ColNodeName(size)) != -1,
                                      colNodeIdentity) + MeshesEdits(fitted, |fitted|, size)
  {
    var fit := new MeshFit.MeshFit(shape);
    fit.InitSourceGeometry(MeshFit.TablesOf(shape), "bounds", world);
    if !fit.isReady {
      return false, [];
    }
    var kind := TypeOf(typeCode);
    if kind.None? {
      return false, [];
    }
    var colNode := "Col" + Strings.ToString(size);
    var nodeIndex := shape.FindNodeNamed(colNode);
    ShapeEdit.FindNodeNamedIsWritten(shape, colNode, nodeIndex);
    edits := CollisionEdits(size, nodeIndex, colNodeIdentity, fitted);
    ok := true;
  }

  /** One triangle over one vertex, as a triangle list. */
  const OneTriangle: Mesh.Mesh := Mesh.Mesh(0, -1, 1, 1, 1, [], [], 0, [0, 0, 0], [], [], [],
                                            [Mesh.Primitive(0, 3, 0)], [0, 0, 0], Mesh.Standard)

  /** Tables with an object "hull" holding that mesh, and a highest detail
      level without a subshape. */
  const HullOnly: MeshFit.SourceTables := MeshFit.SourceTables(
    [Detail(0, -1, 0, 0, 0, 0, 1)], [], [], [Object(0, 1, 0, 0, -1, -1)],
    [MeshFactory.MeshObject(OneTriangle)], ["hull"])

  /** For a shape with these tables, a collision detail fitted to "hull"
      has geometry, but the call as written finds none and fails. */
  lemma TargetIgnored(world: (int, Point3) -> Point3)
    ensures MeshFit.SourceFits(HullOnly, "bounds") && MeshFit.SourceFits(HullOnly, "hull")
    ensures !SourceReady(HullOnly, "bounds", world)
    ensures SourceReady(HullOnly, "hull", world)
  {
    assert ShapeEdit.ObjectsNamed(HullOnly.objects, 0) == [true];
    assert ShapeEdit.ObjectLookup(HullOnly.objects, HullOnly.names, "hull") == 0;
    assert MeshFit.FirstMesh(HullOnly.meshes, 0, 1) == Some(OneTriangle);
    assert MeshFit.Sources(HullOnly, "hull") == [MeshFit.Source(OneTriangle, 0)];
    assert MeshFit.MeshIndices(OneTriangle) == [0, 0, 0];
  }
}
