/**
 * Shape: `TSShape`, the in-memory shape. Its tables are the node, object,
 * detail and subshape arrays the packed buffer holds, the animation data,
 * the names, the meshes (a null mesh pointer is `NoMesh`), the sequences and
 * the material list.
 *
 * This module holds the fields, the lookups (`FindName`, `FindNode`,
 * `FindObject`, `GetSubShapeForNode`, `GetSubShapeForObject`,
 * `GetSubShapeDetails`) and `UpdateSmallestVisibleDL`. Loading, writing and
 * editing are in ShapeLoad, ShapeWrite and ShapeEdit.
 */
module Shape {
  import opened Bytes
  import Float32
  import opened ShapeRecords
  import MeshFactory
  import Sequences
  import MaterialLists

  /** Index lies in the range `[first[k], first[k] + num[k])` of subshape k. */
  predicate InSubShape(first: seq<int>, num: seq<int>, k: int, index: int)
  {
    0 <= k < |first| && k < |num| && first[k] <= index < first[k] + num[k]
  }

  /** A detail `GetSubShapeDetails(sub)` lists: one of that subshape, or one
      that belongs to every subshape (a negative subshape number). */
  predicate ServesSubShape(d: Detail, sub: int)
  {
    d.subShapeNum == sub || d.subShapeNum < 0
  }

  class TSShape {
    var nodes: seq<Node>
    var objects: seq<Object>
    var objectStates: seq<ObjectState>
    var subShapeFirstNode: seq<int>
    var subShapeFirstObject: seq<int>
    var subShapeNumNodes: seq<int>
    var subShapeNumObjects: seq<int>
    var details: seq<Detail>
    var defaultRotations: seq<Quat16>
    var defaultTranslations: seq<Point3>
    var nodeTranslations: seq<Point3>
    var nodeRotations: seq<Quat16>
    var nodeUniformScales: seq<Float32.Bits>
    var nodeAlignedScales: seq<Point3>
    var nodeArbitraryScaleFactors: seq<Point3>
    var nodeArbitraryScaleRots: seq<Quat16>
    var groundTranslations: seq<Point3>
    var groundRotations: seq<Quat16>
    var triggers: seq<Trigger>
    var names: seq<string>
    var meshes: seq<MeshFactory.Made>
    var sequences: seq<Sequences.Sequence>
    var materialList: MaterialLists.TSMaterialList?
    var radius: Float32.Bits
    var tubeRadius: Float32.Bits
    var center: Point3
    /** The bounding box: 6 float words, minimum then maximum corner. */
    var bounds: seq<int>
    var exporterVersion: int
    var smallestVisibleSize: Float32.Bits
    var smallestVisibleDL: int
    /** The version of the file loaded, -1 before any load. */
    var readVersion: int
    /** The shape block the copying pass of a load fills. */
    var shapeData: seq<byte>
    /** `shape_data_size_`: the sizing pass's byte count, as an unsigned
        32-bit value. */
    var shapeDataSize: nat

    /** An empty shape: no material list, no shape block, read version -1.
        Members the source leaves uninitialised are zero here. */
    constructor ()
      ensures nodes == [] && objects == [] && objectStates == [] && details == []
      ensures subShapeFirstNode == [] && subShapeFirstObject == [] && subShapeNumNodes == [] && subShapeNumObjects == []
      ensures names == [] && meshes == [] && sequences == [] && triggers == []
      ensures materialList == null && readVersion == -1 && shapeData == [] && shapeDataSize == 0
    {
      nodes, objects, objectStates, details := [], [], [], [];
      subShapeFirstNode, subShapeFirstObject, subShapeNumNodes, subShapeNumObjects := [], [], [], [];
      defaultRotations, defaultTranslations, nodeTranslations, nodeRotations := [], [], [], [];
      nodeUniformScales, nodeAlignedScales, nodeArbitraryScaleFactors, nodeArbitraryScaleRots := [], [], [], [];
      groundTranslations, groundRotations, triggers, names := [], [], [], [];
      meshes, sequences, materialList := [], [], null;
      radius, tubeRadius, center, bounds := 0, 0, Point3(0, 0, 0), [0, 0, 0, 0, 0, 0];
      exporterVersion, smallestVisibleSize, smallestVisibleDL := 0, 0, 0;
      readVersion, shapeData, shapeDataSize := -1, [], 0;
    }

    // -------------------------------------------------------------------
    // Lookups
    // -------------------------------------------------------------------

    /** `FindName`: the first index holding name, or -1 when none does. */
    method FindName(name: string) returns (r: int)
      ensures -1 <= r < |names|
      ensures r >= 0 ==> names[r] == name
      ensures forall j :: 0 <= j < |names| && (r < 0 || j < r) ==> names[j] != name
    {
      var i := 0;
      while i < |names|
        invariant 0 <= i <= |names|
        invariant forall j :: 0 <= j < i ==> names[j] != name
      {
        if names[i] == name {
          return i;
        }
        i := i + 1;
      }
      return -1;
    }

    /** `FindNode(name_index)`: the first node with that name index, or -1. */
    method FindNode(nameIndex: int) returns (r: int)
      ensures -1 <= r < |nodes|
      ensures r >= 0 ==> nodes[r].nameIndex == nameIndex
      ensures forall j :: 0 <= j < |nodes| && (r < 0 || j < r) ==> nodes[j].nameIndex != nameIndex
    {
      var i := 0;
      while i < |nodes|
        invariant 0 <= i <= |nodes|
        invariant forall j :: 0 <= j < i ==> nodes[j].nameIndex != nameIndex
      {
        if nodes[i].nameIndex == nameIndex {
          return i;
        }
        i := i + 1;
      }
      return -1;
    }

    /** `FindNode(name)`: the node named by the first index of name. An
        unknown name looks up name index -1, which a node may carry. */
    method FindNodeNamed(name: string) returns (r: int)
      ensures -1 <= r < |nodes|
      ensures r >= 0 ==> nodes[r].nameIndex == NameIndex(name)
      ensures forall j :: 0 <= j < |nodes| && (r < 0 || j < r) ==> nodes[j].nameIndex != NameIndex(name)
    {
      var n := FindName(name);
      NameIndexIs(name, n);
      r := FindNode(n);
    }

    /** `FindObject(name_index)`: the first object with that name index, or
        -1. */
    method FindObject(nameIndex: int) returns (r: int)
      ensures -1 <= r < |objects|
      ensures r >= 0 ==> objects[r].nameIndex == nameIndex
      ensures forall j :: 0 <= j < |objects| && (r < 0 || j < r) ==> objects[j].nameIndex != nameIndex
    {
      var i := 0;
      while i < |objects|
        invariant 0 <= i <= |objects|
        invariant forall j :: 0 <= j < i ==> objects[j].nameIndex != nameIndex
      {
        if objects[i].nameIndex == nameIndex {
          return i;
        }
        i := i + 1;
      }
      return -1;
    }

    /** `FindObject(name)`. */
    method FindObjectNamed(name: string) returns (r: int)
      ensures -1 <= r < |objects|
      ensures r >= 0 ==> objects[r].nameIndex == NameIndex(name)
      ensures forall j :: 0 <= j < |objects| && (r < 0 || j < r) ==> objects[j].nameIndex != NameIndex(name)
    {
      var n := FindName(name);
      NameIndexIs(name, n);
      r := FindObject(n);
    }

    /** The index `FindName` answers, as a function of the names. */
    function NameIndex(name: string): (r: int)
      reads this
    {
      FirstName(names, name)
    }

    lemma NameIndexIs(name: string, r: int)
      requires -1 <= r < |names|
      requires r >= 0 ==> names[r] == name
      requires forall j :: 0 <= j < |names| && (r < 0 || j < r) ==> names[j] != name
      ensures NameIndex(name) == r
    {
      FirstNameIs(names, name, r);
    }

    /** `GetSubShapeForNode`: the first subshape whose node range holds the
        index, or -1. */
    method GetSubShapeForNode(nodeIndex: int) returns (r: int)
      requires |subShapeFirstNode| <= |subShapeNumNodes|
      ensures -1 <= r < |subShapeFirstNode|
      ensures r >= 0 ==> InSubShape(subShapeFirstNode, subShapeNumNodes, r, nodeIndex)
      ensures forall k :: 0 <= k < |subShapeFirstNode| && (r < 0 || k < r) ==>
        !InSubShape(subShapeFirstNode, subShapeNumNodes, k, nodeIndex)
    {
      r := FirstSubShape(subShapeFirstNode, subShapeNumNodes, nodeIndex);
    }

    /** `GetSubShapeForObject`: the first subshape whose object range holds
        the index, or -1. */
    method GetSubShapeForObject(objIndex: int) returns (r: int)
      requires |subShapeFirstObject| <= |subShapeNumObjects|
      ensures -1 <= r < |subShapeFirstObject|
      ensures r >= 0 ==> InSubShape(subShapeFirstObject, subShapeNumObjects, r, objIndex)
      ensures forall k :: 0 <= k < |subShapeFirstObject| && (r < 0 || k < r) ==>
        !InSubShape(subShapeFirstObject, subShapeNumObjects, k, objIndex)
    {
      r := FirstSubShape(subShapeFirstObject, subShapeNumObjects, objIndex);
    }

    /** `GetSubShapeDetails`: the indices of the details serving the
        subshape, each once, in ascending order. */
    method GetSubShapeDetails(subShapeIndex: int) returns (valid: seq<int>)
      ensures forall i :: i in valid ==> 0 <= i < |details| && ServesSubShape(details[i], subShapeIndex)
      ensures forall i :: 0 <= i < |details| && ServesSubShape(details[i], subShapeIndex) ==> i in valid
      ensures forall a, b :: 0 <= a < b < |valid| ==> valid[a] < valid[b]
    {
      valid := [];
      var i := 0;
      while i < |details|
        invariant 0 <= i <= |details|
        invariant forall v :: v in valid ==> 0 <= v < i && ServesSubShape(details[v], subShapeIndex)
        invariant forall v :: 0 <= v < i && ServesSubShape(details[v], subShapeIndex) ==> v in valid
        invariant forall a, b :: 0 <= a < b < |valid| ==> valid[a] < valid[b]
      {
        if details[i].subShapeNum == subShapeIndex || details[i].subShapeNum < 0 {
          assert forall a :: 0 <= a < |valid| ==> valid[a] in valid;
          valid := valid + [i];
        }
        i := i + 1;
      }
    }

    // -------------------------------------------------------------------
    // The smallest visible detail
    // -------------------------------------------------------------------

    /** `UpdateSmallestVisibleDL`: the choice `SmallestVisible` makes over all
        the details (see `SmallestVisibleFound` and `SmallestVisibleLeast`);
        nothing else changes. The running maximum size the source also
        computes is never used. */
    method UpdateSmallestVisibleDL()
      modifies this`smallestVisibleDL, this`smallestVisibleSize
      ensures (smallestVisibleDL, smallestVisibleSize) == SmallestVisible(details, |details|)
    {
      smallestVisibleDL := -1;
      smallestVisibleSize := Float32.FltMax;
      var i := 0;
      while i < |details|
        invariant 0 <= i <= |details|
        invariant (smallestVisibleDL, smallestVisibleSize) == SmallestVisible(details, i)
      {
        var size := details[i].size;
        if Float32.AtLeast(Float32.Decode(size), Float32.Finite(0.0)) &&
           Float32.Less(Float32.Decode(size), Float32.Decode(smallestVisibleSize)) {
          smallestVisibleDL := i;
          smallestVisibleSize := size;
        }
        i := i + 1;
      }
    }
  }

  /** The first index of names holding name, or -1. */
  function FirstName(names: seq<string>, name: string): (r: int)
    ensures -1 <= r < |names|
  {
    if |names| == 0 then -1
    else if names[0] == name then 0
    else
      var r := FirstName(names[1..], name);
      if r < 0 then -1 else r + 1
  }

  /** `FirstName` is the first index holding name, and -1 exactly when no
      index does. */
  lemma {:induction false} FirstNameIs(names: seq<string>, name: string, r: int)
    requires -1 <= r < |names|
    requires r >= 0 ==> names[r] == name
    requires forall j :: 0 <= j < |names| && (r < 0 || j < r) ==> names[j] != name
    ensures FirstName(names, name) == r
  {
    if |names| > 0 && names[0] != name {
      FirstNameIs(names[1..], name, if r < 0 then -1 else r - 1);
    }
  }

  /** The search both subshape lookups share. */
  method FirstSubShape(first: seq<int>, num: seq<int>, index: int) returns (r: int)
    requires |first| <= |num|
    ensures -1 <= r < |first|
    ensures r >= 0 ==> InSubShape(first, num, r, index)
    ensures forall k :: 0 <= k < |first| && (r < 0 || k < r) ==> !InSubShape(first, num, k, index)
  {
    var i := 0;
    while i < |first|
      invariant 0 <= i <= |first|
      invariant forall k :: 0 <= k < i ==> !InSubShape(first, num, k, index)
    {
      var start := first[i];
      var end := start + num[i];
      if index >= start && index < end {
        return i;
      }
      i := i + 1;
    }
    return -1;
  }
}
