/**
 * ShapeEdit: the editing bookkeeping of `TSShape` — name interning
 * (`AddName`), detail insertion that keeps the detail list sorted by size
 * (`AddDetail`), and node, object and mesh insertion with the index
 * fix-ups they need (`AddNode`, `AddObject`, `AddMeshToObject`,
 * `SetObjectNode`).
 *
 * Each edit is a method on the shape whose new state is stated through the
 * functions of this module; the lemmas state what the edits keep: a name
 * is interned once, the details stay sorted, and every index into the node,
 * object and mesh tables still names the same entry after an insertion.
 */
module ShapeEdit {
  import opened Bytes
  import Bitwise
  import Float32
  import Strings
  import Vector
  import IntegerSet
  import Sequences
  import opened ShapeRecords
  import MeshFactory
  import Mesh
  import opened Shape

  // ---------------------------------------------------------------------
  // Names
  // ---------------------------------------------------------------------

  /** What `AddName` leaves and answers: an empty name is refused with -1,
      a known name answers its first index, a new name is appended and
      answers the new last index. */
  function Interned(names: seq<string>, name: string): (seq<string>, int)
  {
    if name == [] then (names, -1)
    else if FirstName(names, name) >= 0 then (names, FirstName(names, name))
    else (names + [name], |names|)
  }

  /** `FirstName` is the first index holding the name, -1 when none does. */
  lemma {:induction false} FirstNameFacts(names: seq<string>, name: string)
    ensures var r := FirstName(names, name);
      (r >= 0 ==> names[r] == name) &&
      forall j :: 0 <= j < |names| && (r < 0 || j < r) ==> names[j] != name
  {
    if |names| > 0 && names[0] != name {
      FirstNameFacts(names[1..], name);
      assert forall j :: 1 <= j < |names| ==> names[j] == names[1..][j - 1];
    }
  }

  /** A non-empty name is interned: the answer indexes it, it is the first
      index holding it, the old names are kept as a prefix, and the list
      grows exactly when the name was unknown. */
  lemma InternedName(names: seq<string>, name: string)
    requires name != []
    ensures var (ns, r) := Interned(names, name);
      0 <= r < |ns| && ns[r] == name && FirstName(ns, name) == r &&
      names <= ns && (ns == names <==> name in names) && (ns != names ==> ns == names + [name])
  {
    FirstNameFacts(names, name);
    var (ns, r) := Interned(names, name);
    if FirstName(names, name) < 0 {
      assert name !in names;
      assert forall j :: 0 <= j < |names| ==> ns[j] == names[j];
      FirstNameIs(ns, name, |names|);
    }
  }

  /** Interning is idempotent: adding the same name again changes nothing
      and gives the same index. */
  lemma InternedAgain(names: seq<string>, name: string)
    ensures var (ns, r) := Interned(names, name);
      Interned(ns, name) == (ns, r)
  {
    if name != [] {
      InternedName(names, name);
    }
  }

  /** `AddName`. */
  method AddName(shape: TSShape, name: string) returns (r: int)
    modifies shape`names
    ensures (shape.names, r) == Interned(old(shape.names), name)
  {
    if name == [] {
      return -1;
    }
    var index := shape.FindName(name);
    shape.NameIndexIs(name, index);
    if index >= 0 {
      return index;
    }
    shape.names := shape.names + [name];
    r := |shape.names| - 1;
  }

  // ---------------------------------------------------------------------
  // Details
  // ---------------------------------------------------------------------

  /** A detail size compared with an integer size, as C++ compares a float
      with an `int32_t` (the integer converted to float). */
  function SizeOf(d: Detail): Float32.Value
  {
    Float32.Decode(d.size)
  }

  function IntSize(size: int): Float32.Value
    requires InSignedRange(size, 4)
  {
    Float32.Decode(Float32.FromInt(size))
  }

  /** The detail `AddDetail` looks for: same size, subshape and name. */
  predicate SameDetail(d: Detail, size: int, subShapeNum: int, nameIndex: int)
    requires InSignedRange(size, 4)
  {
    Float32.Equal(SizeOf(d), IntSize(size)) && d.subShapeNum == subShapeNum && d.nameIndex == nameIndex
  }

  /** A detail smaller than the size, where a new one goes. */
  predicate SmallerThan(d: Detail, size: int)
    requires InSignedRange(size, 4)
  {
    Float32.Less(SizeOf(d), IntSize(size))
  }

  /** The detail `AddDetail` sets up: errors -1, no polygons, object
      detail number 0. */
  function NewDetail(nameIndex: int, size: int, subShapeNum: int): Detail
    requires InSignedRange(size, 4)
  {
    Detail(nameIndex, subShapeNum, 0, Float32.FromInt(size), Float32.MinusOne, Float32.MinusOne, 0)
  }

  /** The object detail number of a later detail moves up when it belongs
      to the subshape (to any subshape when the new detail's is -1). */
  function Renumbered(d: Detail, subShapeNum: int): Detail
  {
    if d.subShapeNum >= 0 && (subShapeNum == -1 || d.subShapeNum == subShapeNum)
    then d.(objectDetailNum := d.objectDetailNum + 1)
    else d
  }

  /** The details after index renumbered. */
  function RenumberedAfter(ds: seq<Detail>, index: int, subShapeNum: int): (r: seq<Detail>)
    ensures |r| == |ds|
  {
    seq(|ds|, i requires 0 <= i < |ds| => if i > index then Renumbered(ds[i], subShapeNum) else ds[i])
  }

  /** The search of `AddDetail`: the first detail that is the one asked
      for (found), or else the first smaller one, or the end. */
  method FindDetailSlot(details: seq<Detail>, size: int, subShapeNum: int, nameIndex: int)
    returns (index: nat, found: bool)
    requires InSignedRange(size, 4)
    ensures index <= |details|
    ensures forall j :: 0 <= j < index ==>
      !SameDetail(details[j], size, subShapeNum, nameIndex) && !SmallerThan(details[j], size)
    ensures found <==> index < |details| && SameDetail(details[index], size, subShapeNum, nameIndex)
    ensures !found && index < |details| ==> SmallerThan(details[index], size)
  {
    index := 0;
    while index < |details|
      invariant index <= |details|
      invariant forall j :: 0 <= j < index ==>
        !SameDetail(details[j], size, subShapeNum, nameIndex) && !SmallerThan(details[j], size)
    {
      if SameDetail(details[index], size, subShapeNum, nameIndex) {
        return index, true;
      }
      if SmallerThan(details[index], size) {
        return index, false;
      }
      index := index + 1;
    }
    return index, false;
  }

  /** The fix-up loop of `AddDetail`. */
  method RenumberDetails(ds: seq<Detail>, index: nat, subShapeNum: int) returns (r: seq<Detail>)
    ensures r == RenumberedAfter(ds, index, subShapeNum)
  {
    r := ds;
    var i := index + 1;
    while i < |r|
      invariant |r| == |ds| && index + 1 <= i
      invariant forall j :: 0 <= j < |ds| ==>
        r[j] == if index < j < i then Renumbered(ds[j], subShapeNum) else ds[j]
    {
      r := r[i := Renumbered(r[i], subShapeNum)];
      i := i + 1;
    }
  }

  /** The name `AddDetail` gives a detail: the name, then the size. */
  function DetailLabel(dname: string, size: int): string
  {
    dname + Strings.ToString(size)
  }

  /** `AddDetail(dname, size, sub_shape_num)`. The detail is named by
      interning dname followed by the size. The search stops at an
      identical detail, which is returned with the details and the
      smallest visible detail unchanged; otherwise the new detail goes in
      before the first smaller detail, later details of the subshape are
      renumbered and the smallest visible detail is recomputed. */
  method AddDetail(shape: TSShape, dname: string, size: int, subShapeNum: int) returns (index: int)
    requires InSignedRange(size, 4)
    modifies shape`names, shape`details, shape`smallestVisibleDL, shape`smallestVisibleSize
    ensures var (ns, nameIndex) := Interned(old(shape.names), DetailLabel(dname, size));
      var ds := old(shape.details);
      shape.names == ns && 0 <= index <= |ds| &&
      (forall j :: 0 <= j < index ==> !SameDetail(ds[j], size, subShapeNum, nameIndex) && !SmallerThan(ds[j], size)) &&
      if index < |ds| && SameDetail(ds[index], size, subShapeNum, nameIndex) then
        shape.details == ds && shape.smallestVisibleDL == old(shape.smallestVisibleDL) &&
        shape.smallestVisibleSize == old(shape.smallestVisibleSize)
      else
        (index < |ds| ==> SmallerThan(ds[index], size)) &&
        shape.details == RenumberedAfter(Vector.Insert(ds, index, NewDetail(nameIndex, size, subShapeNum)), index, subShapeNum) &&
        (shape.smallestVisibleDL, shape.smallestVisibleSize) == SmallestVisible(shape.details, |shape.details|)
  {
    var nameIndex := AddName(shape, DetailLabel(dname, size));
    var found: bool;
    index, found := FindDetailSlot(shape.details, size, subShapeNum, nameIndex);
    if found {
      return;
    }
    var inserted := Vector.Insert(shape.details, index, NewDetail(nameIndex, size, subShapeNum));
    shape.details := RenumberDetails(inserted, index, subShapeNum);
    shape.UpdateSmallestVisibleDL();
  }

  /** Every detail size is a number (no NaN, no infinity). */
  predicate FiniteSizes(ds: seq<Detail>)
  {
    forall i :: 0 <= i < |ds| ==> SizeOf(ds[i]).Finite?
  }

  /** Sorted from the largest size to the smallest. */
  predicate Descending(ds: seq<Detail>)
    requires FiniteSizes(ds)
  {
    forall i, j :: 0 <= i < j < |ds| ==> SizeOf(ds[j]).r <= SizeOf(ds[i]).r
  }

  /** An integer converted to float is a number. */
  lemma IntSizeFinite(size: int)
    requires InSignedRange(size, 4)
    ensures IntSize(size).Finite?
  {
    var b := Float32.FromInt(size);
    if size != 0 {
      var m := if size < 0 then -size else size;
      var e := Float32.Log2(m);
      Float32.Pow2Constants();
      Float32.Log2Le(m, 31);
      var q := Float32.Significand(m, e);
      if q == 0x100_0000 {
        Float32.PackFields(size < 0, e + 128, 0x80_0000);
      } else {
        Float32.PackFields(size < 0, e + 127, q);
      }
    }
  }

  /** Inserting where `AddDetail` inserts keeps a sorted list of numeric
      sizes sorted, and renumbering never changes a size. */
  lemma AddDetailKeepsOrder(ds: seq<Detail>, index: nat, size: int, subShapeNum: int, nameIndex: int)
    requires InSignedRange(size, 4)
    requires FiniteSizes(ds) && Descending(ds) && index <= |ds|
    requires forall j :: 0 <= j < index ==> !SmallerThan(ds[j], size)
    requires index < |ds| ==> SmallerThan(ds[index], size)
    ensures var r := RenumberedAfter(Vector.Insert(ds, index, NewDetail(nameIndex, size, subShapeNum)), index, subShapeNum);
      FiniteSizes(r) && Descending(r)
  {
    IntSizeFinite(size);
    var ins := Vector.Insert(ds, index, NewDetail(nameIndex, size, subShapeNum));
    var r := RenumberedAfter(ins, index, subShapeNum);
    assert forall i :: 0 <= i < |r| ==> r[i].size == ins[i].size;
    assert SizeOf(ins[index]) == IntSize(size);
    forall i, j | 0 <= i < j < |r|
      ensures SizeOf(r[j]).r <= SizeOf(r[i]).r
    {
      assert SizeOf(r[i]) == SizeOf(ins[i]) && SizeOf(r[j]) == SizeOf(ins[j]);
      if j < index {
      } else if j == index {
      } else if i == index {
        assert ins[j] == ds[j - 1];
        if j - 1 > index {
          assert SizeOf(ds[j - 1]).r <= SizeOf(ds[index]).r;
        }
      } else if i < index {
        assert ins[j] == ds[j - 1];
        if j - 1 > index {
          assert SizeOf(ds[j - 1]).r <= SizeOf(ds[index]).r;
        }
      } else {
        assert ins[i] == ds[i - 1] && ins[j] == ds[j - 1];
      }
    }
  }

  // ---------------------------------------------------------------------
  // Lookups as functions
  // ---------------------------------------------------------------------

  /** The first position holding true, -1 when none does: the answer of
      the first-match searches (`FindNode`, `FindObject`,
      `GetSubShapeForNode`) as a function. */
  function FirstTrue(s: seq<bool>): (r: int)
    ensures -1 <= r < |s|
  {
    if s == [] then -1
    else if s[0] then 0
    else
      var r := FirstTrue(s[1..]);
      if r < 0 then -1 else r + 1
  }

  lemma {:induction false} FirstTrueFacts(s: seq<bool>)
    ensures var r := FirstTrue(s);
      (r >= 0 ==> s[r]) && forall j :: 0 <= j < |s| && (r < 0 || j < r) ==> !s[j]
  {
    if s != [] && !s[0] {
      FirstTrueFacts(s[1..]);
      assert forall j :: 1 <= j < |s| ==> s[j] == s[1..][j - 1];
    }
  }

  lemma {:induction false} FirstTrueIs(s: seq<bool>, r: int)
    requires -1 <= r < |s|
    requires r >= 0 ==> s[r]
    requires forall j :: 0 <= j < |s| && (r < 0 || j < r) ==> !s[j]
    ensures FirstTrue(s) == r
  {
    if s != [] && r != 0 {
      assert !s[0];
      FirstTrueIs(s[1..], if r < 0 then -1 else r - 1);
    }
  }

  /** Which nodes carry the name index. */
  function NodesNamed(nodes: seq<Node>, nameIndex: int): (s: seq<bool>)
    ensures |s| == |nodes|
  {
    seq(|nodes|, j requires 0 <= j < |nodes| => nodes[j].nameIndex == nameIndex)
  }

  /** Which objects carry the name index. */
  function ObjectsNamed(objects: seq<Object>, nameIndex: int): (s: seq<bool>)
    ensures |s| == |objects|
  {
    seq(|objects|, j requires 0 <= j < |objects| => objects[j].nameIndex == nameIndex)
  }

  /** `FindNode(name)` as written: `FindNode(FindName(name))`. A missing
      name gives name index -1, and the search then answers the first
      unnamed node (one whose name index is -1). */
  function WrittenNodeLookup(nodes: seq<Node>, names: seq<string>, name: string): (r: int)
    ensures -1 <= r < |nodes|
    ensures r >= 0 ==> nodes[r].nameIndex == FirstName(names, name)
  {
    var s := NodesNamed(nodes, FirstName(names, name));
    FirstTrueFacts(s);
    FirstTrue(s)
  }

  /** `FindNode(name)` as intended: the first node named so, -1 when the
      name is missing. */
  function NodeLookup(nodes: seq<Node>, names: seq<string>, name: string): (r: int)
    ensures -1 <= r < |nodes|
    ensures r >= 0 ==> 0 <= FirstName(names, name) && nodes[r].nameIndex == FirstName(names, name)
  {
    var n := FirstName(names, name);
    if n < 0 then -1
    else
      var s := NodesNamed(nodes, n);
      FirstTrueFacts(s);
      FirstTrue(s)
  }

  /** `FindObject(name)` as intended: the first object named so, -1 when
      the name is missing. */
  function ObjectLookup(objects: seq<Object>, names: seq<string>, name: string): (r: int)
    ensures -1 <= r < |objects|
    ensures r >= 0 ==> 0 <= FirstName(names, name) && objects[r].nameIndex == FirstName(names, name)
  {
    var n := FirstName(names, name);
    if n < 0 then -1
    else
      var s := ObjectsNamed(objects, n);
      FirstTrueFacts(s);
      FirstTrue(s)
  }

  /** Which subshapes hold the index in their range. */
  function Holders(first: seq<int>, num: seq<int>, index: int): (s: seq<bool>)
    ensures |s| == |first|
  {
    seq(|first|, k requires 0 <= k < |first| => InSubShape(first, num, k, index))
  }

  /** `GetSubShapeForNode` / `GetSubShapeForObject`: the first subshape
      whose range holds the index, or -1. */
  function SubShapeOf(first: seq<int>, num: seq<int>, index: int): int
  {
    FirstTrue(Holders(first, num, index))
  }

  /** The node search, refusing a missing name before it reaches the
      name index search. */
  method FindNodeAt(shape: TSShape, name: string) returns (r: int)
    ensures r == NodeLookup(shape.nodes, shape.names, name)
  {
    var n := shape.FindName(name);
    shape.NameIndexIs(name, n);
    if n < 0 {
      return -1;
    }
    r := shape.FindNode(n);
    FirstTrueIs(NodesNamed(shape.nodes, n), r);
  }

  /** The object search, refusing a missing name the same way. */
  method FindObjectAt(shape: TSShape, name: string) returns (r: int)
    ensures r == ObjectLookup(shape.objects, shape.names, name)
  {
    var n := shape.FindName(name);
    shape.NameIndexIs(name, n);
    if n < 0 {
      return -1;
    }
    r := shape.FindObject(n);
    FirstTrueIs(ObjectsNamed(shape.objects, n), r);
  }

  /** The source's name search answers what `WrittenNodeLookup` says. */
  lemma FindNodeNamedIsWritten(shape: TSShape, name: string, r: int)
    requires -1 <= r < |shape.nodes|
    requires r >= 0 ==> shape.nodes[r].nameIndex == shape.NameIndex(name)
    requires forall j :: 0 <= j < |shape.nodes| && (r < 0 || j < r) ==> shape.nodes[j].nameIndex != shape.NameIndex(name)
    ensures r == WrittenNodeLookup(shape.nodes, shape.names, name)
  {
    FirstTrueIs(NodesNamed(shape.nodes, shape.NameIndex(name)), r);
  }

  /** A shape with one unnamed node and no names: the source's search for
      any name answers that node, so `AddNode` refuses every new name as
      already taken, and `SetObjectNode` attaches objects to the unnamed
      node for a node name that does not exist; the intended lookup answers
      -1. */
  lemma UnnamedNodeFound()
    ensures var nodes := [Node(-1, -1, -1, -1, -1)];
      WrittenNodeLookup(nodes, [], "Bip01") == 0 && NodeLookup(nodes, [], "Bip01") == -1
  {
    var nodes := [Node(-1, -1, -1, -1, -1)];
    assert NodesNamed(nodes, -1)[0];
  }

  method SubShapeForNode(shape: TSShape, index: int) returns (r: int)
    requires |shape.subShapeFirstNode| <= |shape.subShapeNumNodes|
    ensures r == SubShapeOf(shape.subShapeFirstNode, shape.subShapeNumNodes, index)
  {
    r := shape.GetSubShapeForNode(index);
    FirstTrueIs(Holders(shape.subShapeFirstNode, shape.subShapeNumNodes, index), r);
  }

  /** The lookup answers a node carrying the name's index, the first one,
      and only for a name in the table; -1 means no node carries it. */
  lemma NodeLookupFacts(nodes: seq<Node>, names: seq<string>, name: string)
    ensures var r, n := NodeLookup(nodes, names, name), FirstName(names, name);
      -1 <= r < |nodes| &&
      (r >= 0 ==> 0 <= n < |names| && names[n] == name && nodes[r].nameIndex == n) &&
      forall j :: 0 <= j < |nodes| && (r < 0 || j < r) ==> n < 0 || nodes[j].nameIndex != n
  {
    var n := FirstName(names, name);
    FirstNameFacts(names, name);
    if n >= 0 {
      var s := NodesNamed(nodes, n);
      FirstTrueFacts(s);
      assert forall j :: 0 <= j < |nodes| ==> s[j] == (nodes[j].nameIndex == n);
    }
  }

  // ---------------------------------------------------------------------
  // Subshape ranges
  // ---------------------------------------------------------------------

  /** Every range lies inside a table of count entries. */
  predicate RangesFit(first: seq<int>, num: seq<int>, count: int)
  {
    |first| == |num| &&
    forall k :: 0 <= k < |first| ==> 0 <= first[k] && 0 <= num[k] && first[k] + num[k] <= count
  }

  /** The ranges follow one another: each ends before the next begins. */
  predicate RangesOrdered(first: seq<int>, num: seq<int>)
    requires |first| == |num|
  {
    forall k, l :: 0 <= k < l < |first| ==> first[k] + num[k] <= first[l]
  }

  /** Where a new entry goes: the end of the subshape's range. */
  function Slot(first: seq<int>, num: seq<int>, sub: nat): int
    requires sub < |first| && sub < |num|
  {
    first[sub] + num[sub]
  }

  /** The first entries of the later subshapes move up by one. */
  function BumpAfter(first: seq<int>, sub: int): (r: seq<int>)
    ensures |r| == |first|
  {
    seq(|first|, i requires 0 <= i < |first| => if i > sub then first[i] + 1 else first[i])
  }

  /** An index at or past the insertion point moves up by one. */
  function Bump(x: int, at: int): int
  {
    if x >= at then x + 1 else x
  }

  /** The counter and first-entry fix-up of `AddNode` and `AddObject`: the
      subshape's count goes up, the later subshapes start one later. */
  method GrowSubShape(first: seq<int>, num: seq<int>, sub: nat) returns (first': seq<int>, num': seq<int>)
    requires sub < |num|
    ensures num' == num[sub := num[sub] + 1]
    ensures first' == BumpAfter(first, sub)
  {
    num' := num[sub := num[sub] + 1];
    first' := first;
    var i := sub + 1;
    while i < |first'|
      invariant |first'| == |first| && sub + 1 <= i
      invariant forall j :: 0 <= j < |first| ==> first'[j] == if sub < j < i then first[j] + 1 else first[j]
    {
      first' := first'[i := first'[i] + 1];
      i := i + 1;
    }
  }

  /** Inserting at the end of subshape sub's range, with the fix-up, puts
      the new entry inside sub's range and keeps every old entry, moved to
      Bump(j), inside the range of the subshape that held it. */
  lemma SlotLands(first: seq<int>, num: seq<int>, sub: nat, count: int)
    requires RangesFit(first, num, count) && RangesOrdered(first, num) && sub < |first|
    ensures var at := Slot(first, num, sub);
      var first', num' := BumpAfter(first, sub), num[sub := num[sub] + 1];
      InSubShape(first', num', sub, at) &&
      forall k, j :: InSubShape(first, num, k, j) ==> InSubShape(first', num', k, Bump(j, at))
  {
    var at := Slot(first, num, sub);
    var first', num' := BumpAfter(first, sub), num[sub := num[sub] + 1];
    forall k, j | InSubShape(first, num, k, j)
      ensures InSubShape(first', num', k, Bump(j, at))
    {
      if k < sub {
        assert first[k] + num[k] <= first[sub];
      } else if k > sub {
        assert first[sub] + num[sub] <= first[k];
      }
    }
  }

  /** The slot the source computes: the subshape's count alone, which is
      the end of its range only for a subshape starting at entry 0. */
  function WrittenSlot(num: seq<int>, sub: nat): int
    requires sub < |num|
  {
    num[sub]
  }

  /** Two subshapes of five and two entries: the source puts the second
      subshape's new entry at index 2, inside the first subshape's range,
      and after the fix-up it is outside the range of its own subshape. */
  lemma WrittenSlotMisplaces()
    ensures var first, num := [0, 5], [5, 2];
      RangesFit(first, num, 7) && RangesOrdered(first, num) &&
      WrittenSlot(num, 1) == 2 && Slot(first, num, 1) == 7 &&
      !InSubShape(BumpAfter(first, 1), num[1 := num[1] + 1], 1, WrittenSlot(num, 1)) &&
      InSubShape(BumpAfter(first, 1), num[1 := num[1] + 1], 0, WrittenSlot(num, 1))
  {
    var first, num := [0, 5], [5, 2];
    var b := BumpAfter(first, 1);
    assert b[0] == 0 && b[1] == 5;
  }

  // ---------------------------------------------------------------------
  // Nodes
  // ---------------------------------------------------------------------

  /** The tables `AddNode` reads and changes. */
  datatype NodeTables = NodeTables(
    nodes: seq<Node>, names: seq<string>, first: seq<int>, num: seq<int>,
    translations: seq<Point3>, rotations: seq<Quat16>,
    sequences: seq<Sequences.Sequence>, objects: seq<Object>, meshes: seq<MeshFactory.Made>)

  function NodeTablesOf(shape: TSShape): NodeTables
    reads shape
  {
    NodeTables(shape.nodes, shape.names, shape.subShapeFirstNode, shape.subShapeNumNodes,
      shape.defaultTranslations, shape.defaultRotations, shape.sequences, shape.objects, shape.meshes)
  }

  /** What `AddNode` relies on: node subshape ranges inside the node table,
      at least one subshape, every node in some subshape, one default
      transform per node, and every sequence's sets at their full 64
      words. */
  predicate NodeTablesFit(t: NodeTables)
  {
    RangesFit(t.first, t.num, |t.nodes|) && |t.first| >= 1 &&
    (forall j :: 0 <= j < |t.nodes| ==> SubShapeOf(t.first, t.num, j) >= 0) &&
    |t.translations| == |t.nodes| && |t.rotations| == |t.nodes| &&
    forall i :: 0 <= i < |t.sequences| ==> t.sequences[i].SetsFit()
  }

  /** `strcmp(s.c_str(), "") == 0`: the C string is empty, also when the
      string starts with a NUL character. */
  predicate CEmpty(s: string)
  {
    |s| == 0 || s[0] == '\0'
  }

  /** What `AddNode` decides before changing anything. */
  datatype NodePlan = NodeRefused | NodeAt(parent: int, sub: nat, at: nat)

  /** Refused when the node table is full (as many nodes as a sequence set
      has bits), when a node has the name, or when a parent is named and no
      node has that name. Otherwise the node goes at the end of the parent's
      subshape (subshape 0 for a root node). */
  function PlanNode(t: NodeTables, name: string, parentName: string): (plan: NodePlan)
    requires NodeTablesFit(t)
    ensures plan.NodeAt? ==>
      plan.sub < |t.first| && plan.at <= |t.nodes| < IntegerSet.MaxSetSize &&
      plan.at == Slot(t.first, t.num, plan.sub) && -1 <= plan.parent < |t.nodes|
  {
    NodeLookupFacts(t.nodes, t.names, name);
    NodeLookupFacts(t.nodes, t.names, parentName);
    if |t.nodes| >= IntegerSet.MaxSetSize then NodeRefused
    else if NodeLookup(t.nodes, t.names, name) >= 0 then NodeRefused
    else if !CEmpty(parentName) && NodeLookup(t.nodes, t.names, parentName) < 0 then NodeRefused
    else
      var parent := if CEmpty(parentName) then -1 else NodeLookup(t.nodes, t.names, parentName);
      var sub := if parent >= 0 then SubShapeOf(t.first, t.num, parent) else 0;
      NodeAt(parent, sub, Slot(t.first, t.num, sub))
  }

  /** The three animation sets of a sequence that index nodes get a
      cleared bit at index; everything else about the sequence stays. */
  predicate NodeBitsInserted(before: Sequences.Sequence, after: Sequences.Sequence, index: nat)
    requires before.SetsFit() && index < IntegerSet.MaxSetSize
  {
    after.SetsFit() &&
    after == before.(translationMatters := after.translationMatters, rotationMatters := after.rotationMatters,
      scaleMatters := after.scaleMatters) &&
    IntegerSet.Members(after.translationMatters) == IntegerSet.Inserted(IntegerSet.Members(before.translationMatters), index, false) &&
    IntegerSet.Members(after.rotationMatters) == IntegerSet.Inserted(IntegerSet.Members(before.rotationMatters), index, false) &&
    IntegerSet.Members(after.scaleMatters) == IntegerSet.Inserted(IntegerSet.Members(before.scaleMatters), index, false)
  }

  /** `TSIntegerSet::Insert(index, false)` on a set held as its words. */
  method InsertBit(words: seq<Bitwise.Word>, index: nat) returns (r: seq<Bitwise.Word>)
    requires |words| == IntegerSet.MaxSetDWords && index < IntegerSet.MaxSetSize
    ensures |r| == IntegerSet.MaxSetDWords
    ensures IntegerSet.Members(r) == IntegerSet.Inserted(IntegerSet.Members(words), index, false)
  {
    var bitSet := new IntegerSet.TSIntegerSet();
    forall w | 0 <= w < IntegerSet.MaxSetDWords {
      bitSet.bits[w] := words[w];
    }
    assert bitSet.bits[..] == words;
    bitSet.Insert(index, false);
    r := bitSet.bits[..];
  }

  /** The sequence loop of `AddNode`: no sequence animates the new node. */
  method InsertNodeBits(sequences: seq<Sequences.Sequence>, index: nat) returns (r: seq<Sequences.Sequence>)
    requires forall i :: 0 <= i < |sequences| ==> sequences[i].SetsFit()
    requires index < IntegerSet.MaxSetSize
    ensures |r| == |sequences|
    ensures forall i :: 0 <= i < |sequences| ==> NodeBitsInserted(sequences[i], r[i], index)
  {
    r := sequences;
    var i := 0;
    while i < |r|
      invariant i <= |r| == |sequences|
      invariant forall j :: 0 <= j < i ==> NodeBitsInserted(sequences[j], r[j], index)
      invariant forall j :: i <= j < |r| ==> r[j] == sequences[j]
    {
      var sq := r[i];
      var t := InsertBit(sq.translationMatters, index);
      var o := InsertBit(sq.rotationMatters, index);
      var c := InsertBit(sq.scaleMatters, index);
      r := r[i := sq.(translationMatters := t, rotationMatters := o, scaleMatters := c)];
      i := i + 1;
    }
  }

  /** Every node's parent index, moved past the insertion point. */
  function BumpParents(nodes: seq<Node>, at: int): (r: seq<Node>)
    ensures |r| == |nodes|
  {
    seq(|nodes|, i requires 0 <= i < |nodes| => nodes[i].(parentIndex := Bump(nodes[i].parentIndex, at)))
  }

  /** Every object's node index, moved past the insertion point. */
  function BumpObjectNodes(objects: seq<Object>, at: int): (r: seq<Object>)
    ensures |r| == |objects|
  {
    seq(|objects|, i requires 0 <= i < |objects| => objects[i].(nodeIndex := Bump(objects[i].nodeIndex, at)))
  }

  function BumpAll(xs: seq<int>, at: int): (r: seq<int>)
    ensures |r| == |xs|
  {
    seq(|xs|, i requires 0 <= i < |xs| => Bump(xs[i], at))
  }

  /** A skin mesh: a mesh whose type code is the skin code and that
      carries the skin members. */
  predicate IsSkin(m: MeshFactory.Made)
  {
    m.MeshObject? && Mesh.GetMeshType(m.mesh.meshType) == Mesh.SkinMeshType && m.mesh.extra.Skin?
  }

  /** A skin mesh's node indices, moved past the insertion point; other
      meshes are left alone. */
  function BumpSkin(m: MeshFactory.Made, at: int): MeshFactory.Made
  {
    if IsSkin(m) then
      var sk := m.mesh.extra.skin;
      MeshFactory.MeshObject(m.mesh.(extra := Mesh.Skin(sk.(nodeIndex := BumpAll(sk.nodeIndex, at)))))
    else m
  }

  function BumpSkins(meshes: seq<MeshFactory.Made>, at: int): (r: seq<MeshFactory.Made>)
    ensures |r| == |meshes|
  {
    seq(|meshes|, i requires 0 <= i < |meshes| => BumpSkin(meshes[i], at))
  }

  /** The parent fix-up loop of `AddNode`. */
  method BumpParentLoop(nodes: seq<Node>, at: int) returns (r: seq<Node>)
    ensures r == BumpParents(nodes, at)
  {
    r := nodes;
    var i := 0;
    while i < |r|
      invariant i <= |r| == |nodes|
      invariant forall j :: 0 <= j < |r| ==> r[j] == if j < i then BumpParents(nodes, at)[j] else nodes[j]
    {
      if r[i].parentIndex >= at {
        r := r[i := r[i].(parentIndex := r[i].parentIndex + 1)];
      }
      i := i + 1;
    }
  }

  /** The object fix-up loop of `AddNode`. */
  method BumpObjectLoop(objects: seq<Object>, at: int) returns (r: seq<Object>)
    ensures r == BumpObjectNodes(objects, at)
  {
    r := objects;
    var i := 0;
    while i < |r|
      invariant i <= |r| == |objects|
      invariant forall j :: 0 <= j < |r| ==> r[j] == if j < i then BumpObjectNodes(objects, at)[j] else objects[j]
    {
      if r[i].nodeIndex >= at {
        r := r[i := r[i].(nodeIndex := r[i].nodeIndex + 1)];
      }
      i := i + 1;
    }
  }

  /** The inner loop over a skin's node indices. */
  method BumpIndexLoop(xs: seq<int>, at: int) returns (r: seq<int>)
    ensures r == BumpAll(xs, at)
  {
    r := xs;
    var j := 0;
    while j < |r|
      invariant j <= |r| == |xs|
      invariant forall k :: 0 <= k < |r| ==> r[k] == if k < j then Bump(xs[k], at) else xs[k]
    {
      if r[j] >= at {
        r := r[j := r[j] + 1];
      }
      j := j + 1;
    }
  }

  /** The skin fix-up loop of `AddNode`. */
  method BumpSkinLoop(meshes: seq<MeshFactory.Made>, at: int) returns (r: seq<MeshFactory.Made>)
    ensures r == BumpSkins(meshes, at)
  {
    r := meshes;
    var i := 0;
    while i < |r|
      invariant i <= |r| == |meshes|
      invariant forall j :: 0 <= j < |r| ==> r[j] == if j < i then BumpSkin(meshes[j], at) else meshes[j]
    {
      if IsSkin(r[i]) {
        var sk := r[i].mesh.extra.skin;
        var ni := BumpIndexLoop(sk.nodeIndex, at);
        r := r[i := MeshFactory.MeshObject(r[i].mesh.(extra := Mesh.Skin(sk.(nodeIndex := ni))))];
      }
      i := i + 1;
    }
  }

  /** The tables after a planned node insertion: subshape counts and
      starts fixed up, a cleared bit in every sequence's node sets, the
      name interned, the node with its default transform inserted at the
      slot, and every node index at or past the slot (node parents, the
      new node's parent included, object nodes and skin node lists) moved
      up by one. */
  predicate NodeAdded(t: NodeTables, u: NodeTables, name: string, parent: int, sub: nat, at: nat, pos: Point3, rot: Quat16)
    requires NodeTablesFit(t) && sub < |t.num| && at <= |t.nodes| && at < IntegerSet.MaxSetSize
  {
    var (names, nameIndex) := Interned(t.names, name);
    u.num == t.num[sub := t.num[sub] + 1] && u.first == BumpAfter(t.first, sub) &&
    |u.sequences| == |t.sequences| &&
    (forall i :: 0 <= i < |t.sequences| ==> NodeBitsInserted(t.sequences[i], u.sequences[i], at)) &&
    u.names == names &&
    u.nodes == BumpParents(Vector.Insert(t.nodes, at, Node(nameIndex, parent, -1, -1, -1)), at) &&
    u.translations == Vector.Insert(t.translations, at, pos) &&
    u.rotations == Vector.Insert(t.rotations, at, rot) &&
    u.objects == BumpObjectNodes(t.objects, at) &&
    u.meshes == BumpSkins(t.meshes, at)
  }

  method StoreNodeTables(shape: TSShape, u: NodeTables)
    modifies shape`nodes, shape`names, shape`subShapeFirstNode, shape`subShapeNumNodes,
      shape`defaultTranslations, shape`defaultRotations, shape`sequences, shape`objects, shape`meshes
    ensures NodeTablesOf(shape) == u
  {
    shape.nodes, shape.names, shape.subShapeFirstNode, shape.subShapeNumNodes := u.nodes, u.names, u.first, u.num;
    shape.defaultTranslations, shape.defaultRotations := u.translations, u.rotations;
    shape.sequences, shape.objects, shape.meshes := u.sequences, u.objects, u.meshes;
  }

  /** The changes of a planned insertion, on the tables as values. */
  method InsertNode(t: NodeTables, name: string, parent: int, sub: nat, at: nat, pos: Point3, rot: Quat16)
    returns (u: NodeTables)
    requires NodeTablesFit(t) && sub < |t.num| && at <= |t.nodes| && at < IntegerSet.MaxSetSize
    ensures NodeAdded(t, u, name, parent, sub, at, pos, rot)
  {
    var first, num := GrowSubShape(t.first, t.num, sub);
    var sequences := InsertNodeBits(t.sequences, at);
    var (names, nameIndex) := Interned(t.names, name);
    var nodes := Vector.Insert(t.nodes, at, Node(nameIndex, parent, -1, -1, -1));
    nodes := BumpParentLoop(nodes, at);
    var objects := BumpObjectLoop(t.objects, at);
    var meshes := BumpSkinLoop(t.meshes, at);
    u := NodeTables(nodes, names, first, num, Vector.Insert(t.translations, at, pos),
      Vector.Insert(t.rotations, at, rot), sequences, objects, meshes);
  }

  /** `AddNode(name, parent_name, pos, rot)`. The rotation is given already
      quantised. */
  method AddNode(shape: TSShape, name: string, parentName: string, pos: Point3, rot: Quat16) returns (ok: bool)
    requires NodeTablesFit(NodeTablesOf(shape))
    modifies shape`nodes, shape`names, shape`subShapeFirstNode, shape`subShapeNumNodes,
      shape`defaultTranslations, shape`defaultRotations, shape`sequences, shape`objects, shape`meshes
    ensures var t := old(NodeTablesOf(shape));
      var plan := PlanNode(t, name, parentName);
      ok == plan.NodeAt? &&
      (ok ==> NodeAdded(t, NodeTablesOf(shape), name, plan.parent, plan.sub, plan.at, pos, rot)) &&
      (!ok ==> NodeTablesOf(shape) == t)
  {
    var t := NodeTablesOf(shape);
    if |shape.nodes| >= IntegerSet.MaxSetSize {
      return false;
    }
    var existing := FindNodeAt(shape, name);
    if existing >= 0 {
      return false;
    }
    var parent := -1;
    if !CEmpty(parentName) {
      parent := FindNodeAt(shape, parentName);
      if parent < 0 {
        return false;
      }
    }
    var sub := 0;
    if parent >= 0 {
      sub := SubShapeForNode(shape, parent);
    }
    var plan := PlanNode(t, name, parentName);
    assert plan == NodeAt(parent, sub, Slot(t.first, t.num, sub));
    var u := InsertNode(t, name, parent, sub, plan.at, pos, rot);
    StoreNodeTables(shape, u);
    ok := true;
  }

  /** After `AddNode`, every old node is found one place up when it was at
      or past the slot, with its parent index moved the same way, so it
      still names the same parent; the new node sits at the slot under its
      parent with the interned name; default transforms and object nodes
      move with the nodes. */
  lemma NodeAddedKeepsReferences(t: NodeTables, u: NodeTables, name: string, parent: int, sub: nat, at: nat, pos: Point3, rot: Quat16)
    requires NodeTablesFit(t) && sub < |t.num| && at <= |t.nodes| && at < IntegerSet.MaxSetSize
    requires NodeAdded(t, u, name, parent, sub, at, pos, rot)
    ensures |u.nodes| == |t.nodes| + 1
    ensures forall j :: 0 <= j < |t.nodes| ==>
      u.nodes[Bump(j, at)] == t.nodes[j].(parentIndex := Bump(t.nodes[j].parentIndex, at)) &&
      u.translations[Bump(j, at)] == t.translations[j] && u.rotations[Bump(j, at)] == t.rotations[j]
    ensures u.nodes[at] == Node(u.nodes[at].nameIndex, Bump(parent, at), -1, -1, -1)
    ensures u.translations[at] == pos && u.rotations[at] == rot
    ensures t.names <= u.names
    ensures name != [] ==> 0 <= u.nodes[at].nameIndex < |u.names| && u.names[u.nodes[at].nameIndex] == name
    ensures forall i :: 0 <= i < |t.objects| ==>
      u.objects[i] == t.objects[i].(nodeIndex := Bump(t.objects[i].nodeIndex, at))
  {
    if name != [] {
      InternedName(t.names, name);
    }
    var ins := Vector.Insert(t.nodes, at, Node(Interned(t.names, name).1, parent, -1, -1, -1));
    forall j | 0 <= j < |t.nodes|
      ensures u.nodes[Bump(j, at)] == t.nodes[j].(parentIndex := Bump(t.nodes[j].parentIndex, at))
    {
      assert ins[Bump(j, at)] == t.nodes[j];
    }
  }

  /** In every sequence the bit of an old node moves with the node and the
      new node's bit is clear, in each of the three node sets. */
  lemma NodeAddedBits(t: NodeTables, u: NodeTables, name: string, parent: int, sub: nat, at: nat, pos: Point3, rot: Quat16)
    requires NodeTablesFit(t) && sub < |t.num| && at <= |t.nodes| && at < IntegerSet.MaxSetSize
    requires NodeAdded(t, u, name, parent, sub, at, pos, rot) && |t.nodes| < IntegerSet.MaxSetSize
    ensures forall i, j :: 0 <= i < |t.sequences| && 0 <= j < |t.nodes| ==>
      var a, b := t.sequences[i], u.sequences[i];
      IntegerSet.Members(b.translationMatters)[Bump(j, at)] == IntegerSet.Members(a.translationMatters)[j] &&
      IntegerSet.Members(b.rotationMatters)[Bump(j, at)] == IntegerSet.Members(a.rotationMatters)[j] &&
      IntegerSet.Members(b.scaleMatters)[Bump(j, at)] == IntegerSet.Members(a.scaleMatters)[j]
    ensures forall i :: 0 <= i < |t.sequences| ==>
      var b := u.sequences[i];
      !IntegerSet.Members(b.translationMatters)[at] && !IntegerSet.Members(b.rotationMatters)[at] &&
      !IntegerSet.Members(b.scaleMatters)[at]
  {
    forall i, j | 0 <= i < |t.sequences| && 0 <= j < |t.nodes|
      ensures var a, b := t.sequences[i], u.sequences[i];
        IntegerSet.Members(b.translationMatters)[Bump(j, at)] == IntegerSet.Members(a.translationMatters)[j] &&
        IntegerSet.Members(b.rotationMatters)[Bump(j, at)] == IntegerSet.Members(a.rotationMatters)[j] &&
        IntegerSet.Members(b.scaleMatters)[Bump(j, at)] == IntegerSet.Members(a.scaleMatters)[j]
    {
      assert NodeBitsInserted(t.sequences[i], u.sequences[i], at);
      if j >= at {
        assert Bump(j, at) - 1 == j;
      }
    }
  }

  /** `AddNode` at the end of the parent's subshape keeps the tables fit
      for the next `AddNode`, and keeps the subshape ranges in order: every
      node, the new one included, lies in a subshape, and every old node
      stays in its subshape. */
  lemma NodeAddedKeepsFit(t: NodeTables, u: NodeTables, name: string, parent: int, sub: nat, pos: Point3, rot: Quat16)
    requires NodeTablesFit(t) && RangesOrdered(t.first, t.num) && sub < |t.num|
    requires |t.nodes| < IntegerSet.MaxSetSize
    requires NodeAdded(t, u, name, parent, sub, Slot(t.first, t.num, sub), pos, rot)
    ensures NodeTablesFit(u) && RangesOrdered(u.first, u.num)
    ensures InSubShape(u.first, u.num, sub, Slot(t.first, t.num, sub))
    ensures forall k, j :: InSubShape(t.first, t.num, k, j) ==> InSubShape(u.first, u.num, k, Bump(j, Slot(t.first, t.num, sub)))
  {
    var at := Slot(t.first, t.num, sub);
    SlotLands(t.first, t.num, sub, |t.nodes|);
    forall j | 0 <= j < |u.nodes|
      ensures SubShapeOf(u.first, u.num, j) >= 0
    {
      var k: int;
      if j == at {
        k := sub;
      } else {
        var j0 := if j < at then j else j - 1;
        assert Bump(j0, at) == j;
        FirstTrueFacts(Holders(t.first, t.num, j0));
        k := SubShapeOf(t.first, t.num, j0);
        assert Holders(t.first, t.num, j0)[k];
      }
      assert Holders(u.first, u.num, j)[k];
      FirstTrueFacts(Holders(u.first, u.num, j));
    }
    forall k | 0 <= k < |u.first|
      ensures 0 <= u.first[k] && 0 <= u.num[k] && u.first[k] + u.num[k] <= |u.nodes|
    {
    }
    forall k, l | 0 <= k < l < |u.first|
      ensures u.first[k] + u.num[k] <= u.first[l]
    {
      assert t.first[k] + t.num[k] <= t.first[l];
    }
  }

  // ---------------------------------------------------------------------
  // Objects
  // ---------------------------------------------------------------------

  /** The tables `AddObject` reads and changes. */
  datatype ObjectTables = ObjectTables(
    objects: seq<Object>, states: seq<ObjectState>, names: seq<string>,
    first: seq<int>, num: seq<int>, sequences: seq<Sequences.Sequence>)

  function ObjectTablesOf(shape: TSShape): ObjectTables
    reads shape
  {
    ObjectTables(shape.objects, shape.objectStates, shape.names, shape.subShapeFirstObject,
      shape.subShapeNumObjects, shape.sequences)
  }

  /** What `AddObject` relies on: object subshape ranges inside the object
      table and one default state per object. */
  predicate ObjectTablesFit(t: ObjectTables)
  {
    RangesFit(t.first, t.num, |t.objects|) && |t.states| == |t.objects|
  }

  /** The object `AddObject` sets up: no meshes yet, its mesh range
      starting where the previous object's ends (at 0 for the first), node,
      sibling and decal 0. */
  function NewObject(objects: seq<Object>, at: nat, nameIndex: int): Object
    requires at <= |objects|
  {
    var start := if at == 0 then 0 else objects[at - 1].startMeshIndex + objects[at - 1].numMeshes;
    Object(nameIndex, 0, start, 0, 0, 0)
  }

  /** The default state of a new object: visible, frame 0, material
      frame 0. */
  const NewObjectState := ObjectState(Float32.PlusOne, 0, 0)

  /** Every sequence's object states start one later. */
  function BumpBaseStates(sequences: seq<Sequences.Sequence>): (r: seq<Sequences.Sequence>)
    ensures |r| == |sequences|
  {
    seq(|sequences|, i requires 0 <= i < |sequences| =>
      sequences[i].(baseObjectState := sequences[i].baseObjectState + 1))
  }

  /** The sequence loop of `AddObject`. */
  method BumpBaseLoop(sequences: seq<Sequences.Sequence>) returns (r: seq<Sequences.Sequence>)
    ensures r == BumpBaseStates(sequences)
  {
    r := sequences;
    var i := 0;
    while i < |r|
      invariant i <= |r| == |sequences|
      invariant forall j :: 0 <= j < |r| ==> r[j] == if j < i then BumpBaseStates(sequences)[j] else sequences[j]
    {
      r := r[i := r[i].(baseObjectState := r[i].baseObjectState + 1)];
      i := i + 1;
    }
  }

  /** The tables after an object is added at the end of subshape sub. */
  function ObjectAdded(t: ObjectTables, objName: string, sub: nat): (u: ObjectTables)
    requires ObjectTablesFit(t) && sub < |t.num|
  {
    var at := Slot(t.first, t.num, sub);
    var (names, nameIndex) := Interned(t.names, objName);
    ObjectTables(
      Vector.Insert(t.objects, at, NewObject(t.objects, at, nameIndex)),
      Vector.Insert(t.states, at, NewObjectState),
      names, BumpAfter(t.first, sub), t.num[sub := t.num[sub] + 1],
      BumpBaseStates(t.sequences))
  }

  method StoreObjectTables(shape: TSShape, u: ObjectTables)
    modifies shape`objects, shape`objectStates, shape`names, shape`subShapeFirstObject,
      shape`subShapeNumObjects, shape`sequences
    ensures ObjectTablesOf(shape) == u
  {
    shape.objects, shape.objectStates, shape.names := u.objects, u.states, u.names;
    shape.subShapeFirstObject, shape.subShapeNumObjects, shape.sequences := u.first, u.num, u.sequences;
  }

  /** `AddObject(obj_name, sub_shape_index)`: the object goes at the end of
      the subshape's object range, and that index is returned. */
  method AddObject(shape: TSShape, objName: string, sub: nat) returns (objIndex: int)
    requires ObjectTablesFit(ObjectTablesOf(shape)) && sub < |shape.subShapeNumObjects|
    modifies shape`objects, shape`objectStates, shape`names, shape`subShapeFirstObject,
      shape`subShapeNumObjects, shape`sequences
    ensures var t := old(ObjectTablesOf(shape));
      objIndex == Slot(t.first, t.num, sub) && ObjectTablesOf(shape) == ObjectAdded(t, objName, sub)
  {
    var t := ObjectTablesOf(shape);
    objIndex := Slot(t.first, t.num, sub);
    var first, num := GrowSubShape(t.first, t.num, sub);
    var nameIndex := AddName(shape, objName);
    var objects := Vector.Insert(t.objects, objIndex, NewObject(t.objects, objIndex, nameIndex));
    var states := Vector.Insert(t.states, objIndex, NewObjectState);
    var sequences := BumpBaseLoop(t.sequences);
    StoreObjectTables(shape, ObjectTables(objects, states, shape.names, first, num, sequences));
  }

  /** After `AddObject` the tables stay fit and ordered, the new object
      lies in its subshape and every old object in its own; old objects and
      their default states move with the insertion; the new object has an
      empty mesh range beginning where the previous object's ends; and
      every sequence's object states start one later. */
  lemma ObjectAddedKeepsFit(t: ObjectTables, objName: string, sub: nat)
    requires ObjectTablesFit(t) && RangesOrdered(t.first, t.num) && sub < |t.num|
    ensures var u, at := ObjectAdded(t, objName, sub), Slot(t.first, t.num, sub);
      ObjectTablesFit(u) && RangesOrdered(u.first, u.num) &&
      InSubShape(u.first, u.num, sub, at) &&
      (forall k, j :: InSubShape(t.first, t.num, k, j) ==> InSubShape(u.first, u.num, k, Bump(j, at))) &&
      (forall j :: 0 <= j < |t.objects| ==> u.objects[Bump(j, at)] == t.objects[j] && u.states[Bump(j, at)] == t.states[j]) &&
      u.objects[at].numMeshes == 0 &&
      (at > 0 ==> u.objects[at].startMeshIndex == t.objects[at - 1].startMeshIndex + t.objects[at - 1].numMeshes) &&
      (forall i :: 0 <= i < |t.sequences| ==> u.sequences[i].baseObjectState == t.sequences[i].baseObjectState + 1)
  {
    var u, at := ObjectAdded(t, objName, sub), Slot(t.first, t.num, sub);
    SlotLands(t.first, t.num, sub, |t.objects|);
    forall k | 0 <= k < |u.first|
      ensures 0 <= u.first[k] && 0 <= u.num[k] && u.first[k] + u.num[k] <= |u.objects|
    {
    }
    forall k, l | 0 <= k < l < |u.first|
      ensures u.first[k] + u.num[k] <= u.first[l]
    {
      assert t.first[k] + t.num[k] <= t.first[l];
    }
  }

  // ---------------------------------------------------------------------
  // Meshes of an object
  // ---------------------------------------------------------------------

  /** n null meshes. */
  function Nulls(n: nat): (r: seq<MeshFactory.Made>)
    ensures |r| == n && forall i :: 0 <= i < n ==> r[i] == MeshFactory.NoMesh
  {
    seq(n, _ => MeshFactory.NoMesh)
  }

  /** pad null meshes placed at index. */
  function Padded(meshes: seq<MeshFactory.Made>, index: nat, pad: nat): (r: seq<MeshFactory.Made>)
    requires index <= |meshes|
    ensures |r| == |meshes| + pad
  {
    meshes[..index] + Nulls(pad) + meshes[index..]
  }

  /** A mesh whose type code is the skin code. */
  predicate SkinTyped(m: MeshFactory.Made)
  {
    m.MeshObject? && Mesh.GetMeshType(m.mesh.meshType) == Mesh.SkinMeshType
  }

  /** How many nulls `AddMeshToObject` pads with: only for a real mesh,
      enough to make the object's mesh list reach meshIndex. */
  function PadCount(numMeshes: int, meshIndex: int, mesh: MeshFactory.Made): nat
  {
    if mesh != MeshFactory.NoMesh && meshIndex > numMeshes then meshIndex - numMeshes else 0
  }

  /** What `AddMeshToObject` relies on: the object exists, its mesh range
      lies in the mesh table, and the position asked for can be reached
      (padding reaches any position past the range for a real mesh). */
  predicate MeshSlotFits(objects: seq<Object>, meshes: seq<MeshFactory.Made>, objIndex: int, meshIndex: int, mesh: MeshFactory.Made)
  {
    0 <= objIndex < |objects| && 0 <= meshIndex &&
    var o := objects[objIndex];
    0 <= o.startMeshIndex && 0 <= o.numMeshes && o.startMeshIndex + o.numMeshes <= |meshes| &&
    (mesh != MeshFactory.NoMesh || o.startMeshIndex + meshIndex <= |meshes|)
  }

  /** The mesh table after `AddMeshToObject`: the padding at the end of
      the object's range, then the mesh at its position in the range. */
  function MeshesAdded(objects: seq<Object>, meshes: seq<MeshFactory.Made>, objIndex: int, meshIndex: int, mesh: MeshFactory.Made): (r: seq<MeshFactory.Made>)
    requires MeshSlotFits(objects, meshes, objIndex, meshIndex, mesh)
    ensures |r| == |meshes| + PadCount(objects[objIndex].numMeshes, meshIndex, mesh) + 1
  {
    var o := objects[objIndex];
    var padded := Padded(meshes, o.startMeshIndex + o.numMeshes, PadCount(o.numMeshes, meshIndex, mesh));
    Vector.Insert(padded, o.startMeshIndex + meshIndex, mesh)
  }

  /** The object table after `AddMeshToObject`: the object counts the new
      meshes and leaves its node for a skin mesh; every other object whose
      range starts at or after the object's start moves up by the number of
      meshes added. */
  function ObjectsAfterMesh(objects: seq<Object>, objIndex: int, meshIndex: int, mesh: MeshFactory.Made): (r: seq<Object>)
    requires 0 <= objIndex < |objects|
    ensures |r| == |objects|
  {
    var o := objects[objIndex];
    var grown := PadCount(o.numMeshes, meshIndex, mesh) + 1;
    seq(|objects|, i requires 0 <= i < |objects| =>
      if i == objIndex then
        o.(numMeshes := o.numMeshes + grown, nodeIndex := if SkinTyped(mesh) then -1 else o.nodeIndex)
      else if objects[i].startMeshIndex >= o.startMeshIndex then
        objects[i].(startMeshIndex := objects[i].startMeshIndex + grown)
      else objects[i])
  }

  /** One more null at the end of the padding. */
  lemma PadStep(meshes: seq<MeshFactory.Made>, index: nat, pad: nat)
    requires index <= |meshes|
    ensures Vector.Insert(Padded(meshes, index, pad), index + pad, MeshFactory.NoMesh) == Padded(meshes, index, pad + 1)
  {
    var a := Vector.Insert(Padded(meshes, index, pad), index + pad, MeshFactory.NoMesh);
    var b := Padded(meshes, index, pad + 1);
    assert |a| == |b|;
    forall i | 0 <= i < |a|
      ensures a[i] == b[i]
    {
      if i < index {
      } else if i <= index + pad {
      } else {
        assert a[i] == Padded(meshes, index, pad)[i - 1];
      }
    }
  }

  /** The padding loop of `AddMeshToObject`. */
  method PadLoop(meshes: seq<MeshFactory.Made>, index: nat, count: nat, target: int) returns (r: seq<MeshFactory.Made>)
    requires index <= |meshes|
    ensures r == Padded(meshes, index, if target > count then target - count else 0)
  {
    r := meshes;
    assert r == Padded(meshes, index, 0);
    var i := count;
    while i < target
      invariant count <= i && (i > count ==> i <= target)
      invariant r == Padded(meshes, index, i - count)
    {
      PadStep(meshes, index, i - count);
      r := Vector.Insert(r, index + (i - count), MeshFactory.NoMesh);
      i := i + 1;
    }
  }

  /** The object fix-up loop of `AddMeshToObject`. */
  method ShiftObjectsLoop(objects: seq<Object>, objIndex: int, start: int, grown: int) returns (r: seq<Object>)
    ensures |r| == |objects|
    ensures forall i :: 0 <= i < |objects| ==>
      r[i] == if i != objIndex && objects[i].startMeshIndex >= start
        then objects[i].(startMeshIndex := objects[i].startMeshIndex + grown) else objects[i]
  {
    r := objects;
    var i := 0;
    while i < |r|
      invariant i <= |r| == |objects|
      invariant forall j :: 0 <= j < |objects| ==>
        r[j] == if j < i && j != objIndex && objects[j].startMeshIndex >= start
          then objects[j].(startMeshIndex := objects[j].startMeshIndex + grown) else objects[j]
    {
      if i != objIndex && r[i].startMeshIndex >= start {
        r := r[i := r[i].(startMeshIndex := r[i].startMeshIndex + grown)];
      }
      i := i + 1;
    }
  }

  /** `AddMeshToObject(obj_index, mesh_index, mesh)`. */
  method AddMeshToObject(shape: TSShape, objIndex: int, meshIndex: int, mesh: MeshFactory.Made)
    requires MeshSlotFits(shape.objects, shape.meshes, objIndex, meshIndex, mesh)
    modifies shape`meshes, shape`objects
    ensures shape.meshes == MeshesAdded(old(shape.objects), old(shape.meshes), objIndex, meshIndex, mesh)
    ensures shape.objects == ObjectsAfterMesh(old(shape.objects), objIndex, meshIndex, mesh)
  {
    var o := shape.objects[objIndex];
    var meshes := shape.meshes;
    var numMeshes := o.numMeshes;
    ghost var pad := PadCount(o.numMeshes, meshIndex, mesh);
    if mesh != MeshFactory.NoMesh {
      meshes := PadLoop(meshes, o.startMeshIndex + o.numMeshes, o.numMeshes, meshIndex);
      numMeshes := if meshIndex > o.numMeshes then meshIndex else o.numMeshes;
    } else {
      assert meshes == Padded(meshes, o.startMeshIndex + o.numMeshes, 0);
    }
    assert meshes == Padded(shape.meshes, o.startMeshIndex + o.numMeshes, pad);
    meshes := Vector.Insert(meshes, o.startMeshIndex + meshIndex, mesh);
    numMeshes := numMeshes + 1;
    var o' := o.(numMeshes := numMeshes);
    if SkinTyped(mesh) {
      o' := o'.(nodeIndex := -1);
    }
    var objects := shape.objects[objIndex := o'];
    var shifted := ShiftObjectsLoop(objects, objIndex, o.startMeshIndex, numMeshes - o.numMeshes);
    ShiftedAfterMesh(shape.objects, objIndex, meshIndex, mesh, objects, numMeshes - o.numMeshes, shifted);
    shape.meshes, shape.objects := meshes, shifted;
  }

  /** The fix-up loop run on the table with the object updated gives the
      object table `ObjectsAfterMesh` describes. */
  lemma ShiftedAfterMesh(objects: seq<Object>, objIndex: int, meshIndex: int, mesh: MeshFactory.Made,
                         updated: seq<Object>, grown: int, r: seq<Object>)
    requires 0 <= objIndex < |objects|
    requires grown == PadCount(objects[objIndex].numMeshes, meshIndex, mesh) + 1
    requires updated == objects[objIndex := objects[objIndex].(numMeshes := objects[objIndex].numMeshes + grown,
      nodeIndex := if SkinTyped(mesh) then -1 else objects[objIndex].nodeIndex)]
    requires |r| == |updated|
    requires forall i :: 0 <= i < |updated| ==>
      r[i] == if i != objIndex && updated[i].startMeshIndex >= objects[objIndex].startMeshIndex
        then updated[i].(startMeshIndex := updated[i].startMeshIndex + grown) else updated[i]
    ensures r == ObjectsAfterMesh(objects, objIndex, meshIndex, mesh)
  {
  }

  /** A slice before the insertion point is untouched by `Insert`. */
  lemma InsertHead<T>(v: seq<T>, index: nat, x: T, a: nat, b: nat)
    requires index <= |v| && a <= b <= index
    ensures Vector.Insert(v, index, x)[a..b] == v[a..b]
  {
  }

  /** A slice from the insertion point on moves up by one under `Insert`. */
  lemma InsertTail<T>(v: seq<T>, index: nat, x: T, a: nat, b: nat)
    requires index <= a <= b <= |v|
    ensures Vector.Insert(v, index, x)[a + 1..b + 1] == v[a..b]
  {
    var r := Vector.Insert(v, index, x);
    assert forall p :: a <= p < b ==> r[p + 1] == v[p];
  }

  /** The padding leaves what is before it, and is made of nulls. */
  lemma PaddedHead(meshes: seq<MeshFactory.Made>, index: nat, pad: nat)
    requires index <= |meshes|
    ensures Padded(meshes, index, pad)[..index] == meshes[..index]
    ensures Padded(meshes, index, pad)[index..index + pad] == Nulls(pad)
  {
  }

  /** A slice after the padding moves up by the padding. */
  lemma PaddedTail(meshes: seq<MeshFactory.Made>, index: nat, pad: nat, a: nat, b: nat)
    requires index <= a <= b <= |meshes|
    ensures Padded(meshes, index, pad)[a + pad..b + pad] == meshes[a..b]
  {
    var r := Padded(meshes, index, pad);
    assert forall p :: a <= p < b ==> r[p + pad] == meshes[p];
  }

  /** `AddMeshToObject` grows the object's range by the meshes added, puts
      the mesh at the position and keeps the object's meshes before it. */
  lemma MeshAddedOwnRange(objects: seq<Object>, meshes: seq<MeshFactory.Made>, objIndex: int, meshIndex: int, mesh: MeshFactory.Made)
    requires MeshSlotFits(objects, meshes, objIndex, meshIndex, mesh)
    ensures var o, os := objects[objIndex], ObjectsAfterMesh(objects, objIndex, meshIndex, mesh);
      os[objIndex].startMeshIndex == o.startMeshIndex &&
      os[objIndex].numMeshes == o.numMeshes + PadCount(o.numMeshes, meshIndex, mesh) + 1
    ensures var o, ms := objects[objIndex], MeshesAdded(objects, meshes, objIndex, meshIndex, mesh);
      var kept := if meshIndex < o.numMeshes then meshIndex else o.numMeshes;
      ms[o.startMeshIndex + meshIndex] == mesh &&
      ms[o.startMeshIndex..o.startMeshIndex + kept] == meshes[o.startMeshIndex..o.startMeshIndex + kept]
  {
    var o := objects[objIndex];
    var start, n := o.startMeshIndex, o.numMeshes;
    var pad := PadCount(n, meshIndex, mesh);
    var padded := Padded(meshes, start + n, pad);
    var kept := if meshIndex < n then meshIndex else n;
    PaddedHead(meshes, start + n, pad);
    InsertHead(padded, start + meshIndex, mesh, start, start + kept);
    SliceInPrefix(padded, start + n, start, start + kept);
    SliceInPrefix(meshes, start + n, start, start + kept);
  }

  /** The object's meshes from the position on move up by one, and nulls
      fill the gap where the range was padded. */
  lemma MeshAddedOwnShift(objects: seq<Object>, meshes: seq<MeshFactory.Made>, objIndex: int, meshIndex: int, mesh: MeshFactory.Made)
    requires MeshSlotFits(objects, meshes, objIndex, meshIndex, mesh)
    ensures var o, ms := objects[objIndex], MeshesAdded(objects, meshes, objIndex, meshIndex, mesh);
      var start, n := o.startMeshIndex, o.numMeshes;
      (meshIndex < n ==> ms[start + meshIndex + 1..start + n + 1] == meshes[start + meshIndex..start + n]) &&
      (mesh != MeshFactory.NoMesh && n < meshIndex ==> ms[start + n..start + meshIndex] == Nulls(meshIndex - n))
  {
    var o := objects[objIndex];
    var start, n := o.startMeshIndex, o.numMeshes;
    var pad := PadCount(n, meshIndex, mesh);
    var padded := Padded(meshes, start + n, pad);
    PaddedHead(meshes, start + n, pad);
    if meshIndex < n {
      InsertTail(padded, start + meshIndex, mesh, start + meshIndex, start + n);
      assert padded[start + meshIndex..start + n] == padded[..start + n][start + meshIndex..start + n];
      assert meshes[start + meshIndex..start + n] == meshes[..start + n][start + meshIndex..start + n];
    }
    if mesh != MeshFactory.NoMesh && n < meshIndex {
      InsertHead(padded, start + meshIndex, mesh, start + n, start + meshIndex);
    }
  }

  /** An object whose mesh range ends before the object's start keeps its
      range and its meshes. */
  lemma MeshAddedBefore(objects: seq<Object>, meshes: seq<MeshFactory.Made>, objIndex: int, meshIndex: int, mesh: MeshFactory.Made, i: int)
    requires MeshSlotFits(objects, meshes, objIndex, meshIndex, mesh)
    requires 0 <= i < |objects| && i != objIndex
    requires 0 <= objects[i].startMeshIndex && 0 <= objects[i].numMeshes
    requires objects[i].startMeshIndex < objects[objIndex].startMeshIndex
    requires objects[i].startMeshIndex + objects[i].numMeshes <= objects[objIndex].startMeshIndex
    ensures ObjectsAfterMesh(objects, objIndex, meshIndex, mesh)[i] == objects[i]
    ensures var s, m := objects[i].startMeshIndex, objects[i].numMeshes;
      MeshesAdded(objects, meshes, objIndex, meshIndex, mesh)[s..s + m] == meshes[s..s + m]
  {
    var o := objects[objIndex];
    var start, n := o.startMeshIndex, o.numMeshes;
    var pad := PadCount(n, meshIndex, mesh);
    var padded := Padded(meshes, start + n, pad);
    var s, m := objects[i].startMeshIndex, objects[i].numMeshes;
    PaddedHead(meshes, start + n, pad);
    InsertHead(padded, start + meshIndex, mesh, s, s + m);
    SliceInPrefix(padded, start + n, s, s + m);
    SliceInPrefix(meshes, start + n, s, s + m);
  }

  /** An object whose mesh range begins after the object's range moves up
      by the number of meshes added, together with its meshes (for a real
      mesh, or a position inside the object's range). */
  lemma MeshAddedAfter(objects: seq<Object>, meshes: seq<MeshFactory.Made>, objIndex: int, meshIndex: int, mesh: MeshFactory.Made, i: int)
    requires MeshSlotFits(objects, meshes, objIndex, meshIndex, mesh)
    requires 0 <= i < |objects| && i != objIndex && 0 <= objects[i].numMeshes
    requires objects[objIndex].startMeshIndex + objects[objIndex].numMeshes <= objects[i].startMeshIndex
    requires objects[i].startMeshIndex + objects[i].numMeshes <= |meshes|
    requires mesh != MeshFactory.NoMesh || meshIndex <= objects[objIndex].numMeshes
    ensures var grown := PadCount(objects[objIndex].numMeshes, meshIndex, mesh) + 1;
      ObjectsAfterMesh(objects, objIndex, meshIndex, mesh)[i] ==
        objects[i].(startMeshIndex := objects[i].startMeshIndex + grown)
    ensures var s, m, grown := objects[i].startMeshIndex, objects[i].numMeshes,
        PadCount(objects[objIndex].numMeshes, meshIndex, mesh) + 1;
      MeshesAdded(objects, meshes, objIndex, meshIndex, mesh)[s + grown..s + grown + m] == meshes[s..s + m]
  {
    var o := objects[objIndex];
    var start, n := o.startMeshIndex, o.numMeshes;
    var pad := PadCount(n, meshIndex, mesh);
    var padded := Padded(meshes, start + n, pad);
    var s, m := objects[i].startMeshIndex, objects[i].numMeshes;
    assert start + meshIndex <= start + n + pad;
    PaddedTail(meshes, start + n, pad, s, s + m);
    InsertTail(padded, start + meshIndex, mesh, s + pad, s + pad + m);
  }

  /** A null mesh asked for past the end of the object's range is not
      padded, so it lands in the next object's range: with objects of one
      and two meshes, a null at position 2 of the first pushes the second
      object's first mesh out of its range. */
  lemma NullPastRangeDisplaces()
    ensures var objects := [Object(0, 1, 0, 0, 0, 0), Object(1, 2, 1, 0, 0, 0)];
      var a, b, c := MeshFactory.MeshObject(Mesh.Mesh(0, -1, 0, 0, 0, [], [], 0, [], [], [], [], [], [], Mesh.Standard)),
        MeshFactory.MeshObject(Mesh.Mesh(0, 0, 0, 0, 0, [], [], 0, [], [], [], [], [], [], Mesh.Standard)),
        MeshFactory.MeshObject(Mesh.Mesh(0, 1, 0, 0, 0, [], [], 0, [], [], [], [], [], [], Mesh.Standard));
      var meshes := [a, b, c];
      MeshSlotFits(objects, meshes, 0, 2, MeshFactory.NoMesh) &&
      var ms, os := MeshesAdded(objects, meshes, 0, 2, MeshFactory.NoMesh), ObjectsAfterMesh(objects, 0, 2, MeshFactory.NoMesh);
      os[1].startMeshIndex == 2 && ms[os[1].startMeshIndex] == MeshFactory.NoMesh && ms[1] == b
  {
  }

  // ---------------------------------------------------------------------
  // Attaching and moving
  // ---------------------------------------------------------------------

  /** The object table after `SetObjectNode(obj_name, node_name)`: None
      when no object has the name, or a node name is given and no node has
      it; otherwise the object's node becomes that node, or -1 for an empty
      node name. */
  function ObjectNodeSet(objects: seq<Object>, nodes: seq<Node>, names: seq<string>, objName: string, nodeName: string): (r: Option<seq<Object>>)
    ensures r.Some? ==> |r.value| == |objects|
  {
    var o := ObjectLookup(objects, names, objName);
    var n := if nodeName == [] then -1 else NodeLookup(nodes, names, nodeName);
    if o < 0 || (nodeName != [] && n < 0) then None
    else Some(objects[o := objects[o].(nodeIndex := n)])
  }

  /** `SetObjectNode(obj_name, node_name)`. */
  method SetObjectNode(shape: TSShape, objName: string, nodeName: string) returns (ok: bool)
    modifies shape`objects
    ensures var r := ObjectNodeSet(old(shape.objects), shape.nodes, shape.names, objName, nodeName);
      ok == r.Some? && shape.objects == if ok then r.value else old(shape.objects)
  {
    var objIndex := FindObjectAt(shape, objName);
    if objIndex < 0 {
      return false;
    }
    var nodeIndex: int;
    if nodeName == [] {
      nodeIndex := -1;
    } else {
      nodeIndex := FindNodeAt(shape, nodeName);
      if nodeIndex < 0 {
        return false;
      }
    }
    shape.objects := shape.objects[objIndex := shape.objects[objIndex].(nodeIndex := nodeIndex)];
    ok := true;
  }

  /** A successful `SetObjectNode` attaches the first object with the name
      to the first node with the other name (to none for an empty one) and
      leaves every other object alone; it fails exactly when one of the two
      names is missing. */
  lemma ObjectNodeSetFacts(objects: seq<Object>, nodes: seq<Node>, names: seq<string>, objName: string, nodeName: string)
    ensures var r := ObjectNodeSet(objects, nodes, names, objName, nodeName);
      var o := ObjectLookup(objects, names, objName);
      (r.None? <==> o < 0 || (nodeName != [] && NodeLookup(nodes, names, nodeName) < 0)) &&
      (r.Some? ==>
        0 <= o < |objects| && objects[o].nameIndex == FirstName(names, objName) &&
        (forall j :: 0 <= j < o ==> objects[j].nameIndex != FirstName(names, objName)) &&
        (forall j :: 0 <= j < |objects| && j != o ==> r.value[j] == objects[j]) &&
        var n := r.value[o].nodeIndex;
        r.value[o] == objects[o].(nodeIndex := n) &&
        (nodeName == [] ==> n == -1) &&
        (nodeName != [] ==>
          0 <= n < |nodes| && nodes[n].nameIndex == FirstName(names, nodeName) &&
          0 <= FirstName(names, nodeName) && names[FirstName(names, nodeName)] == nodeName))
  {
    var s := ObjectsNamed(objects, FirstName(names, objName));
    FirstTrueFacts(s);
    FirstNameFacts(names, objName);
    assert forall j :: 0 <= j < |objects| ==> s[j] == (objects[j].nameIndex == FirstName(names, objName));
    NodeLookupFacts(nodes, names, nodeName);
  }
}
