/**
 * MeshFit: the integer side of collision-mesh fitting. `InitSourceGeometry`
 * gathers the source geometry (the meshes of the highest detail level, or the
 * first mesh of one object) into one vertex list and one triangle list;
 * `AddSourceMesh` turns each primitive into triangles (triangle lists as
 * they are, anything else walked as a strip) and offsets the new indices
 * past the vertices already gathered; `CreateTriMesh` makes a mesh of the
 * triangles a fit produces, with the winding reversed; the k-DOP fits
 * choose their planes from five families of cube directions.
 *
 * The fits themselves (boxes, spheres, capsules, convex hulls) and every
 * floating-point step (node world transforms, normals) are parameters.
 */
module MeshFit {
  import opened Bytes
  import Bitwise
  import Float32
  import opened ShapeRecords
  import Mesh
  import MeshFactory
  import Shape
  import ShapeEdit
  import Vector

  /** Unsigned 32-bit arithmetic wraps modulo this. */
  const Mod32: int := 0x1_0000_0000

  // ---------------------------------------------------------------------
  // Primitives into triangles
  // ---------------------------------------------------------------------

  /** `(mat_index & kTypeMask) == kTriangles` on the signed material word:
      neither the strip nor the fan bit is set. */
  predicate IsTriangleList(matIndex: int)
  {
    Mesh.ElementType(matIndex % Mod32) == 0
  }

  /** What the walk over a primitive reads lies inside the index list: a
      triangle list its num_elements indices from start, a strip its first
      two indices and the rest of its num_elements. */
  predicate PrimitiveFits(p: Mesh.Primitive, n: int)
  {
    0 <= p.start &&
    if IsTriangleList(p.matIndex) then 0 <= p.numElements && p.start + p.numElements <= n
    else p.start + 2 <= n && p.start + p.numElements <= n
  }

  predicate PrimitivesFit(m: Mesh.Mesh)
  {
    forall i :: 0 <= i < |m.primitives| ==> PrimitiveFits(m.primitives[i], |m.indices|)
  }

  /** The triangle the strip walk forms at step j: the window
      a[s + j - 2], a[s + j - 1], a[s + j], with the first two swapped on odd
      steps so that every triangle keeps the strip's winding. */
  function StripTriangle(a: seq<Bitwise.Word>, s: nat, j: nat): (t: seq<Bitwise.Word>)
    requires 2 <= j && s + j < |a|
    ensures |t| == 3
  {
    if j % 2 == 0 then [a[s + j - 2], a[s + j - 1], a[s + j]]
    else [a[s + j - 1], a[s + j - 2], a[s + j]]
  }

  /** A triangle with a repeated index. */
  predicate Degenerate(t: seq<Bitwise.Word>)
    requires |t| == 3
  {
    t[0] == t[1] || t[0] == t[2] || t[1] == t[2]
  }

  /** The indices the strip walk from start s emits for steps 2 to k - 1:
      each step's triangle unless it is degenerate. */
  function StripUpTo(a: seq<Bitwise.Word>, s: nat, k: int): (r: seq<Bitwise.Word>)
    requires s + k <= |a|
    decreases k
  {
    if k <= 2 then []
    else
      var t := StripTriangle(a, s, k - 1);
      StripUpTo(a, s, k - 1) + (if Degenerate(t) then [] else t)
  }

  /** The indices a primitive adds: a triangle list verbatim, anything else
      walked as a strip. */
  function PrimitiveIndices(a: seq<Bitwise.Word>, p: Mesh.Primitive): seq<Bitwise.Word>
    requires PrimitiveFits(p, |a|)
  {
    if IsTriangleList(p.matIndex) then a[p.start..p.start + p.numElements]
    else StripUpTo(a, p.start, p.numElements)
  }

  /** The indices the first k primitives of a mesh add, in order. */
  function MeshIndicesUpTo(m: Mesh.Mesh, k: nat): seq<Bitwise.Word>
    requires PrimitivesFit(m) && k <= |m.primitives|
  {
    if k == 0 then []
    else MeshIndicesUpTo(m, k - 1) + PrimitiveIndices(m.indices, m.primitives[k - 1])
  }

  /** The triangle list of a whole mesh. */
  function MeshIndices(m: Mesh.Mesh): seq<Bitwise.Word>
    requires PrimitivesFit(m)
  {
    MeshIndicesUpTo(m, |m.primitives|)
  }

  /** Each index moved up by n, in unsigned 32-bit arithmetic. */
  function Offset(v: seq<Bitwise.Word>, n: nat): (r: seq<Bitwise.Word>)
    ensures |r| == |v|
  {
    seq(|v|, i requires 0 <= i < |v| => (v[i] + n) % Mod32)
  }

  /** Vertex j of a mesh, from its three float words. */
  function VertexOf(m: Mesh.Mesh, j: nat): Point3
  {
    Point3(Float32.OfWord(At(m.verts, 3 * j)), Float32.OfWord(At(m.verts, 3 * j + 1)), Float32.OfWord(At(m.verts, 3 * j + 2)))
  }

  /** `verts_.size()` of a mesh: its vertex count. */
  function VertexCount(m: Mesh.Mesh): nat
  {
    |m.verts| / 3
  }

  /** The vertices of a mesh, each carried by the world transform of the
      node its object hangs from (`GetNodeWorldTransform`, then `MulP`). */
  function Placed(m: Mesh.Mesh, world: (int, Point3) -> Point3, node: int): (ps: seq<Point3>)
    ensures |ps| == VertexCount(m)
  {
    seq(VertexCount(m), j requires 0 <= j < VertexCount(m) => world(node, VertexOf(m, j)))
  }

  // ---------------------------------------------------------------------
  // Properties of the strip walk and the offsets
  // ---------------------------------------------------------------------

  /** A strip of k indices gives whole triangles, at most k - 2 of them. */
  lemma {:induction false} StripCount(a: seq<Bitwise.Word>, s: nat, k: int)
    requires s + k <= |a|
    ensures |StripUpTo(a, s, k)| % 3 == 0
    ensures |StripUpTo(a, s, k)| <= 3 * (if k <= 2 then 0 else k - 2)
    decreases k
  {
    if k > 2 {
      StripCount(a, s, k - 1);
    }
  }

  /** One step of the walk: the triangle at step j, if it has three
      different indices, follows the earlier ones. */
  lemma StripStep(a: seq<Bitwise.Word>, s: nat, j: nat, t: seq<Bitwise.Word>)
    requires 2 <= j && s + j < |a|
    requires t == StripTriangle(a, s, j)
    ensures Degenerate(t) ==> StripUpTo(a, s, j + 1) == StripUpTo(a, s, j)
    ensures !Degenerate(t) ==> StripUpTo(a, s, j + 1) == StripUpTo(a, s, j) + t
  {
  }

  /** The window the source keeps before step j: idx2 is the index before
      step j, and idx0, idx1 hold the two before it in the order the
      toggle intoFirst dictates (idx1 is not yet written before step 4). */
  ghost predicate Window(a: seq<Bitwise.Word>, s: nat, j: nat, idx0: Bitwise.Word, idx1: Bitwise.Word, idx2: Bitwise.Word, intoFirst: bool)
    requires 2 <= j && s + j <= |a|
  {
    idx2 == a[s + j - 1] &&
    (intoFirst <==> j % 2 == 1) &&
    (!intoFirst ==> idx0 == a[s + j - 2] && (j >= 4 ==> idx1 == a[s + j - 3])) &&
    (intoFirst ==> idx0 == a[s + j - 3] && idx1 == a[s + j - 2])
  }

  /** One slide of the window: the slot the toggle names takes idx2, and
      idx2 takes the next index; the window, in its order, is then the
      step's triangle and the window of the next step. */
  lemma WindowSlides(a: seq<Bitwise.Word>, s: nat, j: nat, w0: Bitwise.Word, w1: Bitwise.Word, w2: Bitwise.Word, intoFirst: bool,
                     idx0: Bitwise.Word, idx1: Bitwise.Word, idx2: Bitwise.Word)
    requires 2 <= j && s + j < |a| && Window(a, s, j, w0, w1, w2, intoFirst)
    requires idx0 == (if intoFirst then w2 else w0) && idx1 == (if intoFirst then w1 else w2) && idx2 == a[s + j]
    ensures [idx0, idx1, idx2] == StripTriangle(a, s, j)
    ensures Window(a, s, j + 1, idx0, idx1, idx2, !intoFirst)
  {
  }

  /** No triangle the walk emits repeats an index. */
  lemma {:induction false} StripNotDegenerate(a: seq<Bitwise.Word>, s: nat, k: int, t: nat)
    requires s + k <= |a|
    requires 3 * t + 3 <= |StripUpTo(a, s, k)|
    ensures var r := StripUpTo(a, s, k);
      r[3 * t] != r[3 * t + 1] && r[3 * t] != r[3 * t + 2] && r[3 * t + 1] != r[3 * t + 2]
    decreases k
  {
    var prev := StripUpTo(a, s, k - 1);
    StripCount(a, s, k - 1);
    var tri := StripTriangle(a, s, k - 1);
    var add := if Degenerate(tri) then [] else tri;
    assert StripUpTo(a, s, k) == prev + add;
    if 3 * t + 3 <= |prev| {
      StripNotDegenerate(a, s, k - 1, t);
    } else {
      assert 3 * t == |prev|;
    }
  }

  /** Every index the walk emits is one of the strip's k indices. */
  lemma {:induction false} StripFromWindow(a: seq<Bitwise.Word>, s: nat, k: int)
    requires s + k <= |a|
    ensures forall i :: 0 <= i < |StripUpTo(a, s, k)| ==> StripUpTo(a, s, k)[i] in a[s..s + k]
    decreases k
  {
    if k > 2 {
      StripFromWindow(a, s, k - 1);
      var w := a[s..s + k];
      assert a[s..s + (k - 1)] == w[..k - 1];
      assert forall x :: x in a[s..s + (k - 1)] ==> x in w;
      assert a[s + k - 3] == w[k - 3] && a[s + k - 2] == w[k - 2] && a[s + k - 1] == w[k - 1];
    }
  }

  /** The k indices of a strip, pairwise distinct. */
  predicate AllDistinct(a: seq<Bitwise.Word>, s: nat, k: nat)
    requires s + k <= |a|
  {
    forall i, j :: s <= i < j < s + k ==> a[i] != a[j]
  }

  /** When the strip's indices are pairwise distinct no triangle is dropped:
      the walk gives exactly k - 2 triangles. */
  lemma {:induction false} StripDistinctCount(a: seq<Bitwise.Word>, s: nat, k: nat)
    requires s + k <= |a| && k >= 2
    requires AllDistinct(a, s, k)
    ensures |StripUpTo(a, s, k)| == 3 * (k - 2)
    decreases k
  {
    if k > 2 {
      StripDistinctCount(a, s, k - 1);
      assert !Degenerate(StripTriangle(a, s, k - 1));
    }
  }

  /** Adding and then adding again is adding the sum. */
  lemma OffsetTwice(v: seq<Bitwise.Word>, a: nat, b: nat)
    ensures Offset(Offset(v, a), b) == Offset(v, a + b)
  {
    forall i | 0 <= i < |v|
      ensures Offset(Offset(v, a), b)[i] == Offset(v, a + b)[i]
    {
      ModAdd(v[i] + a, b);
    }
  }

  /** Reducing before adding changes nothing modulo 2^32. */
  lemma ModAdd(x: int, b: int)
    ensures (x % Mod32 + b) % Mod32 == (x + b) % Mod32
  {
    var q := x / Mod32;
    assert x + b == (x % Mod32 + b) + Mod32 * q;
  }

  /** The offset can be undone: moving every index up by n and then by the
      rest of the way to 2^32 gives the indices back. */
  lemma OffsetUndone(v: seq<Bitwise.Word>, n: nat)
    ensures Offset(Offset(v, n), Mod32 - n % Mod32) == v
  {
    OffsetTwice(v, n, Mod32 - n % Mod32);
    forall i | 0 <= i < |v|
      ensures Offset(v, n + (Mod32 - n % Mod32))[i] == v[i]
    {
      assert n + (Mod32 - n % Mod32) == Mod32 * (n / Mod32 + 1);
      assert (v[i] + Mod32 * (n / Mod32 + 1)) % Mod32 == v[i];
    }
  }

  // ---------------------------------------------------------------------
  // The gathered source geometry
  // ---------------------------------------------------------------------

  /** A source mesh and the node its object hangs from. */
  datatype Source = Source(mesh: Mesh.Mesh, node: int)

  predicate SourcesFit(srcs: seq<Source>)
  {
    forall i :: 0 <= i < |srcs| ==> PrimitivesFit(srcs[i].mesh)
  }

  /** The vertex and index lists after adding each source in turn to empty
      lists: a source's vertices are appended, and its triangles are
      offset by the number of vertices gathered before it. */
  function Gathered(srcs: seq<Source>, world: (int, Point3) -> Point3): (g: (seq<Point3>, seq<Bitwise.Word>))
    requires SourcesFit(srcs)
  {
    if srcs == [] then ([], [])
    else
      var (v, x) := Gathered(srcs[..|srcs| - 1], world);
      var last := srcs[|srcs| - 1];
      (v + Placed(last.mesh, world, last.node), x + Offset(MeshIndices(last.mesh), |v|))
  }

  /** Adding one more source appends its placed vertices and its offset
      triangles. */
  lemma GatheredSnoc(srcs: seq<Source>, x: Source, world: (int, Point3) -> Point3)
    requires SourcesFit(srcs) && PrimitivesFit(x.mesh)
    ensures SourcesFit(srcs + [x])
    ensures Gathered(srcs + [x], world) ==
      (Gathered(srcs, world).0 + Placed(x.mesh, world, x.node),
       Gathered(srcs, world).1 + Offset(MeshIndices(x.mesh), |Gathered(srcs, world).0|))
  {
    assert (srcs + [x])[..|srcs|] == srcs;
  }

  /** A mesh whose triangles index its own vertices. */
  predicate IndicesInMesh(m: Mesh.Mesh)
  {
    PrimitivesFit(m) && forall i :: 0 <= i < |MeshIndices(m)| ==> MeshIndices(m)[i] < VertexCount(m)
  }

  /** After adding a mesh whose triangles index its own vertices, each new
      index names the new copy of the vertex it named in the mesh: the offset
      is exactly the number of vertices gathered before. */
  lemma OffsetNamesPlaced(v: seq<Point3>, x: seq<Bitwise.Word>, m: Mesh.Mesh, world: (int, Point3) -> Point3, node: int, i: nat)
    requires IndicesInMesh(m) && |v| + VertexCount(m) <= Mod32
    requires i < |MeshIndices(m)|
    ensures var x' := x + Offset(MeshIndices(m), |v|);
      var v' := v + Placed(m, world, node);
      x'[|x| + i] == |v| + MeshIndices(m)[i] &&
      x'[|x| + i] < |v'| &&
      v'[x'[|x| + i]] == world(node, VertexOf(m, MeshIndices(m)[i]))
  {
  }

  /** Every gathered index names a gathered vertex, when each source's
      triangles index its own vertices and the total stays below 2^32. */
  lemma {:induction false} GatheredInRange(srcs: seq<Source>, world: (int, Point3) -> Point3)
    requires SourcesFit(srcs)
    requires forall i :: 0 <= i < |srcs| ==> IndicesInMesh(srcs[i].mesh)
    requires |Gathered(srcs, world).0| <= Mod32
    ensures forall i :: 0 <= i < |Gathered(srcs, world).1| ==> Gathered(srcs, world).1[i] < |Gathered(srcs, world).0|
  {
    if srcs != [] {
      var front := srcs[..|srcs| - 1];
      var last := srcs[|srcs| - 1];
      var (v, x) := Gathered(front, world);
      GatheredInRange(front, world);
      var m := last.mesh;
      var (v', x') := Gathered(srcs, world);
      forall i | 0 <= i < |x'|
        ensures x'[i] < |v'|
      {
        if i >= |x| {
          OffsetNamesPlaced(v, x, m, world, last.node, i - |x|);
        }
      }
    }
  }

  // ---------------------------------------------------------------------
  // Which meshes are gathered
  // ---------------------------------------------------------------------

  /** `meshes_[i]` as a mesh the fit can read. Decals never stay in the
      mesh table (loading stores them as null), so only mesh objects count. */
  function MeshIn(meshes: seq<MeshFactory.Made>, i: int): Option<Mesh.Mesh>
    requires 0 <= i < |meshes|
  {
    if meshes[i].MeshObject? then Some(meshes[i].mesh) else None
  }

  /** The "bounds" sources of objects start to k - 1: the mesh of detail od
      of each object that has one. */
  function BoundsSources(objects: seq<Object>, meshes: seq<MeshFactory.Made>, od: int, start: int, k: int): (r: seq<Source>)
    requires 0 <= start <= k <= |objects|
    requires forall i :: start <= i < k && od < objects[i].numMeshes ==> 0 <= objects[i].startMeshIndex + od < |meshes|
    ensures MeshesFit(meshes) ==> SourcesFit(r)
    decreases k
  {
    if k == start then []
    else
      var front := BoundsSources(objects, meshes, od, start, k - 1);
      var obj := objects[k - 1];
      if od < obj.numMeshes && MeshIn(meshes, obj.startMeshIndex + od).Some? then
        front + [Source(MeshIn(meshes, obj.startMeshIndex + od).value, obj.nodeIndex)]
      else front
  }

  /** The sources of one more object: its mesh of detail od, if it has one. */
  lemma BoundsSourcesNext(objects: seq<Object>, meshes: seq<MeshFactory.Made>, od: int, start: int, i: int, end: int)
    requires 0 <= start <= i < end <= |objects|
    requires forall j :: start <= j < end && od < objects[j].numMeshes ==> 0 <= objects[j].startMeshIndex + od < |meshes|
    ensures var obj, front := objects[i], BoundsSources(objects, meshes, od, start, i);
      BoundsSources(objects, meshes, od, start, i + 1) ==
        if od < obj.numMeshes && MeshIn(meshes, obj.startMeshIndex + od).Some? then
          front + [Source(MeshIn(meshes, obj.startMeshIndex + od).value, obj.nodeIndex)]
        else front
  {
  }

  /** How many mesh slots the loop over an object visits: none for a
      negative count. */
  function Slots(obj: Object): nat
  {
    if obj.numMeshes < 0 then 0 else obj.numMeshes
  }

  /** The first mesh among the k slots from start, if any. */
  function FirstMesh(meshes: seq<MeshFactory.Made>, start: nat, k: nat): (r: Option<Mesh.Mesh>)
    requires start + k <= |meshes|
    ensures MeshesFit(meshes) && r.Some? ==> PrimitivesFit(r.value)
  {
    if k == 0 then None
    else if FirstMesh(meshes, start, k - 1).Some? then FirstMesh(meshes, start, k - 1)
    else MeshIn(meshes, start + k - 1)
  }

  /** The object's first mesh, if it has one, with the object's node. */
  function ObjectSources(meshes: seq<MeshFactory.Made>, obj: Object): (r: seq<Source>)
    requires 0 <= obj.startMeshIndex && obj.startMeshIndex + Slots(obj) <= |meshes|
    ensures MeshesFit(meshes) ==> SourcesFit(r)
  {
    var m := FirstMesh(meshes, obj.startMeshIndex, Slots(obj));
    if m.Some? then [Source(m.value, obj.nodeIndex)] else []
  }

  /** The first mesh found is a mesh of the range and every slot before it
      is empty; none is found only when the whole range is empty. */
  lemma {:induction false} FirstMeshIsFirst(meshes: seq<MeshFactory.Made>, start: nat, k: nat)
    requires start + k <= |meshes|
    ensures FirstMesh(meshes, start, k).None? <==>
      forall j :: start <= j < start + k ==> !meshes[j].MeshObject?
    ensures FirstMesh(meshes, start, k).Some? ==>
      exists j :: start <= j < start + k && meshes[j] == MeshFactory.MeshObject(FirstMesh(meshes, start, k).value) &&
        forall l :: start <= l < j ==> !meshes[l].MeshObject?
  {
    if k > 0 {
      FirstMeshIsFirst(meshes, start, k - 1);
      if FirstMesh(meshes, start, k - 1).None? && meshes[start + k - 1].MeshObject? {
        var j := start + k - 1;
        assert meshes[j] == MeshFactory.MeshObject(FirstMesh(meshes, start, k).value);
      }
    }
  }

  /** Once a mesh is found among the first k slots, later slots do not
      change which. */
  lemma {:induction false} FirstMeshStays(meshes: seq<MeshFactory.Made>, start: nat, k: nat, n: nat)
    requires k <= n && start + n <= |meshes|
    requires FirstMesh(meshes, start, k).Some?
    ensures FirstMesh(meshes, start, n) == FirstMesh(meshes, start, k)
    decreases n - k
  {
    if k < n {
      FirstMeshStays(meshes, start, k + 1, n);
    }
  }

  /** The shape tables `InitSourceGeometry` reads. */
  datatype SourceTables = SourceTables(
    details: seq<Detail>, firstObject: seq<int>, numObjects: seq<int>,
    objects: seq<Object>, meshes: seq<MeshFactory.Made>, names: seq<string>)

  /** Every mesh in the table has primitives that fit its index list. */
  predicate MeshesFit(meshes: seq<MeshFactory.Made>)
  {
    forall i :: 0 <= i < |meshes| && meshes[i].MeshObject? ==> PrimitivesFit(meshes[i].mesh)
  }

  /** What the gathering reads lies inside the tables: for "bounds" there is
      a detail, and when its subshape is a real one, that subshape's object
      range and each object's detail slot; for an object, the mesh range of
      the object the name finds. */
  predicate SourceFits(t: SourceTables, target: string)
  {
    MeshesFit(t.meshes) &&
    if target == "bounds" then
      |t.details| > 0 &&
      var ss := t.details[0].subShapeNum;
      var od := t.details[0].objectDetailNum;
      (ss >= 0 ==>
        ss < |t.firstObject| && ss < |t.numObjects| &&
        0 <= t.firstObject[ss] <= t.firstObject[ss] + t.numObjects[ss] <= |t.objects| &&
        forall i :: t.firstObject[ss] <= i < t.firstObject[ss] + t.numObjects[ss] && od < t.objects[i].numMeshes ==>
          0 <= t.objects[i].startMeshIndex + od < |t.meshes|)
    else
      var r := ShapeEdit.ObjectLookup(t.objects, t.names, target);
      r >= 0 ==>
        0 <= t.objects[r].startMeshIndex && t.objects[r].startMeshIndex + Slots(t.objects[r]) <= |t.meshes|
  }

  /** Whether the gathering stops before deciding readiness: a "bounds"
      target whose highest detail has no subshape, or an object name that is
      not found. */
  predicate Aborted(t: SourceTables, target: string)
    requires SourceFits(t, target)
  {
    if target == "bounds" then t.details[0].subShapeNum < 0
    else ShapeEdit.ObjectLookup(t.objects, t.names, target) < 0
  }

  /** The meshes gathered for a target, with their nodes. */
  function Sources(t: SourceTables, target: string): (r: seq<Source>)
    requires SourceFits(t, target)
    ensures SourcesFit(r)
  {
    if Aborted(t, target) then []
    else if target == "bounds" then
      var ss := t.details[0].subShapeNum;
      BoundsSources(t.objects, t.meshes, t.details[0].objectDetailNum, t.firstObject[ss], t.firstObject[ss] + t.numObjects[ss])
    else
      ObjectSources(t.meshes, t.objects[ShapeEdit.ObjectLookup(t.objects, t.names, target)])
  }

  // ---------------------------------------------------------------------
  // The k-DOP planes
  // ---------------------------------------------------------------------

  /** A plane normal as the signs of its components; its length is 1 (the
      source writes 1, 0.7071 and 0.5774 for one, two and three non-zero
      components). */
  datatype Direction = Direction(x: int, y: int, z: int)

  /** `kFacePlanes`: the six faces of the unit cube. */
  const FacePlanes: seq<Direction> := [
    Direction(-1, 0, 0), Direction(1, 0, 0), Direction(0, -1, 0),
    Direction(0, 1, 0), Direction(0, 0, -1), Direction(0, 0, 1)]

  /** `kXEdgePlanes`: the four edges parallel to the X axis. */
  const XEdgePlanes: seq<Direction> := [
    Direction(0, -1, -1), Direction(0, -1, 1), Direction(0, 1, -1), Direction(0, 1, 1)]

  /** `kYEdgePlanes`. */
  const YEdgePlanes: seq<Direction> := [
    Direction(-1, 0, -1), Direction(-1, 0, 1), Direction(1, 0, -1), Direction(1, 0, 1)]

  /** `kZEdgePlanes`. */
  const ZEdgePlanes: seq<Direction> := [
    Direction(-1, -1, 0), Direction(-1, 1, 0), Direction(1, -1, 0), Direction(1, 1, 0)]

  /** `kCornerPlanes`: the eight corners. */
  const CornerPlanes: seq<Direction> := [
    Direction(-1, -1, -1), Direction(-1, -1, 1), Direction(-1, 1, -1), Direction(-1, 1, 1),
    Direction(1, -1, -1), Direction(1, -1, 1), Direction(1, 1, -1), Direction(1, 1, 1)]

  /** The five k-DOP fits. */
  datatype DopKind = Dop10X | Dop10Y | Dop10Z | Dop18 | Dop26

  /** The planes `Fit10_DOP_X` to `Fit26_DOP` hand to the fit, in the order
      they are inserted. */
  method DopPlanes(kind: DopKind) returns (planes: seq<Direction>)
    ensures planes == PlaneList(kind)
  {
    planes := [];
    planes := planes + FacePlanes;
    match kind {
      case Dop10X => planes := planes + XEdgePlanes;
      case Dop10Y => planes := planes + YEdgePlanes;
      case Dop10Z => planes := planes + ZEdgePlanes;
      case Dop18 =>
        planes := planes + XEdgePlanes;
        planes := planes + YEdgePlanes;
        planes := planes + ZEdgePlanes;
      case Dop26 =>
        planes := planes + XEdgePlanes;
        planes := planes + YEdgePlanes;
        planes := planes + ZEdgePlanes;
        planes := planes + CornerPlanes;
    }
  }

  /** The faces, then the families each fit adds. */
  function PlaneList(kind: DopKind): seq<Direction>
  {
    match kind
    case Dop10X => FacePlanes + XEdgePlanes
    case Dop10Y => FacePlanes + YEdgePlanes
    case Dop10Z => FacePlanes + ZEdgePlanes
    case Dop18 => FacePlanes + XEdgePlanes + YEdgePlanes + ZEdgePlanes
    case Dop26 => FacePlanes + XEdgePlanes + YEdgePlanes + ZEdgePlanes + CornerPlanes
  }

  /** The k of each fit. */
  function K(kind: DopKind): nat
  {
    match kind
    case Dop10X => 10
    case Dop10Y => 10
    case Dop10Z => 10
    case Dop18 => 18
    case Dop26 => 26
  }

  function Opposite(d: Direction): Direction
  {
    Direction(-d.x, -d.y, -d.z)
  }

  /** No plane listed twice. */
  predicate Distinct(s: seq<Direction>)
  {
    forall i, j :: 0 <= i < j < |s| ==> s[i] != s[j]
  }

  /** d is one of the planes of s. */
  predicate Listed(s: seq<Direction>, d: Direction)
  {
    d in s
  }

  /** Every plane a non-zero sign pattern, listed with its opposite. (The
      quantifier fires on `Listed` only, so the opposite it mentions does
      not fire it again.) */
  ghost predicate Paired(s: seq<Direction>)
  {
    forall d {:trigger Listed(s, d)} :: Listed(s, d) ==> Unit(d) && Opposite(d) in s
  }

  /** Which family a direction belongs to: faces, the X, Y or Z edges, or
      corners. */
  function Family(d: Direction): nat
  {
    if (d.x == 0 && d.y == 0) || (d.x == 0 && d.z == 0) || (d.y == 0 && d.z == 0) then 0
    else if d.x == 0 then 1
    else if d.y == 0 then 2
    else if d.z == 0 then 3
    else 4
  }

  predicate AllOfFamily(s: seq<Direction>, f: nat)
  {
    forall d :: d in s ==> Family(d) == f
  }

  predicate AllBelowFamily(s: seq<Direction>, f: nat)
  {
    forall d :: d in s ==> Family(d) < f
  }

  /** Each family lists distinct planes, of that family only, in opposite
      pairs. */
  lemma FamiliesDistinct()
    ensures Distinct(FacePlanes) && Distinct(XEdgePlanes) && Distinct(YEdgePlanes)
    ensures Distinct(ZEdgePlanes) && Distinct(CornerPlanes)
  {
  }

  lemma FamiliesApart()
    ensures AllOfFamily(FacePlanes, 0) && AllOfFamily(XEdgePlanes, 1) && AllOfFamily(YEdgePlanes, 2)
    ensures AllOfFamily(ZEdgePlanes, 3) && AllOfFamily(CornerPlanes, 4)
  {
  }

  /** A direction a plane can take: each component -1, 0 or 1, not all 0. */
  predicate Unit(d: Direction)
  {
    -1 <= d.x <= 1 && -1 <= d.y <= 1 && -1 <= d.z <= 1 && d != Direction(0, 0, 0)
  }

  /** Four planes, plane i facing the other way from plane 3 - i, are paired. */
  lemma PairedFour(s: seq<Direction>)
    requires |s| == 4
    requires Unit(s[0]) && Unit(s[1]) && Unit(s[2]) && Unit(s[3])
    requires Opposite(s[0]) == s[3] && Opposite(s[1]) == s[2]
    ensures Paired(s)
  {
    forall x | Listed(s, x)
      ensures Unit(x) && Opposite(x) in s
    {
      var i :| 0 <= i < 4 && s[i] == x;
      if i == 0 {
        assert Opposite(x) == s[3];
      } else if i == 1 {
        assert Opposite(x) == s[2];
      } else if i == 2 {
        assert Opposite(x) == s[1];
      } else {
        assert Opposite(x) == s[0];
      }
    }
  }

  /** Six planes listed in three pairs of opposites are paired. */
  lemma PairedSix(s: seq<Direction>)
    requires |s| == 6
    requires Unit(s[0]) && Unit(s[1]) && Unit(s[2]) && Unit(s[3]) && Unit(s[4]) && Unit(s[5])
    requires Opposite(s[0]) == s[1] && Opposite(s[2]) == s[3] && Opposite(s[4]) == s[5]
    ensures Paired(s)
  {
    forall x | Listed(s, x)
      ensures Unit(x) && Opposite(x) in s
    {
      var i :| 0 <= i < 6 && s[i] == x;
      if i == 0 {
        assert Opposite(x) == s[1];
      } else if i == 1 {
        assert Opposite(x) == s[0];
      } else if i == 2 {
        assert Opposite(x) == s[3];
      } else if i == 3 {
        assert Opposite(x) == s[2];
      } else if i == 4 {
        assert Opposite(x) == s[5];
      } else {
        assert Opposite(x) == s[4];
      }
    }
  }

  /** Eight planes, plane i facing the other way from plane 7 - i, are paired. */
  lemma PairedEight(s: seq<Direction>)
    requires |s| == 8
    requires Unit(s[0]) && Unit(s[1]) && Unit(s[2]) && Unit(s[3]) && Unit(s[4]) && Unit(s[5]) && Unit(s[6]) && Unit(s[7])
    requires Opposite(s[0]) == s[7] && Opposite(s[1]) == s[6] && Opposite(s[2]) == s[5] && Opposite(s[3]) == s[4]
    ensures Paired(s)
  {
    forall x | Listed(s, x)
      ensures Unit(x) && Opposite(x) in s
    {
      var i :| 0 <= i < 8 && s[i] == x;
      if i == 0 {
        assert Opposite(x) == s[7];
      } else if i == 1 {
        assert Opposite(x) == s[6];
      } else if i == 2 {
        assert Opposite(x) == s[5];
      } else if i == 3 {
        assert Opposite(x) == s[4];
      } else if i == 4 {
        assert Opposite(x) == s[3];
      } else if i == 5 {
        assert Opposite(x) == s[2];
      } else if i == 6 {
        assert Opposite(x) == s[1];
      } else {
        assert Opposite(x) == s[0];
      }
    }
  }

  /** Face 2k faces the other way from face 2k + 1. */
  lemma FacesPaired()
    ensures Paired(FacePlanes)
  {
    assert |FacePlanes| == 6;
    assert Unit(FacePlanes[0]) && Unit(FacePlanes[1]) && Unit(FacePlanes[2]) && Unit(FacePlanes[3]) && Unit(FacePlanes[4]) && Unit(FacePlanes[5]);
    PairedSix(FacePlanes);
  }

  /** X edge i faces the other way from X edge 3 - i. */
  lemma XEdgesPaired()
    ensures Paired(XEdgePlanes)
  {
    assert |XEdgePlanes| == 4;
    assert Unit(XEdgePlanes[0]) && Unit(XEdgePlanes[1]) && Unit(XEdgePlanes[2]) && Unit(XEdgePlanes[3]);
    PairedFour(XEdgePlanes);
  }

  lemma YEdgesPaired()
    ensures Paired(YEdgePlanes)
  {
    assert |YEdgePlanes| == 4;
    assert Unit(YEdgePlanes[0]) && Unit(YEdgePlanes[1]) && Unit(YEdgePlanes[2]) && Unit(YEdgePlanes[3]);
    PairedFour(YEdgePlanes);
  }

  lemma ZEdgesPaired()
    ensures Paired(ZEdgePlanes)
  {
    assert |ZEdgePlanes| == 4;
    assert Unit(ZEdgePlanes[0]) && Unit(ZEdgePlanes[1]) && Unit(ZEdgePlanes[2]) && Unit(ZEdgePlanes[3]);
    PairedFour(ZEdgePlanes);
  }

  /** Corner i faces the other way from corner 7 - i. */
  lemma CornersPaired()
    ensures Paired(CornerPlanes)
  {
    assert |CornerPlanes| == 8;
    assert Unit(CornerPlanes[0]) && Unit(CornerPlanes[1]) && Unit(CornerPlanes[2]) && Unit(CornerPlanes[3]) && Unit(CornerPlanes[4]) && Unit(CornerPlanes[5]) && Unit(CornerPlanes[6]) && Unit(CornerPlanes[7]);
    PairedEight(CornerPlanes);
  }

  /** Appending a family not yet present keeps the planes distinct and
      paired. */
  lemma Join(a: seq<Direction>, b: seq<Direction>, f: nat)
    requires Distinct(a) && Paired(a) && AllBelowFamily(a, f)
    requires Distinct(b) && Paired(b) && AllOfFamily(b, f)
    ensures Distinct(a + b) && Paired(a + b) && AllBelowFamily(a + b, f + 1)
  {
    var s := a + b;
    forall i, j | 0 <= i < j < |s|
      ensures s[i] != s[j]
    {
      if j >= |a| && i < |a| {
        assert s[i] in a && s[j] in b;
      }
    }
    forall d | Listed(s, d)
      ensures Unit(d) && Opposite(d) in s
    {
      if d in a {
        assert Listed(a, d);
      } else {
        assert Listed(b, d);
      }
    }
  }

  /** Each fit uses k planes, no two the same, each a non-zero sign pattern,
      and with every plane the one facing the other way: a k-DOP is k/2
      pairs of parallel slabs. */
  lemma PlaneCounts(kind: DopKind)
    ensures |PlaneList(kind)| == K(kind)
    ensures Distinct(PlaneList(kind)) && Paired(PlaneList(kind))
  {
    FamiliesDistinct();
    FamiliesApart();
    FacesPaired();
    XEdgesPaired();
    YEdgesPaired();
    ZEdgesPaired();
    CornersPaired();
    match kind {
      case Dop10X => Join(FacePlanes, XEdgePlanes, 1);
      case Dop10Y => Join(FacePlanes, YEdgePlanes, 2);
      case Dop10Z => Join(FacePlanes, ZEdgePlanes, 3);
      case Dop18 =>
        Join(FacePlanes, XEdgePlanes, 1);
        Join(FacePlanes + XEdgePlanes, YEdgePlanes, 2);
        Join(FacePlanes + XEdgePlanes + YEdgePlanes, ZEdgePlanes, 3);
      case Dop26 =>
        Join(FacePlanes, XEdgePlanes, 1);
        Join(FacePlanes + XEdgePlanes, YEdgePlanes, 2);
        Join(FacePlanes + XEdgePlanes + YEdgePlanes, ZEdgePlanes, 3);
        Join(FacePlanes + XEdgePlanes + YEdgePlanes + ZEdgePlanes, CornerPlanes, 4);
    }
  }

  /** The 18-DOP is the three 10-DOPs together, and the 26-DOP adds the
      corners to it. */
  lemma PlaneFamilies()
    ensures forall d :: d in PlaneList(Dop18) <==> d in PlaneList(Dop10X) || d in PlaneList(Dop10Y) || d in PlaneList(Dop10Z)
    ensures forall d :: d in PlaneList(Dop26) <==> d in PlaneList(Dop18) || d in CornerPlanes
  {
  }

  // ---------------------------------------------------------------------
  // The mesh a fit produces
  // ---------------------------------------------------------------------

  /** The first n triangles with their second and third corners swapped:
      (i0, i2, i1) for each (i0, i1, i2). */
  function Rewound(tris: seq<Bitwise.Word>, n: nat): (r: seq<Bitwise.Word>)
    requires 3 * n <= |tris|
    ensures |r| == 3 * n
  {
    seq(3 * n, k requires 0 <= k < 3 * n => tris[3 * (k / 3) + (if k % 3 == 0 then 0 else 3 - k % 3)])
  }

  /** Reversing the winding twice gives the triangles back. */
  lemma RewoundTwice(tris: seq<Bitwise.Word>, n: nat)
    requires 3 * n <= |tris|
    ensures Rewound(Rewound(tris, n), n) == tris[..3 * n]
  {
    var r := Rewound(tris, n);
    forall k | 0 <= k < 3 * n
      ensures Rewound(r, n)[k] == tris[k]
    {
      var b := 3 * (k / 3);
      var c := if k % 3 == 0 then 0 else 3 - k % 3;
      assert (b + c) / 3 == k / 3 && (b + c) % 3 == c;
    }
  }

  /** Triangle t keeps its first corner and swaps the other two. */
  lemma RewoundTriangle(tris: seq<Bitwise.Word>, n: nat, t: nat)
    requires 3 * n <= |tris| && t < n
    ensures Rewound(tris, n)[3 * t..3 * t + 3] == [tris[3 * t], tris[3 * t + 2], tris[3 * t + 1]]
  {
    var r := Rewound(tris, n);
    assert (3 * t) / 3 == t && (3 * t + 1) / 3 == t && (3 * t + 2) / 3 == t;
    assert (3 * t) % 3 == 0 && (3 * t + 1) % 3 == 1 && (3 * t + 2) % 3 == 2;
  }

  /** `kTriangles | kIndexed | kNoMaterial`. */
  const TriangleListMaterial: Bitwise.Word := 0x3000_0000

  /** The primitive of a fitted mesh is an indexed triangle list with no
      material, so gathering it takes its indices verbatim. */
  lemma TriangleListMaterialFields()
    ensures TriangleListMaterial == Mesh.MatIndex(0, true, true, 0)
    ensures IsTriangleList(TriangleListMaterial)
    ensures Mesh.IsIndexed(TriangleListMaterial) && Mesh.HasNoMaterial(TriangleListMaterial)
    ensures Mesh.Material(TriangleListMaterial) == 0
  {
    Mesh.MatIndexFields(0, true, true, 0);
  }

  /** `SetFlags(0)` sets no bit. */
  lemma SetNoFlags(meshType: Bitwise.Word)
    ensures Mesh.SetFlags(meshType, 0) == meshType
  {
    Mesh.SetFlagsBits(meshType, 0);
    Bitwise.Pow2Values();
    forall i | 0 <= i < 32
      ensures Bitwise.Bit(Mesh.SetFlags(meshType, 0), i) == Bitwise.Bit(meshType, i)
    {
      Bitwise.BitZero(i);
    }
    Bitwise.BitsEqual(Mesh.SetFlags(meshType, 0), meshType, 32);
  }

  /** A mesh as `CopyMesh(NULL)` makes it: a standard mesh with empty
      vectors; the members its constructor leaves alone are whatever they
      are. */
  predicate BlankMesh(m: Mesh.Mesh)
  {
    m.meshType == Mesh.StandardMeshType && m.extra == Mesh.Standard &&
    m.verts == [] && m.tverts == [] && m.norms == [] && m.encodedNorms == [] &&
    m.primitives == [] && m.indices == []
  }

  /** The triangles of a mesh made by `CreateTriMesh` are its index list:
      gathering such a mesh takes back exactly the rewound triangles. */
  lemma TriMeshIndices(m: Mesh.Mesh)
    requires m.primitives == [Mesh.Primitive(0, |m.indices|, TriangleListMaterial)]
    ensures PrimitivesFit(m) && MeshIndices(m) == m.indices
  {
    TriangleListMaterialFields();
    assert PrimitiveFits(m.primitives[0], |m.indices|);
    assert MeshIndicesUpTo(m, 1) == [] + m.indices[0..|m.indices|];
  }

  // ---------------------------------------------------------------------
  // The fitter
  // ---------------------------------------------------------------------

  /** The shape a fitted mesh is of. */
  datatype FitKind = Box | Sphere | Capsule | Hull

  /** `MeshFit::Mesh`: its kind, whether its transform is the identity (the
      only thing about the transform the rest of the model asks), and the
      mesh. */
  datatype FittedMesh = FittedMesh(kind: FitKind, identity: bool, mesh: Mesh.Mesh)

  /** The tables of a shape that the gathering reads. */
  function TablesOf(shape: Shape.TSShape): SourceTables
    reads shape
  {
    SourceTables(shape.details, shape.subShapeFirstObject, shape.subShapeNumObjects,
                 shape.objects, shape.meshes, shape.names)
  }

  class MeshFit {
    /** `shape_`: the shape the geometry comes from. */
    const shape: Shape.TSShape
    /** `verts_`: the gathered vertices, in world space. */
    var verts: seq<Point3>
    /** `indices_`: the gathered triangle list. */
    var indices: seq<Bitwise.Word>
    /** `is_ready_`. */
    var isReady: bool
    /** `meshes_`: the fitted meshes. */
    var meshes: seq<FittedMesh>

    constructor (shape: Shape.TSShape)
      ensures this.shape == shape
      ensures verts == [] && indices == [] && !isReady && meshes == []
    {
      this.shape := shape;
      verts := [];
      indices := [];
      isReady := false;
      meshes := [];
    }

    /** `SetReady`. */
    method SetReady()
      modifies this`isReady
      ensures isReady
    {
      isReady := true;
    }

    /** `AddSourceMesh(obj, mesh)`: the mesh's triangles are appended, offset
        by the vertex count so far, then its vertices, carried into world
        space by the transform of the object's node. */
    method AddSourceMesh(m: Mesh.Mesh, world: (int, Point3) -> Point3, node: int)
      requires PrimitivesFit(m)
      modifies this`verts, this`indices
      ensures indices == old(indices) + Offset(MeshIndices(m), |old(verts)|)
      ensures verts == old(verts) + Placed(m, world, node)
    {
      var base := |indices|;
      AddPrimitives(m);
      OffsetFrom(base, |verts|);
      assert indices[..base] == old(indices);
      assert indices[base..] == Offset(MeshIndices(m), |old(verts)|);
      AddVertices(m, world, node);
    }

    /** The primitive loop of `AddSourceMesh`: each primitive's triangles
        appended in turn. */
    method AddPrimitives(m: Mesh.Mesh)
      requires PrimitivesFit(m)
      modifies this`indices
      ensures indices == old(indices) + MeshIndices(m)
    {
      var i := 0;
      while i < |m.primitives|
        invariant 0 <= i <= |m.primitives|
        invariant indices == old(indices) + MeshIndicesUpTo(m, i)
      {
        assert PrimitiveFits(m.primitives[i], |m.indices|);
        AddPrimitive(m.indices, m.primitives[i]);
        i := i + 1;
      }
    }

    /** One primitive: a triangle list merged as it is, anything else
        walked as a strip. */
    method AddPrimitive(a: seq<Bitwise.Word>, p: Mesh.Primitive)
      requires PrimitiveFits(p, |a|)
      modifies this`indices
      ensures indices == old(indices) + PrimitiveIndices(a, p)
    {
      if IsTriangleList(p.matIndex) {
        indices := Merged(indices, a[p.start..], p.numElements);
        assert a[p.start..][..p.numElements] == a[p.start..p.start + p.numElements];
      } else {
        AddStrip(a, p.start, p.numElements);
      }
    }

    /** `Vector::Merge(indices_, addr, count)`. */
    static method Merged(v: seq<Bitwise.Word>, addr: seq<Bitwise.Word>, count: nat) returns (r: seq<Bitwise.Word>)
      requires count <= |addr|
      ensures r == v + addr[..count]
    {
      r := Vector.Merge(v, addr, count);
      assert r[|v|..] == addr[..count];
      assert r == r[..|v|] + r[|v|..];
    }

    /** The strip walk over the k indices from start s, appended. */
    method AddStrip(a: seq<Bitwise.Word>, s: nat, k: int)
      requires s + 2 <= |a| && s + k <= |a|
      modifies this`indices
      ensures indices == old(indices) + StripUpTo(a, s, k)
    {
      var out := StripWalk(a, s, k);
      indices := indices + out;
    }

    /** The loop of the strip walk. The source keeps the last two indices of
        the window in idx0 and idx1 and toggles which of them the next index
        replaces; here that is `intoFirst`. */
    static method StripWalk(a: seq<Bitwise.Word>, s: nat, k: int) returns (out: seq<Bitwise.Word>)
      requires s + 2 <= |a| && s + k <= |a|
      ensures out == StripUpTo(a, s, k)
    {
      var idx0 := a[s];
      var idx1: Bitwise.Word := 0;  // written before it is read
      var idx2 := a[s + 1];
      var intoFirst := false;
      out := [];
      var j := 2;
      while j < k
        invariant 2 <= j <= (if k <= 2 then 2 else k)
        invariant out == StripUpTo(a, s, j)
        invariant Window(a, s, j, idx0, idx1, idx2, intoFirst)
      {
        idx0, idx1, idx2, intoFirst, out := StripStepAt(a, s, j, idx0, idx1, idx2, intoFirst, out);
        j := j + 1;
      }
      if k <= 2 {
        assert StripUpTo(a, s, k) == [] == StripUpTo(a, s, j);
      }
    }

    /** The body of the strip loop at step j: the window slides and its
        triangle, unless degenerate, is appended. */
    static method StripStepAt(a: seq<Bitwise.Word>, s: nat, j: nat, idx0: Bitwise.Word, idx1: Bitwise.Word, idx2: Bitwise.Word,
                              intoFirst: bool, out: seq<Bitwise.Word>)
      returns (idx0': Bitwise.Word, idx1': Bitwise.Word, idx2': Bitwise.Word, intoFirst': bool, out': seq<Bitwise.Word>)
      requires 2 <= j && s + j < |a| && Window(a, s, j, idx0, idx1, idx2, intoFirst)
      requires out == StripUpTo(a, s, j)
      ensures Window(a, s, j + 1, idx0', idx1', idx2', intoFirst')
      ensures out' == StripUpTo(a, s, j + 1)
    {
      idx0', idx1' := idx0, idx1;
      if intoFirst {
        idx0' := idx2;
      } else {
        idx1' := idx2;
      }
      intoFirst' := !intoFirst;
      idx2' := a[s + j];
      var t := [idx0', idx1', idx2'];
      WindowSlides(a, s, j, idx0, idx1, idx2, intoFirst, idx0', idx1', idx2');
      StripStep(a, s, j, t);
      out' := out;
      if !(idx0' == idx1' || idx0' == idx2' || idx1' == idx2') {
        assert !Degenerate(t);
        out' := out + t;
      }
    }

    /** `indices_[j] += verts_.size()` for j from base on. */
    method OffsetFrom(base: nat, n: nat)
      requires base <= |indices|
      modifies this`indices
      ensures indices == old(indices)[..base] + Offset(old(indices)[base..], n)
    {
      var j := base;
      while j < |indices|
        invariant base <= j <= |indices| == |old(indices)|
        invariant forall l :: 0 <= l < base ==> indices[l] == old(indices)[l]
        invariant forall l :: base <= l < j ==> indices[l] == (old(indices)[l] + n) % Mod32
        invariant forall l :: j <= l < |indices| ==> indices[l] == old(indices)[l]
      {
        indices := indices[j := (indices[j] + n) % Mod32];
        j := j + 1;
      }
      assert forall l :: base <= l < |indices| ==> indices[l] == Offset(old(indices)[base..], n)[l - base];
    }

    /** The vertex loop: each vertex carried into world space and pushed. */
    method AddVertices(m: Mesh.Mesh, world: (int, Point3) -> Point3, node: int)
      modifies this`verts
      ensures verts == old(verts) + Placed(m, world, node)
    {
      var count := VertexCount(m);
      var j := 0;
      while j < count
        invariant 0 <= j <= count
        invariant verts == old(verts) + Placed(m, world, node)[..j]
      {
        verts := verts + [world(node, VertexOf(m, j))];
        j := j + 1;
      }
    }

    /** `InitSourceGeometry(target)`: the fitted meshes and the gathered
        geometry are cleared; then the sources are gathered, and the fitter
        is ready when both lists are non-empty. When the highest detail has
        no subshape, or the object is not found, it stops before that and
        the readiness flag keeps its old value. */
    method InitSourceGeometry(ghost t: SourceTables, target: string, world: (int, Point3) -> Point3)
      requires t == TablesOf(shape) && SourceFits(t, target)
      modifies this`verts, this`indices, this`isReady, this`meshes
      ensures meshes == []
      ensures (verts, indices) == Gathered(Sources(t, target), world)
      ensures isReady == if Aborted(t, target) then old(isReady) else verts != [] && indices != []
    {
      meshes := [];
      verts := [];
      indices := [];
      ghost var srcs := Sources(t, target);
      if target == "bounds" {
        var dl := 0;
        var ss := shape.details[dl].subShapeNum;
        if ss < 0 {
          assert srcs == [];
          assert (verts, indices) == Gathered(srcs, world);
          return;
        }
        var od := shape.details[dl].objectDetailNum;
        var start := shape.subShapeFirstObject[ss];
        assert srcs == BoundsSources(t.objects, t.meshes, od, start, start + t.numObjects[ss]);
        GatherBounds(od, start, start + shape.subShapeNumObjects[ss], world);
        assert (verts, indices) == Gathered(srcs, world);
      } else {
        var objIndex := ShapeEdit.FindObjectAt(shape, target);
        if objIndex == -1 {
          assert srcs == [];
          assert (verts, indices) == Gathered(srcs, world);
          return;
        }
        assert srcs == ObjectSources(t.meshes, t.objects[objIndex]);
        GatherFirst(shape.objects[objIndex], world);
        assert (verts, indices) == Gathered(srcs, world);
      }
      isReady := verts != [] && indices != [];
    }

    /** One more source added to what the sources before it gathered. */
    method AddSource(src: Source, world: (int, Point3) -> Point3, ghost front: seq<Source>)
      requires SourcesFit(front) && PrimitivesFit(src.mesh)
      requires (verts, indices) == Gathered(front, world)
      modifies this`verts, this`indices
      ensures (verts, indices) == Gathered(front + [src], world)
    {
      GatheredSnoc(front, src, world);
      AddSourceMesh(src.mesh, world, src.node);
    }

    /** The "bounds" loop: the mesh of detail od of each object from start
        to end - 1, where the object has one. */
    method GatherBounds(od: int, start: int, end: int, world: (int, Point3) -> Point3)
      requires 0 <= start <= end <= |shape.objects|
      requires forall i :: start <= i < end && od < shape.objects[i].numMeshes ==> 0 <= shape.objects[i].startMeshIndex + od < |shape.meshes|
      requires MeshesFit(shape.meshes)
      requires verts == [] && indices == []
      modifies this`verts, this`indices
      ensures (verts, indices) == Gathered(BoundsSources(shape.objects, shape.meshes, od, start, end), world)
    {
      var objects, meshes := shape.objects, shape.meshes;
      var i := start;
      ghost var srcs: seq<Source> := [];
      while i < end
        invariant start <= i <= end
        invariant srcs == BoundsSources(objects, meshes, od, start, i) && SourcesFit(srcs)
        invariant (verts, indices) == Gathered(srcs, world)
      {
        srcs := BoundsStep(objects, meshes, od, start, i, end, world, srcs);
        i := i + 1;
      }
    }

    /** One turn of the "bounds" loop: object i's mesh of detail od is
        added if it has one. */
    method BoundsStep(objects: seq<Object>, meshes: seq<MeshFactory.Made>, od: int, start: int, i: int, end: int,
                      world: (int, Point3) -> Point3, ghost srcs: seq<Source>) returns (ghost next: seq<Source>)
      requires 0 <= start <= i < end <= |objects|
      requires forall j :: start <= j < end && od < objects[j].numMeshes ==> 0 <= objects[j].startMeshIndex + od < |meshes|
      requires MeshesFit(meshes)
      requires srcs == BoundsSources(objects, meshes, od, start, i) && SourcesFit(srcs)
      requires (verts, indices) == Gathered(srcs, world)
      modifies this`verts, this`indices
      ensures next == BoundsSources(objects, meshes, od, start, i + 1) && SourcesFit(next)
      ensures (verts, indices) == Gathered(next, world)
    {
      BoundsSourcesNext(objects, meshes, od, start, i, end);
      ghost var after := BoundsSources(objects, meshes, od, start, i + 1);
      assert SourcesFit(after);
      next := srcs;
      var obj := objects[i];
      if od < obj.numMeshes {
        var k := obj.startMeshIndex + od;
        var mesh := MeshIn(meshes, k);
        if mesh.Some? {
          var src := Source(mesh.value, obj.nodeIndex);
          assert after == srcs + [src];
          assert PrimitivesFit(src.mesh) by {
            assert after[|srcs|] == src;
          }
          AddSource(src, world, srcs);
          next := srcs + [src];
        } else {
          assert after == srcs;
        }
      } else {
        assert after == srcs;
      }
    }

    /** The object loop: the first mesh of the object is added, and the
        loop stops there. */
    method GatherFirst(obj: Object, world: (int, Point3) -> Point3)
      requires 0 <= obj.startMeshIndex && obj.startMeshIndex + Slots(obj) <= |shape.meshes|
      requires MeshesFit(shape.meshes)
      requires verts == [] && indices == []
      modifies this`verts, this`indices
      ensures (verts, indices) == Gathered(ObjectSources(shape.meshes, obj), world)
    {
      var i := 0;
      while i < obj.numMeshes
        invariant 0 <= i <= Slots(obj)
        invariant FirstMesh(shape.meshes, obj.startMeshIndex, i).None?
        invariant verts == [] && indices == []
      {
        var mesh := MeshIn(shape.meshes, obj.startMeshIndex + i);
        if mesh.Some? {
          AddSourceMesh(mesh.value, world, obj.nodeIndex);
          FirstMeshStays(shape.meshes, obj.startMeshIndex, i + 1, Slots(obj));
          assert [Source(mesh.value, obj.nodeIndex)][..0] == [];
          return;
        }
        i := i + 1;
      }
    }

    /** `CreateTriMesh(verts, num_verts, indices, num_tris)`: a mesh of
        one frame whose triangles are the given ones with the winding
        reversed, held in one indexed triangle-list primitive without
        material. Its vertices are the num_verts points at verts (none for a
        null pointer), its UVs num_verts zeros, its encoded normals empty.
        The normals are averaged from the triangles in floating point and
        come in as norms. */
    method CreateTriMesh(blank: Mesh.Mesh, vertsAt: Option<seq<int>>, numVerts: nat, tris: seq<Bitwise.Word>, numTris: nat, norms: seq<int>)
      returns (m: Mesh.Mesh)
      requires BlankMesh(blank)
      requires vertsAt.Some? ==> 3 * numVerts <= |vertsAt.value|
      requires 3 * numTris <= |tris|
      requires |norms| == if vertsAt.Some? then 3 * numVerts else 0
      ensures m.numFrames == 1 && m.numMatFrames == 1 && m.vertsPerFrame == numVerts
      ensures m.meshType == blank.meshType && m.extra == blank.extra && m.parent == blank.parent
      ensures m.indices == Rewound(tris, numTris)
      ensures m.verts == (if vertsAt.Some? then vertsAt.value[..3 * numVerts] else [])
      ensures m.norms == norms
      ensures m.tverts == seq(2 * numVerts, _ => 0)
      ensures m.primitives == [Mesh.Primitive(0, 3 * numTris, TriangleListMaterial)]
      ensures m.encodedNorms == []
    {
      m := blank.(numFrames := 1, numMatFrames := 1, vertsPerFrame := numVerts);
      SetNoFlags(m.meshType);
      m := m.(meshType := Mesh.SetFlags(m.meshType, 0));
      var idx := RewoundIndices(tris, numTris);
      m := m.(indices := idx);
      var vs := Vector.Set(vertsAt, 3 * numVerts);
      m := m.(verts := vs, norms := norms);
      m := m.(tverts := seq(2 * numVerts, _ => 0));
      m := m.(primitives := [Mesh.Primitive(0, |m.indices|, TriangleListMaterial)]);
      m := m.(encodedNorms := []);
    }
  }

  /** The index loop of `CreateTriMesh`: (i0, i2, i1) pushed per triangle. */
  method RewoundIndices(tris: seq<Bitwise.Word>, numTris: nat) returns (r: seq<Bitwise.Word>)
    requires 3 * numTris <= |tris|
    ensures r == Rewound(tris, numTris)
  {
    r := [];
    var i := 0;
    while i < numTris
      invariant 0 <= i <= numTris
      invariant r == Rewound(tris, numTris)[..3 * i]
    {
      RewoundTriangle(tris, numTris, i);
      assert Rewound(tris, numTris)[..3 * (i + 1)] == Rewound(tris, numTris)[..3 * i] + Rewound(tris, numTris)[3 * i..3 * i + 3];
      r := r + [tris[i * 3 + 0]];
      r := r + [tris[i * 3 + 2]];
      r := r + [tris[i * 3 + 1]];
      i := i + 1;
    }
  }
}
