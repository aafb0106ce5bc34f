/**
 * SortedMesh: `TSSortedMesh`, a mesh whose primitives are drawn in cluster
 * order. After the base mesh it carries the clusters (eight words each:
 * start and end primitive, a plane normal and offset, front and back
 * cluster), four per-frame arrays and the always-write-depth flag.
 */
module SortedMesh {
  import opened Bytes
  import opened ShapeAlloc
  import opened Mesh
  import Vector

  /** Words per `Cluster`. */
  const ClusterWords: nat := 8

  /** The cluster arrays: the clusters (8 words each) and the start-cluster
      array, each copied into the shape after its count. `second` is the
      start-cluster array read the way the loader as written reads it: as
      whole clusters from where that array was copied. */
  datatype ClusterArrays = ClusterArrays(numClusters: int, clusters: seq<int>, sz: int, startCluster: seq<int>, second: seq<int>)

  function ReadClusters(s: ReadState): Read<ClusterArrays>
  {
    var (numClusters, p1, s2) := ReadCount(s, ClusterWords);
    var (sz, p2, s4) := ReadCount(s2, 1);
    Read(ClusterArrays(numClusters, VectorAt(s2, p1, numClusters, ClusterWords, W32), sz,
                       VectorAt(s4, p2, sz, 1, W32), VectorAt(s4, p2, sz, ClusterWords, W32)), true, s4)
  }

  /** In the copying pass each cluster array is as long as its count says:
      eight words per counted cluster; the start-cluster array one word per
      counted entry, or eight when read as whole clusters. */
  lemma ClusterLengths(s: ReadState)
    requires s.dest.Some? && s.c.mult == 1
    ensures var r := ReadClusters(s).value;
      |r.clusters| == ClusterWords * Count(r.numClusters) &&
      |r.second| == ClusterWords * Count(r.sz) &&
      |r.startCluster| == Count(r.sz)
  {
    var r := ReadClusters(s).value;
    DecodeLength(Count(r.numClusters) * ClusterWords, W32);
    DecodeLength(Count(r.sz) * ClusterWords, W32);
    DecodeLength(Count(r.sz), W32);
  }

  method AssembleClusters(alloc: ITSShapeAlloc) returns (a: ClusterArrays)
    modifies alloc
    ensures Read(a, true, alloc.State()) == ReadClusters(old(alloc.State()))
  {
    var numClusters, ptr32 := GetCount(alloc, ClusterWords);
    var clusters := VectorAt(alloc.State(), ptr32, numClusters, ClusterWords, W32);
    var sz, ptr := GetCount(alloc, 1);
    a := ClusterArrays(numClusters, clusters, sz, VectorAt(alloc.State(), ptr, sz, 1, W32),
                       VectorAt(alloc.State(), ptr, sz, ClusterWords, W32));
  }

  /** The per-frame arrays: first vertex, vertex count and first texture
      vertex, each copied into the shape after its count; then the flag word
      (any non-zero value sets it) and a guard. */
  datatype FrameArrays = FrameArrays(firstVerts: seq<int>, numVerts: seq<int>, firstTVerts: seq<int>, alwaysWriteDepth: bool)

  function ReadFrames(s: ReadState): (r: Read<FrameArrays>)
    ensures r.state.input == s.input
  {
    var (n3, p3, s6) := ReadCount(s, 1);
    var (n4, p4, s8) := ReadCount(s6, 1);
    var (n5, p5, s10) := ReadCount(s8, 1);
    var (flag, s11) := s10.Get(W32);
    var (ok, s12) := s11.CheckGuard();
    Read(FrameArrays(VectorAt(s6, p3, n3, 1, W32), VectorAt(s8, p4, n4, 1, W32), VectorAt(s10, p5, n5, 1, W32), flag != 0), ok, s12)
  }

  method AssembleFrames(alloc: ITSShapeAlloc) returns (f: FrameArrays, ok: bool)
    modifies alloc
    ensures Read(f, ok, alloc.State()) == ReadFrames(old(alloc.State()))
  {
    var n, ptr32 := GetCount(alloc, 1);
    var firstVerts := VectorAt(alloc.State(), ptr32, n, 1, W32);
    n, ptr32 := GetCount(alloc, 1);
    var numVerts := VectorAt(alloc.State(), ptr32, n, 1, W32);
    n, ptr32 := GetCount(alloc, 1);
    var firstTVerts := VectorAt(alloc.State(), ptr32, n, 1, W32);
    var flag := alloc.Get(W32);
    ok := alloc.CheckGuard();
    f := FrameArrays(firstVerts, numVerts, firstTVerts, flag != 0);
  }

  /** The sorted section after a base mesh, as written: the start-cluster
      array is stored into clusters_ (as whole clusters), so the clusters
      read first are lost and start_cluster_ keeps its constructed empty
      value. */
  function SortedAfterAsWritten(base: Read<Mesh>): Read<Mesh>
  {
    var c := ReadClusters(base.state);
    var f := ReadFrames(c.state);
    var v, w := c.value, f.value;
    Read(base.value.(extra := Sorted(SortedData(v.second, [], w.firstVerts, w.numVerts, w.firstTVerts, w.alwaysWriteDepth))),
         base.ok && f.ok, f.state)
  }

  /** The sorted section after a base mesh, with the second array stored into
      start_cluster_, where the writer takes it from. */
  function SortedAfter(base: Read<Mesh>): Read<Mesh>
  {
    var c := ReadClusters(base.state);
    var f := ReadFrames(c.state);
    var v, w := c.value, f.value;
    Read(base.value.(extra := Sorted(SortedData(v.clusters, v.startCluster, w.firstVerts, w.numVerts, w.firstTVerts, w.alwaysWriteDepth))),
         base.ok && f.ok, f.state)
  }

  /** `TSSortedMesh::Assemble` as written. */
  function ReadSortedAsWritten(s: ReadState, version: int, skip: bool, t: Scratch): (r: Read<Mesh>)
    ensures r.value.extra.Sorted? && r.value.extra.sorted.startCluster == []
  {
    SortedAfterAsWritten(ReadMesh(s, version, skip, t, SortedMeshType))
  }

  /** `TSSortedMesh::Assemble`, start-cluster array corrected. */
  function ReadSorted(s: ReadState, version: int, skip: bool, t: Scratch): (r: Read<Mesh>)
    ensures r.value.extra.Sorted?
    ensures r.value.extra.sorted.startCluster == ReadClusters(ReadMesh(s, version, skip, t, SortedMeshType).state).value.startCluster
  {
    SortedAfter(ReadMesh(s, version, skip, t, SortedMeshType))
  }

  /** When the shape block is being filled, the corrected loader keeps every
      cluster it read (8 words per counted cluster) and one start-cluster
      word per counted entry, where the loader as written keeps `8 * sz`
      words of clusters and no start clusters. Both agree on everything
      else. */
  lemma SortedCountsKept(base: Read<Mesh>)
    requires base.state.dest.Some? && base.state.c.mult == 1
    ensures var c := ReadClusters(base.state).value;
      var fixed := SortedAfter(base).value.extra.sorted;
      var asWritten := SortedAfterAsWritten(base).value.extra.sorted;
      |fixed.clusters| == ClusterWords * Count(c.numClusters) &&
      |fixed.startCluster| == Count(c.sz) &&
      |asWritten.clusters| == ClusterWords * Count(c.sz) && asWritten.startCluster == [] &&
      SortedAfter(base).state == SortedAfterAsWritten(base).state &&
      fixed.(clusters := asWritten.clusters, startCluster := []) == asWritten
  {
    ClusterLengths(base.state);
  }

  method AssembleSorted(alloc: ITSShapeAlloc, version: int, skip: bool, t: Scratch) returns (m: Mesh, ok: bool)
    modifies alloc
    ensures Read(m, ok, alloc.State()) == ReadSorted(old(alloc.State()), version, skip, t)
  {
    var base, ok1 := Assemble(alloc, version, skip, t, SortedMeshType);
    m, ok := AssembleSortedAfter(alloc, base, ok1);
  }

  /** The sorted section, after base was read with the guard outcome ok0. */
  method AssembleSortedAfter(alloc: ITSShapeAlloc, base: Mesh, ok0: bool) returns (m: Mesh, ok: bool)
    modifies alloc
    ensures Read(m, ok, alloc.State()) == SortedAfter(Read(base, ok0, old(alloc.State())))
  {
    var c := AssembleClusters(alloc);
    var f, ok2 := AssembleFrames(alloc);
    m := base.(extra := Sorted(SortedData(c.clusters, c.startCluster, f.firstVerts, f.numVerts, f.firstTVerts, f.alwaysWriteDepth)));
    ok := ok0 && ok2;
  }

  /** The sorted section as `TSSortedMesh::Assemble` reads it, after base
      was read with the guard outcome ok0. */
  method AssembleSortedAfterAsWritten(alloc: ITSShapeAlloc, base: Mesh, ok0: bool) returns (m: Mesh, ok: bool)
    modifies alloc
    ensures Read(m, ok, alloc.State()) == SortedAfterAsWritten(Read(base, ok0, old(alloc.State())))
  {
    var c := AssembleClusters(alloc);
    var f, ok2 := AssembleFrames(alloc);
    m := base.(extra := Sorted(SortedData(c.second, [], f.firstVerts, f.numVerts, f.firstTVerts, f.alwaysWriteDepth)));
    ok := ok0 && ok2;
  }

  // ---------------------------------------------------------------------
  // TSSortedMesh::Disassemble
  // ---------------------------------------------------------------------

  /** `Set(n)` followed by `CopyToBuffer(Vector::Address(v), count)`. */
  function CountedEntries(n: int, v: seq<int>, count: nat): seq<int>
  {
    [Wrap(n, 4)] + Copied(Vector.Address(v), count)
  }

  /** The cluster count and the clusters (eight words per cluster), then the
      start-cluster count and the start clusters. */
  function ClusterEntries(d: SortedData): seq<int>
  {
    CountedEntries(|d.clusters| / ClusterWords, d.clusters, |d.clusters| / ClusterWords * ClusterWords)
      + CountedEntries(|d.startCluster|, d.startCluster, |d.startCluster|)
  }

  /** The three per-frame arrays, each after its count, and the flag as 1 or
      0. */
  function FrameEntries(d: SortedData): seq<int>
  {
    CountedEntries(|d.firstVerts|, d.firstVerts, |d.firstVerts|)
      + CountedEntries(|d.numVerts|, d.numVerts, |d.numVerts|)
      + CountedEntries(|d.firstTVerts|, d.firstTVerts, |d.firstTVerts|)
      + [if d.alwaysWriteDepth then 1 else 0]
  }

  /** The 32-bit entries the sorted part of a mesh adds. */
  function Sorted32(d: SortedData): seq<int>
  {
    ClusterEntries(d) + FrameEntries(d)
  }

  /** Everything `TSSortedMesh::Disassemble` appends: the base mesh, the
      sorted entries, a guard. */
  function SortedEntries(m: Mesh, g: PerWidth<int>, dot: (seq<int>, Normals.Normal) -> real): PerWidth<seq<int>>
    requires m.extra.Sorted?
  {
    Appended(Appended(MeshEntries(m, g, dot), Only(W32, Sorted32(m.extra.sorted))), GuardEntries(NextGuards(NextGuards(g))))
  }

  /** `TSSortedMesh::Disassemble`. */
  method DisassembleSorted(out: OTSShapeAlloc, m: Mesh, dot: (seq<int>, Normals.Normal) -> real)
    requires m.extra.Sorted?
    requires out.Valid() && GuardsFit(out.guard)
    modifies out
    ensures out.Valid() && GuardsFit(out.guard)
    ensures out.buffer == Appended(old(out.buffer), SortedEntries(m, old(out.guard), dot))
    ensures out.guard == NextGuards(NextGuards(NextGuards(old(out.guard))))
  {
    ghost var b0 := out.buffer;
    ghost var g := out.guard;
    Disassemble(out, m, dot);
    ghost var e := MeshEntries(m, g, dot);
    var d := m.extra.sorted;
    PutClusters(out, d);
    PutFrames(out, d);
    AppendedTwice(Appended(b0, e), W32, ClusterEntries(d), FrameEntries(d));
    AppendedAssoc(b0, e, Only(W32, Sorted32(d)));
    e := Appended(e, Only(W32, Sorted32(d)));
    out.SetGuard();
    AppendedAssoc(b0, e, GuardEntries(NextGuards(NextGuards(g))));
  }

  method PutCounted(out: OTSShapeAlloc, n: int, v: seq<int>, count: nat)
    requires out.Valid()
    modifies out
    ensures out.Valid() && out.guard == old(out.guard)
    ensures out.buffer == Appended(old(out.buffer), Only(W32, CountedEntries(n, v, count)))
  {
    ghost var b := out.buffer;
    var r := out.Set(W32, n);
    out.CopyToBuffer(W32, Vector.Address(v), count);
    AppendedTwice(b, W32, [r], Copied(Vector.Address(v), count));
  }

  method PutClusters(out: OTSShapeAlloc, d: SortedData)
    requires out.Valid()
    modifies out
    ensures out.Valid() && out.guard == old(out.guard)
    ensures out.buffer == Appended(old(out.buffer), Only(W32, ClusterEntries(d)))
  {
    ghost var b := out.buffer;
    var numClusters := |d.clusters| / ClusterWords;
    PutCounted(out, numClusters, d.clusters, numClusters * ClusterWords);
    ghost var c1 := CountedEntries(numClusters, d.clusters, numClusters * ClusterWords);
    PutCounted(out, |d.startCluster|, d.startCluster, |d.startCluster|);
    AppendedTwice(b, W32, c1, CountedEntries(|d.startCluster|, d.startCluster, |d.startCluster|));
  }

  method PutFrames(out: OTSShapeAlloc, d: SortedData)
    requires out.Valid()
    modifies out
    ensures out.Valid() && out.guard == old(out.guard)
    ensures out.buffer == Appended(old(out.buffer), Only(W32, FrameEntries(d)))
  {
    ghost var b := out.buffer;
    PutCounted(out, |d.firstVerts|, d.firstVerts, |d.firstVerts|);
    ghost var ws := CountedEntries(|d.firstVerts|, d.firstVerts, |d.firstVerts|);
    PutCounted(out, |d.numVerts|, d.numVerts, |d.numVerts|);
    AppendedTwice(b, W32, ws, CountedEntries(|d.numVerts|, d.numVerts, |d.numVerts|));
    ws := ws + CountedEntries(|d.numVerts|, d.numVerts, |d.numVerts|);
    PutCounted(out, |d.firstTVerts|, d.firstTVerts, |d.firstTVerts|);
    AppendedTwice(b, W32, ws, CountedEntries(|d.firstTVerts|, d.firstTVerts, |d.firstTVerts|));
    ws := ws + CountedEntries(|d.firstTVerts|, d.firstTVerts, |d.firstTVerts|);
    var flag := out.Set(W32, if d.alwaysWriteDepth then 1 else 0);
    AppendedTwice(b, W32, ws, [flag]);
  }

  // ---------------------------------------------------------------------
  // Reading back what was written
  // ---------------------------------------------------------------------

  /** Every count and value of the sorted data fits a 32-bit entry and the
      clusters are whole. */
  predicate SortedFits(d: SortedData)
  {
    |d.clusters| % ClusterWords == 0 && InSignedRange(|d.clusters| / ClusterWords, 4) &&
    InSignedRange(|d.startCluster|, 4) && InSignedRange(|d.firstVerts|, 4) &&
    InSignedRange(|d.numVerts|, 4) && InSignedRange(|d.firstTVerts|, 4) &&
    AllFit(d.clusters, W32) && AllFit(d.startCluster, W32) && AllFit(d.firstVerts, W32) &&
    AllFit(d.numVerts, W32) && AllFit(d.firstTVerts, W32)
  }

  /** Counted entries of a vector that fits are its count and its data. */
  lemma CountedFits(v: seq<int>, words: nat)
    requires words > 0 && |v| % words == 0 && InSignedRange(|v| / words, 4)
    ensures |v| / words * words == |v|
    ensures CountedEntries(|v| / words, v, |v| / words * words) == [|v| / words] + v
  {
    WrapProperties(|v| / words, 4);
    assert |v| / words * words == |v|;
    CopiedAll(v);
  }

  /** In the copying pass, the cluster arrays are read back from the entries
      the writer wrote for them. */
  lemma ClustersWritten(s: ReadState, d: SortedData)
    requires SortedFits(d)
    requires s.dest.Some? && s.c.mult == 1 && 0 <= s.dest.value && s.dest.value + 4 * (|d.clusters| + |d.startCluster|) <= |s.shape|
    requires Slice(s.input, s.c.pos.w32, 4 * |ClusterEntries(d)|) == Encode(ClusterEntries(d), W32)
    ensures ReadClusters(s).value.clusters == d.clusters && ReadClusters(s).value.startCluster == d.startCluster
    ensures ReadClusters(s).value.numClusters == |d.clusters| / ClusterWords && ReadClusters(s).value.sz == |d.startCluster|
  {
    var c, sc := d.clusters, d.startCluster;
    ClusterEntriesFit(d);
    TwoCountedWritten(s, |c| / ClusterWords, c, ClusterWords, |sc|, sc, 1);
  }

  /** Reading the cluster arrays back moves the 32-bit cursor past their
      entries and dest_ past their data. */
  lemma ClustersMoves(s: ReadState, d: SortedData)
    requires SortedFits(d)
    requires s.dest.Some? && s.c.mult == 1 && 0 <= s.dest.value && s.dest.value + 4 * (|d.clusters| + |d.startCluster|) <= |s.shape|
    requires Slice(s.input, s.c.pos.w32, 4 * |ClusterEntries(d)|) == Encode(ClusterEntries(d), W32)
    ensures ReadClusters(s).state.c.pos.w32 == s.c.pos.w32 + 4 * |ClusterEntries(d)| && ReadClusters(s).state.c.mult == 1
    ensures ReadClusters(s).state.input == s.input && |ReadClusters(s).state.shape| == |s.shape|
    ensures ReadClusters(s).state.dest.Some?
    ensures ReadClusters(s).state.dest.value == s.dest.value + 4 * (|d.clusters| + |d.startCluster|)
  {
    var c, sc := d.clusters, d.startCluster;
    ClusterEntriesFit(d);
    TwoCountedMoves(s, |c| / ClusterWords, c, ClusterWords, |sc|, sc, 1);
  }

  /** The cluster entries of data that fits are the two counts and the two
      arrays. */
  lemma ClusterEntriesFit(d: SortedData)
    requires SortedFits(d)
    ensures |d.clusters| == |d.clusters| / ClusterWords * ClusterWords
    ensures ClusterEntries(d) == ([|d.clusters| / ClusterWords] + d.clusters) + ([|d.startCluster|] + d.startCluster)
  {
    CountedFits(d.clusters, ClusterWords);
    CountedFits(d.startCluster, 1);
  }

  /** In the copying pass, the per-frame arrays and the flag are read back
      from the entries the writer wrote for them. */
  lemma FramesWritten(s: ReadState, d: SortedData)
    requires SortedFits(d)
    requires s.dest.Some? && s.c.mult == 1 && 0 <= s.dest.value && s.dest.value + 4 * (|d.firstVerts| + |d.numVerts| + |d.firstTVerts|) <= |s.shape|
    requires Slice(s.input, s.c.pos.w32, 4 * |FrameEntries(d)|) == Encode(FrameEntries(d), W32)
    ensures ReadFrames(s).value == FrameArrays(d.firstVerts, d.numVerts, d.firstTVerts, d.alwaysWriteDepth)
  {
    var fv, nv, ftv := d.firstVerts, d.numVerts, d.firstTVerts;
    var flag := if d.alwaysWriteDepth then 1 else 0;
    FramesReady(s, d);
    TwoCountedWritten(s, |fv|, fv, 1, |nv|, nv, 1);
    var s8 := ReadCount(ReadCount(s, 1).2, 1).2;
    CountedThenFlag(s8, ftv, flag);
    var f := ReadFrames(s).value;
    assert f.firstVerts == fv && f.numVerts == nv;
    assert f.firstTVerts == ftv && f.alwaysWriteDepth == d.alwaysWriteDepth;
  }

  /** The entries of the first two per-frame arrays lie at the cursor, and
      those of the third and the flag where reading the first two leaves it,
      with room for the third in the shape block. */
  lemma FramesReady(s: ReadState, d: SortedData)
    requires SortedFits(d)
    requires s.dest.Some? && s.c.mult == 1 && 0 <= s.dest.value && s.dest.value + 4 * (|d.firstVerts| + |d.numVerts| + |d.firstTVerts|) <= |s.shape|
    requires Slice(s.input, s.c.pos.w32, 4 * |FrameEntries(d)|) == Encode(FrameEntries(d), W32)
    ensures var e := ([|d.firstVerts|] + d.firstVerts) + ([|d.numVerts|] + d.numVerts);
      Slice(s.input, s.c.pos.w32, 4 * |e|) == Encode(e, W32)
    ensures var t := ReadCount(ReadCount(s, 1).2, 1).2;
      var e := ([|d.firstTVerts|] + d.firstTVerts) + [if d.alwaysWriteDepth then 1 else 0];
      t.dest.Some? && t.c.mult == 1 && 0 <= t.dest.value && t.dest.value + 4 * |d.firstTVerts| <= |t.shape| &&
      Slice(t.input, t.c.pos.w32, 4 * |e|) == Encode(e, W32)
  {
    var fv, nv, ftv := d.firstVerts, d.numVerts, d.firstTVerts;
    var e1, e2, e3 := [|fv|] + fv, [|nv|] + nv, [|ftv|] + ftv;
    var flag := if d.alwaysWriteDepth then 1 else 0;
    assert FrameEntries(d) == (e1 + e2) + (e3 + [flag]) by {
      CountedFits(fv, 1);
      CountedFits(nv, 1);
      CountedFits(ftv, 1);
      assert |fv| / 1 * 1 == |fv| && |nv| / 1 * 1 == |nv| && |ftv| / 1 * 1 == |ftv|;
    }
    EncodedSplit(s.input, s.c.pos.w32, e1 + e2, e3 + [flag], W32);
    TwoCountedMoves(s, |fv|, fv, 1, |nv|, nv, 1);
    var s8 := ReadCount(ReadCount(s, 1).2, 1).2;
    assert s8.c.pos.w32 == s.c.pos.w32 + 4 * |e1 + e2|;
  }

  /** The last counted vector and the flag word after it are read back. */
  lemma CountedThenFlag(s: ReadState, v: seq<int>, flag: int)
    requires InSignedRange(|v|, 4) && AllFit(v, W32) && InSignedRange(flag, 4)
    requires s.dest.Some? && s.c.mult == 1 && 0 <= s.dest.value && s.dest.value + 4 * |v| <= |s.shape|
    requires Slice(s.input, s.c.pos.w32, 4 * |([|v|] + v) + [flag]|) == Encode(([|v|] + v) + [flag], W32)
    ensures var r := ReadCount(s, 1);
      VectorAt(r.2, r.1, r.0, 1, W32) == v && r.2.Get(W32).0 == flag
  {
    var counted := [|v|] + v;
    EncodedSplit(s.input, s.c.pos.w32, counted, [flag], W32);
    CountedWritten(s, |v|, v, 1);
    var s1 := ReadCount(s, 1).2;
    var at := s.c.pos.w32 + 4 * |counted|;
    assert s1.input == s.input && s1.c.pos.At(W32) == at;
    assert Slice(s1.input, at, 4 * |[flag]|) == Encode([flag], W32);
    GetWritten(s1, W32, flag);
  }

  /** The whole of the sorted part needs this much room in the shape block. */
  predicate SortedRoom(s: ReadState, d: SortedData)
  {
    s.dest.Some? && s.c.mult == 1 && 0 <= s.dest.value &&
    s.dest.value + 4 * (|d.clusters| + |d.startCluster|) + 4 * (|d.firstVerts| + |d.numVerts| + |d.firstTVerts|) <= |s.shape|
  }

  /** Round trip: in the copying pass, the corrected loader reads back
      exactly the sorted data whose entries `TSSortedMesh::Disassemble`
      wrote at the 32-bit cursor. */
  lemma SortedWritten(base: Read<Mesh>, d: SortedData)
    requires SortedFits(d) && SortedRoom(base.state, d)
    requires Slice(base.state.input, base.state.c.pos.w32, 4 * |Sorted32(d)|) == Encode(Sorted32(d), W32)
    ensures SortedAfter(base).value == base.value.(extra := Sorted(d))
  {
    var s := base.state;
    PartsReady(s, d);
    ClustersWritten(s, d);
    FramesWritten(ReadClusters(s).state, d);
    Reassembled(d, ReadClusters(s).value, ReadFrames(ReadClusters(s).state).value);
  }

  /** The sorted data put back together from what the two reads return. */
  lemma Reassembled(d: SortedData, c: ClusterArrays, f: FrameArrays)
    requires c.clusters == d.clusters && c.startCluster == d.startCluster
    requires f == FrameArrays(d.firstVerts, d.numVerts, d.firstTVerts, d.alwaysWriteDepth)
    ensures SortedData(c.clusters, c.startCluster, f.firstVerts, f.numVerts, f.firstTVerts, f.alwaysWriteDepth) == d
  {
  }

  /** The cluster entries lie at the cursor, and the frame entries where
      reading the clusters leaves it, with room for them in the shape block. */
  lemma PartsReady(s: ReadState, d: SortedData)
    requires SortedFits(d) && SortedRoom(s, d)
    requires Slice(s.input, s.c.pos.w32, 4 * |Sorted32(d)|) == Encode(Sorted32(d), W32)
    ensures Slice(s.input, s.c.pos.w32, 4 * |ClusterEntries(d)|) == Encode(ClusterEntries(d), W32)
    ensures var t := ReadClusters(s).state;
      t.dest.Some? && t.c.mult == 1 && 0 <= t.dest.value &&
      t.dest.value + 4 * (|d.firstVerts| + |d.numVerts| + |d.firstTVerts|) <= |t.shape| &&
      Slice(t.input, t.c.pos.w32, 4 * |FrameEntries(d)|) == Encode(FrameEntries(d), W32)
  {
    EncodedSplit(s.input, s.c.pos.w32, ClusterEntries(d), FrameEntries(d), W32);
    ClustersMoves(s, d);
  }

  /** The same entries read by the loader as written: whatever clusters were
      written, it keeps eight words per start-cluster entry in their place
      and no start clusters. */
  lemma SortedWrittenAsWritten(base: Read<Mesh>, d: SortedData)
    requires SortedFits(d) && SortedRoom(base.state, d)
    requires Slice(base.state.input, base.state.c.pos.w32, 4 * |Sorted32(d)|) == Encode(Sorted32(d), W32)
    ensures |SortedAfterAsWritten(base).value.extra.sorted.clusters| == ClusterWords * |d.startCluster|
    ensures SortedAfterAsWritten(base).value.extra.sorted.startCluster == []
  {
    var s := base.state;
    EncodedSplit(s.input, s.c.pos.w32, ClusterEntries(d), FrameEntries(d), W32);
    ClustersWritten(s, d);
    ClusterLengths(s);
  }

  /** A mesh with one cluster and no start clusters: written and loaded by
      the loader as written it has lost its cluster; the corrected loader
      gets it back. */
  lemma WrittenClusterLost(base: Read<Mesh>, d: SortedData)
    requires SortedFits(d) && SortedRoom(base.state, d)
    requires Slice(base.state.input, base.state.c.pos.w32, 4 * |Sorted32(d)|) == Encode(Sorted32(d), W32)
    requires |d.clusters| == ClusterWords && d.startCluster == []
    ensures SortedAfterAsWritten(base).value.extra.sorted.clusters == []
    ensures SortedAfter(base).value.extra.sorted.clusters == d.clusters != []
  {
    SortedWrittenAsWritten(base, d);
    SortedWritten(base, d);
  }
}
