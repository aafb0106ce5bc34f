/**
 * Sequences: the animation sequence record of a shape, as
 * `TSShape::Sequence::LoadFromStream` reads it and `WriteToStream` writes it.
 *
 * The reader follows the file version. Version 22 added the flags word, the
 * scale base and the translation and scale sets; older files carry three
 * bools in place of the flags and one base for both rotation and
 * translation, and their translation set is a copy of the rotation set. The
 * writer always writes the newest layout. A field the reader does not read
 * keeps the value it had.
 *
 * A sequence is a value here. Each of its six node and object sets is the 64
 * words of a `TSIntegerSet`, read and written through a set object.
 */
module Sequences {
  import opened Bytes
  import Bitwise
  import Float32
  import Stream
  import IntegerSet

  /** The sequence flags the three old bools stand for. */
  const Blend: nat := 0x8
  const Cyclic: nat := 0x10
  const MakePath: nat := 0x20

  type Word = Bitwise.Word

  datatype Sequence = Sequence(
    nameIndex: int,
    numKeyframes: int,
    duration: Float32.Bits,
    baseRotation: int,
    baseTranslation: int,
    baseScale: int,
    baseObjectState: int,
    baseDecalState: int,
    firstGroundFrame: int,
    numGroundFrames: int,
    firstTrigger: int,
    numTriggers: int,
    toolBegin: Float32.Bits,
    rotationMatters: seq<Word>,
    translationMatters: seq<Word>,
    scaleMatters: seq<Word>,
    visMatters: seq<Word>,
    frameMatters: seq<Word>,
    matFrameMatters: seq<Word>,
    priority: int,
    flags: Word)
  {
    /** Every integer field fits an `int32_t` and every set has its 64
        words. */
    predicate Fits()
    {
      HeadFits() && BasesFit() && SetsFit()
    }

    predicate HeadFits()
    {
      InSignedRange(nameIndex, 4) && InSignedRange(numKeyframes, 4)
    }

    predicate BasesFit()
    {
      InSignedRange(baseRotation, 4) && InSignedRange(baseTranslation, 4) &&
      InSignedRange(baseScale, 4) && InSignedRange(baseObjectState, 4) &&
      InSignedRange(baseDecalState, 4) && InSignedRange(firstGroundFrame, 4) &&
      InSignedRange(numGroundFrames, 4) && InSignedRange(firstTrigger, 4) &&
      InSignedRange(numTriggers, 4) && InSignedRange(priority, 4)
    }

    predicate SetsFit()
    {
      |rotationMatters| == IntegerSet.MaxSetDWords && |translationMatters| == IntegerSet.MaxSetDWords &&
      |scaleMatters| == IntegerSet.MaxSetDWords && |visMatters| == IntegerSet.MaxSetDWords &&
      |frameMatters| == IntegerSet.MaxSetDWords && |matFrameMatters| == IntegerSet.MaxSetDWords
    }
  }

  /** The words of an empty set. */
  function NoMembers(): (ws: seq<Word>)
    ensures |ws| == IntegerSet.MaxSetDWords
  {
    seq(IntegerSet.MaxSetDWords, _ => 0)
  }

  /** A value-initialised sequence, as `sequences_.resize` makes it: zero
      fields and empty sets. */
  function Blank(): (sq: Sequence)
    ensures sq.Fits()
  {
    Int32Range();
    Sequence(0, 0, 0, 0, 0, 0, 0, 0, 0, 0, 0, 0, 0,
      NoMembers(), NoMembers(), NoMembers(), NoMembers(), NoMembers(), NoMembers(), 0, 0)
  }

  // Reading.

  /** `TSIntegerSet::LoadFromStream`: the 64 words of the set read. */
  function TakeSetWords(r: Stream.Reader): (g: Stream.Got<seq<Word>>)
    requires r.Valid()
    ensures g.rest.Valid() && |g.value| == IntegerSet.MaxSetDWords
  {
    var g := IntegerSet.TakeSet(r);
    Stream.Got(g.rest, g.value.words)
  }

  /** `flags |= flag` when the bool read is true. */
  function WithFlag(flags: nat, on: bool, flag: nat): nat
  {
    if on then Bitwise.Or(flags, flag) else flags
  }

  /** The three bools of a version 21 or older file, each OR-ing its flag
      into flags that start at 0. The three reads share one variable that
      starts false, so a read that fails repeats the bool before it. */
  function TakeOldFlags(r: Stream.Reader): (g: Stream.Got<Word>)
    requires r.Valid()
    ensures g.rest.Valid()
  {
    var blend := Stream.TakeBool(r, false);
    var cyclic := Stream.TakeBool(blend.rest, blend.value);
    var makePath := Stream.TakeBool(cyclic.rest, cyclic.value);
    OldFlagsSum(blend.value, cyclic.value, makePath.value);
    Stream.Got(makePath.rest, WithFlag(WithFlag(WithFlag(0, blend.value, Blend), cyclic.value, Cyclic), makePath.value, MakePath))
  }

  /** The flags of the three bools are distinct bits: OR-ing them in adds
      them up. */
  lemma OldFlagsSum(blend: bool, cyclic: bool, makePath: bool)
    ensures WithFlag(WithFlag(WithFlag(0, blend, Blend), cyclic, Cyclic), makePath, MakePath)
      == (if blend then Blend else 0) + (if cyclic then Cyclic else 0) + (if makePath then MakePath else 0)
  {
    assert Bitwise.Or(1, 2) == 3;
    assert Bitwise.Or(1, 4) == 5 by { assert Bitwise.Or(0, 2) == 2; }
    assert Bitwise.Or(2, 4) == 6;
    assert Bitwise.Or(3, 4) == 7;
    assert Bitwise.Or(4, 8) == 12;
    assert Bitwise.Or(8, 16) == 24;
    assert Bitwise.Or(2, 8) == 10;
    assert Bitwise.Or(4, 16) == 20;
    assert Bitwise.Or(8, 32) == 40;
    assert Bitwise.Or(16, 32) == 48;
    assert Bitwise.Or(6, 8) == 14;
    assert Bitwise.Or(12, 16) == 28;
    assert Bitwise.Or(24, 32) == 56;
  }

  /** A stream cut off after a first bool of true: the two failed reads
      repeat it, so all three flags come out set and the stream has failed. */
  lemma {:induction false} OldFlagsCutOff(r: Stream.Reader)
    requires r.Valid() && r.good && r.pos + 1 == |r.data| && r.data[r.pos] != 0
    ensures TakeOldFlags(r).value == Blend + Cyclic + MakePath
    ensures !TakeOldFlags(r).rest.good
  {
    var blend := Stream.TakeBool(r, false);
    assert blend.value && blend.rest.good && blend.rest.pos == |r.data|;
    OldFlagsSum(true, true, true);
  }

  /** The name index (when asked for), the flags word (version 22 on), the
      keyframe count, the duration and, before version 22, the three bools. */
  function TakeHead(r: Stream.Reader, sq: Sequence, version: int, readNameIndex: bool): (g: Stream.Got<Sequence>)
    requires r.Valid()
    ensures g.rest.Valid()
  {
    var name := if readNameIndex then Stream.TakeSigned(r, 4) else Stream.Got(r, sq.nameIndex);
    var flags := if version > 21 then Stream.TakeWord(name.rest) else Stream.Got(name.rest, 0);
    var keyframes := Stream.TakeSigned(flags.rest, 4);
    var duration := Stream.TakeWord(keyframes.rest);
    var all := if version < 22 then TakeOldFlags(duration.rest) else Stream.Got(duration.rest, flags.value);
    Stream.Got(all.rest, sq.(nameIndex := name.value, flags := all.value, numKeyframes := keyframes.value,
      duration := duration.value))
  }

  /** The base offsets: five from version 22 on; before that one base for
      rotation and translation, and no scale base. */
  function TakeBaseOffsets(r: Stream.Reader, sq: Sequence, version: int): (g: Stream.Got<Sequence>)
    requires r.Valid()
    ensures g.rest.Valid()
  {
    if version > 21 then
      var rotation := Stream.TakeSigned(r, 4);
      var translation := Stream.TakeSigned(rotation.rest, 4);
      var scale := Stream.TakeSigned(translation.rest, 4);
      var objectState := Stream.TakeSigned(scale.rest, 4);
      var decalState := Stream.TakeSigned(objectState.rest, 4);
      Stream.Got(decalState.rest, sq.(baseRotation := rotation.value, baseTranslation := translation.value,
        baseScale := scale.value, baseObjectState := objectState.value, baseDecalState := decalState.value))
    else
      var rotation := Stream.TakeSigned(r, 4);
      var objectState := Stream.TakeSigned(rotation.rest, 4);
      var decalState := Stream.TakeSigned(objectState.rest, 4);
      Stream.Got(decalState.rest, sq.(baseRotation := rotation.value, baseTranslation := rotation.value,
        baseObjectState := objectState.value, baseDecalState := decalState.value))
  }

  /** Priority, ground frames, the base offsets, triggers and the tool
      begin time. */
  function TakeBases(r: Stream.Reader, sq: Sequence, version: int): (g: Stream.Got<Sequence>)
    requires r.Valid()
    ensures g.rest.Valid()
  {
    var priority := Stream.TakeSigned(r, 4);
    var firstGround := Stream.TakeSigned(priority.rest, 4);
    var numGround := Stream.TakeSigned(firstGround.rest, 4);
    var bases := TakeBaseOffsets(numGround.rest, sq, version);
    var firstTrigger := Stream.TakeSigned(bases.rest, 4);
    var numTriggers := Stream.TakeSigned(firstTrigger.rest, 4);
    var toolBegin := Stream.TakeWord(numTriggers.rest);
    Stream.Got(toolBegin.rest, bases.value.(priority := priority.value, firstGroundFrame := firstGround.value,
      numGroundFrames := numGround.value, firstTrigger := firstTrigger.value, numTriggers := numTriggers.value,
      toolBegin := toolBegin.value))
  }

  /** The node sets. Before version 22 the translation set is the rotation
      set and no scale set is read. */
  function TakeNodeSets(r: Stream.Reader, sq: Sequence, version: int): (g: Stream.Got<Sequence>)
    requires r.Valid()
    ensures g.rest.Valid()
  {
    var rotation := TakeSetWords(r);
    var translation := if version < 22 then rotation else TakeSetWords(rotation.rest);
    var scale := if version < 22 then Stream.Got(translation.rest, sq.scaleMatters) else TakeSetWords(translation.rest);
    Stream.Got(scale.rest, sq.(rotationMatters := rotation.value, translationMatters := translation.value,
      scaleMatters := scale.value))
  }

  /** The object sets: visibility, frame and material frame. */
  function TakeObjectSets(r: Stream.Reader, sq: Sequence): (g: Stream.Got<Sequence>)
    requires r.Valid()
    ensures g.rest.Valid()
  {
    var vis := TakeSetWords(r);
    var frame := TakeSetWords(vis.rest);
    var matFrame := TakeSetWords(frame.rest);
    Stream.Got(matFrame.rest, sq.(visMatters := vis.value, frameMatters := frame.value,
      matFrameMatters := matFrame.value))
  }

  /** The membership sets; two deprecated sets (decals and IFL materials)
      between the node and the object sets are read and dropped. */
  function TakeSets(r: Stream.Reader, sq: Sequence, version: int): (g: Stream.Got<Sequence>)
    requires r.Valid()
    ensures g.rest.Valid()
  {
    var nodes := TakeNodeSets(r, sq, version);
    var decals := TakeSetWords(nodes.rest);
    var iflMaterials := TakeSetWords(decals.rest);
    TakeObjectSets(iflMaterials.rest, nodes.value)
  }

  /** `Sequence::LoadFromStream(is, read_name_index)` on the sequence sq. */
  function TakeSequence(r: Stream.Reader, sq: Sequence, version: int, readNameIndex: bool): (g: Stream.Got<Sequence>)
    requires r.Valid()
    ensures g.rest.Valid()
  {
    var head := TakeHead(r, sq, version, readNameIndex);
    var bases := TakeBases(head.rest, head.value, version);
    TakeSets(bases.rest, bases.value, version)
  }

  // Writing.

  /** The name index when asked for, the flags, the keyframe count and the
      duration. */
  function PutHead(sq: Sequence, writeNameIndex: bool): seq<byte>
  {
    (if writeNameIndex then LeBytes(sq.nameIndex, 4) else [])
      + (Stream.PutWord(sq.flags) + (LeBytes(sq.numKeyframes, 4) + Stream.PutWord(sq.duration)))
  }

  /** The five base offsets. */
  function PutBaseOffsets(sq: Sequence): (bs: seq<byte>)
    ensures |bs| == 20
  {
    LeBytes(sq.baseRotation, 4) + (LeBytes(sq.baseTranslation, 4) + (LeBytes(sq.baseScale, 4)
      + (LeBytes(sq.baseObjectState, 4) + LeBytes(sq.baseDecalState, 4))))
  }

  /** Priority, ground frames, the base offsets, triggers and the tool
      begin time. */
  function PutBases(sq: Sequence): seq<byte>
  {
    LeBytes(sq.priority, 4) + (LeBytes(sq.firstGroundFrame, 4) + (LeBytes(sq.numGroundFrames, 4)
      + (PutBaseOffsets(sq) + (LeBytes(sq.firstTrigger, 4) + (LeBytes(sq.numTriggers, 4)
      + Stream.PutWord(sq.toolBegin))))))
  }

  /** The rotation, translation and scale sets. */
  function PutNodeSets(sq: Sequence): seq<byte>
    requires sq.SetsFit()
  {
    IntegerSet.PutSet(sq.rotationMatters) + (IntegerSet.PutSet(sq.translationMatters)
      + IntegerSet.PutSet(sq.scaleMatters))
  }

  /** The visibility, frame and material frame sets. */
  function PutObjectSets(sq: Sequence): seq<byte>
    requires sq.SetsFit()
  {
    IntegerSet.PutSet(sq.visMatters) + (IntegerSet.PutSet(sq.frameMatters)
      + IntegerSet.PutSet(sq.matFrameMatters))
  }

  /** The six sets, with two empty sets in the deprecated places. */
  function PutSets(sq: Sequence): seq<byte>
    requires sq.SetsFit()
  {
    PutNodeSets(sq) + (IntegerSet.PutSet(NoMembers()) + (IntegerSet.PutSet(NoMembers()) + PutObjectSets(sq)))
  }

  /** `Sequence::WriteToStream(os, write_name_index)`: always the newest
      layout. */
  function PutSequence(sq: Sequence, writeNameIndex: bool): (bs: seq<byte>)
    requires sq.Fits()
    ensures var k := if writeNameIndex then 4 else 0;
      |bs| >= k + 12 && bs[k..k + 4] == Stream.PutWord(sq.flags)
    ensures writeNameIndex ==> bs[..4] == LeBytes(sq.nameIndex, 4)
  {
    FieldsAt(if writeNameIndex then LeBytes(sq.nameIndex, 4) else [], Stream.PutWord(sq.flags),
      LeBytes(sq.numKeyframes, 4) + Stream.PutWord(sq.duration), PutBases(sq) + PutSets(sq));
    PutHead(sq, writeNameIndex) + (PutBases(sq) + PutSets(sq))
  }

  // Reading back what was written.

  lemma IntNext(r: Stream.Reader, v: int, rest: seq<byte>)
    requires r.Valid() && InSignedRange(v, 4) && Stream.At(r, LeBytes(v, 4) + rest)
    ensures Stream.TakeSigned(r, 4) == Stream.Got(Stream.Skip(r, 4), v)
    ensures Stream.At(Stream.Skip(r, 4), rest)
  {
    Stream.AtConcat(r, LeBytes(v, 4), rest);
    Stream.TakeSignedPut(r, v, 4);
  }

  lemma SetNext(r: Stream.Reader, ws: seq<Word>, rest: seq<byte>)
    requires |ws| == IntegerSet.MaxSetDWords
    requires r.Valid() && Stream.At(r, IntegerSet.PutSet(ws) + rest)
    ensures TakeSetWords(r) == Stream.Got(Stream.Skip(r, |IntegerSet.PutSet(ws)|), ws)
    ensures Stream.At(Stream.Skip(r, |IntegerSet.PutSet(ws)|), rest)
  {
    Stream.AtConcat(r, IntegerSet.PutSet(ws), rest);
    IntegerSet.LoadWrite(r, ws);
  }

  /** The head written is read back (from version 22 on), the name index
      only when it was written. */
  lemma HeadWritten(r: Stream.Reader, sq: Sequence, prior: Sequence, version: int, withName: bool, rest: seq<byte>)
    requires sq.HeadFits() && version > 21
    requires r.Valid() && Stream.At(r, PutHead(sq, withName) + rest)
    ensures var g := TakeHead(r, prior, version, withName);
      g.rest == Stream.Skip(r, |PutHead(sq, withName)|) &&
      g.value == prior.(nameIndex := if withName then sq.nameIndex else prior.nameIndex,
        flags := sq.flags, numKeyframes := sq.numKeyframes, duration := sq.duration)
    ensures Stream.At(Stream.Skip(r, |PutHead(sq, withName)|), rest)
  {
    var tail := Stream.PutWord(sq.flags) + (LeBytes(sq.numKeyframes, 4) + Stream.PutWord(sq.duration));
    var n := if withName then Stream.TakeSigned(r, 4) else Stream.Got(r, prior.nameIndex);
    if withName {
      Regrouped(LeBytes(sq.nameIndex, 4), tail, rest);
      IntNext(r, sq.nameIndex, tail + rest);
      assert n == Stream.Got(Stream.Skip(r, 4), sq.nameIndex);
    } else {
      assert PutHead(sq, withName) == tail;
      assert n == Stream.Got(r, prior.nameIndex);
    }
    HeadTailWritten(n.rest, sq, version, rest);
  }

  /** The flags, the keyframe count and the duration written are read
      back. */
  lemma HeadTailWritten(r: Stream.Reader, sq: Sequence, version: int, rest: seq<byte>)
    requires sq.HeadFits() && version > 21
    requires r.Valid() && Stream.At(r, Stream.PutWord(sq.flags) + (LeBytes(sq.numKeyframes, 4) + Stream.PutWord(sq.duration)) + rest)
    ensures var flags := Stream.TakeWord(r);
      var keyframes := Stream.TakeSigned(flags.rest, 4);
      var duration := Stream.TakeWord(keyframes.rest);
      flags.value == sq.flags && keyframes.value == sq.numKeyframes && duration.value == sq.duration &&
      duration.rest == Stream.Skip(r, 12)
    ensures Stream.At(Stream.Skip(r, 12), rest)
  {
    var f, k, d := Stream.PutWord(sq.flags), LeBytes(sq.numKeyframes, 4), Stream.PutWord(sq.duration);
    Regrouped(f, k + d, rest);
    Regrouped(k, d, rest);
    var r1 := Stream.Skip(r, 4);
    var r2 := Stream.Skip(r1, 4);
    Stream.WordNext(r, sq.flags, k + (d + rest));
    IntNext(r1, sq.numKeyframes, d + rest);
    Stream.WordNext(r2, sq.duration, rest);
  }

  /** The bases written are read back (from version 22 on). */
  lemma BasesWritten(r: Stream.Reader, sq: Sequence, cur: Sequence, version: int, rest: seq<byte>)
    requires sq.BasesFit() && version > 21
    requires r.Valid() && Stream.At(r, PutBases(sq) + rest)
    ensures var g := TakeBases(r, cur, version);
      g.rest == Stream.Skip(r, |PutBases(sq)|) &&
      g.value == cur.(priority := sq.priority, firstGroundFrame := sq.firstGroundFrame,
        numGroundFrames := sq.numGroundFrames, baseRotation := sq.baseRotation,
        baseTranslation := sq.baseTranslation, baseScale := sq.baseScale,
        baseObjectState := sq.baseObjectState, baseDecalState := sq.baseDecalState,
        firstTrigger := sq.firstTrigger, numTriggers := sq.numTriggers, toolBegin := sq.toolBegin)
    ensures Stream.At(Stream.Skip(r, |PutBases(sq)|), rest)
  {
    var t5 := Stream.PutWord(sq.toolBegin) + rest;
    var t4 := LeBytes(sq.numTriggers, 4) + t5;
    var t3 := LeBytes(sq.firstTrigger, 4) + t4;
    var t2 := PutBaseOffsets(sq) + t3;
    var t1 := LeBytes(sq.numGroundFrames, 4) + t2;
    var t0 := LeBytes(sq.firstGroundFrame, 4) + t1;
    var p, f, n := LeBytes(sq.priority, 4), LeBytes(sq.firstGroundFrame, 4), LeBytes(sq.numGroundFrames, 4);
    var o, ft, nt := PutBaseOffsets(sq), LeBytes(sq.firstTrigger, 4), LeBytes(sq.numTriggers, 4);
    var w := Stream.PutWord(sq.toolBegin);
    Regrouped(p, f + (n + (o + (ft + (nt + w)))), rest);
    Regrouped(f, n + (o + (ft + (nt + w))), rest);
    Regrouped(n, o + (ft + (nt + w)), rest);
    Regrouped(o, ft + (nt + w), rest);
    Regrouped(ft, nt + w, rest);
    Regrouped(nt, w, rest);
    IntNext(r, sq.priority, t0);
    IntNext(Stream.Skip(r, 4), sq.firstGroundFrame, t1);
    IntNext(Stream.Skip(r, 8), sq.numGroundFrames, t2);
    OffsetsWritten(Stream.Skip(r, 12), sq, cur, version, t3);
    IntNext(Stream.Skip(r, 32), sq.firstTrigger, t4);
    IntNext(Stream.Skip(r, 36), sq.numTriggers, t5);
    Stream.WordNext(Stream.Skip(r, 40), sq.toolBegin, rest);
  }

  /** The five base offsets written are read back (from version 22 on). */
  lemma OffsetsWritten(r: Stream.Reader, sq: Sequence, cur: Sequence, version: int, rest: seq<byte>)
    requires sq.BasesFit() && version > 21
    requires r.Valid() && Stream.At(r, PutBaseOffsets(sq) + rest)
    ensures var g := TakeBaseOffsets(r, cur, version);
      g.rest == Stream.Skip(r, 20) &&
      g.value == cur.(baseRotation := sq.baseRotation, baseTranslation := sq.baseTranslation,
        baseScale := sq.baseScale, baseObjectState := sq.baseObjectState, baseDecalState := sq.baseDecalState)
    ensures Stream.At(Stream.Skip(r, 20), rest)
  {
    var t4 := LeBytes(sq.baseDecalState, 4) + rest;
    var t3 := LeBytes(sq.baseObjectState, 4) + t4;
    var t2 := LeBytes(sq.baseScale, 4) + t3;
    var t1 := LeBytes(sq.baseTranslation, 4) + t2;
    var a, b, c := LeBytes(sq.baseRotation, 4), LeBytes(sq.baseTranslation, 4), LeBytes(sq.baseScale, 4);
    var d, e := LeBytes(sq.baseObjectState, 4), LeBytes(sq.baseDecalState, 4);
    Regrouped(a, b + (c + (d + e)), rest);
    Regrouped(b, c + (d + e), rest);
    Regrouped(c, d + e, rest);
    Regrouped(d, e, rest);
    IntNext(r, sq.baseRotation, t1);
    IntNext(Stream.Skip(r, 4), sq.baseTranslation, t2);
    IntNext(Stream.Skip(r, 8), sq.baseScale, t3);
    IntNext(Stream.Skip(r, 12), sq.baseObjectState, t4);
    IntNext(Stream.Skip(r, 16), sq.baseDecalState, rest);
  }

  /** The node sets written are read back (from version 22 on). */
  lemma NodeSetsWritten(r: Stream.Reader, sq: Sequence, cur: Sequence, version: int, rest: seq<byte>)
    requires sq.SetsFit() && version > 21
    requires r.Valid() && Stream.At(r, PutNodeSets(sq) + rest)
    ensures var g := TakeNodeSets(r, cur, version);
      g.rest == Stream.Skip(r, |PutNodeSets(sq)|) &&
      g.value == cur.(rotationMatters := sq.rotationMatters, translationMatters := sq.translationMatters,
        scaleMatters := sq.scaleMatters)
    ensures Stream.At(Stream.Skip(r, |PutNodeSets(sq)|), rest)
  {
    var a, b, c := IntegerSet.PutSet(sq.rotationMatters), IntegerSet.PutSet(sq.translationMatters),
      IntegerSet.PutSet(sq.scaleMatters);
    Regrouped(a, b + c, rest);
    Regrouped(b, c, rest);
    var r1 := Stream.Skip(r, |a|);
    var r2 := Stream.Skip(r1, |b|);
    SetNext(r, sq.rotationMatters, b + (c + rest));
    SetNext(r1, sq.translationMatters, c + rest);
    SetNext(r2, sq.scaleMatters, rest);
  }

  /** The object sets written are read back. */
  lemma ObjectSetsWritten(r: Stream.Reader, sq: Sequence, cur: Sequence)
    requires sq.SetsFit()
    requires r.Valid() && Stream.At(r, PutObjectSets(sq))
    ensures var g := TakeObjectSets(r, cur);
      g.rest == Stream.Skip(r, |PutObjectSets(sq)|) &&
      g.value == cur.(visMatters := sq.visMatters, frameMatters := sq.frameMatters,
        matFrameMatters := sq.matFrameMatters)
  {
    var a, b, c := IntegerSet.PutSet(sq.visMatters), IntegerSet.PutSet(sq.frameMatters),
      IntegerSet.PutSet(sq.matFrameMatters);
    var r1 := Stream.Skip(r, |a|);
    var r2 := Stream.Skip(r1, |b|);
    SetNext(r, sq.visMatters, b + c);
    SetNext(r1, sq.frameMatters, c);
    Stream.TakeAt(r2, c);
    IntegerSet.LoadWrite(r2, sq.matFrameMatters);
  }

  /** The sets written are read back (from version 22 on); the two
      deprecated ones are dropped. */
  lemma SetsWritten(r: Stream.Reader, sq: Sequence, cur: Sequence, version: int)
    requires sq.SetsFit() && version > 21
    requires r.Valid() && Stream.At(r, PutSets(sq))
    ensures var g := TakeSets(r, cur, version);
      g.rest == Stream.Skip(r, |PutSets(sq)|) &&
      g.value == cur.(rotationMatters := sq.rotationMatters, translationMatters := sq.translationMatters,
        scaleMatters := sq.scaleMatters, visMatters := sq.visMatters, frameMatters := sq.frameMatters,
        matFrameMatters := sq.matFrameMatters)
  {
    var e := IntegerSet.PutSet(NoMembers());
    var objects := PutObjectSets(sq);
    NodeSetsWritten(r, sq, cur, version, e + (e + objects));
    var nodes := TakeNodeSets(r, cur, version);
    var r1 := Stream.Skip(r, |PutNodeSets(sq)|);
    var r2 := Stream.Skip(r1, |e|);
    var r3 := Stream.Skip(r2, |e|);
    SetNext(r1, NoMembers(), e + objects);
    SetNext(r2, NoMembers(), objects);
    ObjectSetsWritten(r3, sq, nodes.value);
  }

  /** Reading what `WriteToStream` wrote, with a reader of version 22 or
      later, gives back the sequence written: every field and every set,
      except that the name index keeps its old value when it was neither
      written nor read. */
  lemma LoadWritten(r: Stream.Reader, sq: Sequence, prior: Sequence, version: int, withName: bool)
    requires sq.Fits() && version > 21
    requires r.Valid() && Stream.At(r, PutSequence(sq, withName))
    ensures TakeSequence(r, prior, version, withName)
      == Stream.Got(Stream.Skip(r, |PutSequence(sq, withName)|),
           sq.(nameIndex := if withName then sq.nameIndex else prior.nameIndex))
  {
    var head, body := PutHead(sq, withName), PutBases(sq) + PutSets(sq);
    HeadWritten(r, sq, prior, version, withName, body);
    var h := TakeHead(r, prior, version, withName);
    BodyWritten(Stream.Skip(r, |head|), sq, h.value, version);
  }

  /** What follows the head: the bases and the sets written are read
      back. */
  lemma BodyWritten(r: Stream.Reader, sq: Sequence, cur: Sequence, version: int)
    requires sq.BasesFit() && sq.SetsFit() && version > 21
    requires r.Valid() && Stream.At(r, PutBases(sq) + PutSets(sq))
    ensures var b := TakeBases(r, cur, version);
      TakeSets(b.rest, b.value, version)
        == Stream.Got(Stream.Skip(r, |PutBases(sq) + PutSets(sq)|),
             sq.(nameIndex := cur.nameIndex, numKeyframes := cur.numKeyframes, duration := cur.duration,
               flags := cur.flags))
  {
    BasesWritten(r, sq, cur, version, PutSets(sq));
    var b := TakeBases(r, cur, version);
    SetsWritten(Stream.Skip(r, |PutBases(sq)|), sq, b.value, version);
  }

  /** A version 21 or older file: the translation base and set are the
      rotation ones, and the scale base and set keep their old values. */
  lemma OldLayout(r: Stream.Reader, sq: Sequence, version: int, readNameIndex: bool)
    requires r.Valid() && version < 22
    ensures var g := TakeSequence(r, sq, version, readNameIndex).value;
      g.baseTranslation == g.baseRotation && g.translationMatters == g.rotationMatters &&
      g.baseScale == sq.baseScale && g.scaleMatters == sq.scaleMatters
  {
    var head := TakeHead(r, sq, version, readNameIndex);
    var bases := TakeBases(head.rest, head.value, version);
    assert bases.value.baseTranslation == bases.value.baseRotation;
  }

  /** Before version 22 the flags are exactly those of the three bools
      read after the duration. */
  lemma OldFlags(r: Stream.Reader, sq: Sequence, version: int, readNameIndex: bool)
    requires r.Valid() && version < 22
    ensures var name := if readNameIndex then Stream.TakeSigned(r, 4).rest else r;
      var duration := Stream.TakeWord(Stream.TakeSigned(name, 4).rest);
      var blend := Stream.TakeBool(duration.rest, false);
      var cyclic := Stream.TakeBool(blend.rest, blend.value);
      var makePath := Stream.TakeBool(cyclic.rest, cyclic.value);
      TakeSequence(r, sq, version, readNameIndex).value.flags
        == (if blend.value then Blend else 0) + (if cyclic.value then Cyclic else 0) + (if makePath.value then MakePath else 0)
  {
    var head := TakeHead(r, sq, version, readNameIndex);
    var bases := TakeBases(head.rest, head.value, version);
    assert bases.value.flags == head.value.flags;
    var name := if readNameIndex then Stream.TakeSigned(r, 4).rest else r;
    var duration := Stream.TakeWord(Stream.TakeSigned(name, 4).rest);
    var blend := Stream.TakeBool(duration.rest, false);
    var cyclic := Stream.TakeBool(blend.rest, blend.value);
    var makePath := Stream.TakeBool(cyclic.rest, cyclic.value);
    OldFlagsSum(blend.value, cyclic.value, makePath.value);
  }

  // The methods.

  /** `TSIntegerSet::LoadFromStream` into a set object; its words. */
  method LoadSet(input: Stream.IStream) returns (ws: seq<Word>)
    requires input.Valid()
    modifies input
    ensures input.Valid() && Stream.Got(input.State(), ws) == TakeSetWords(old(input.State()))
  {
    var bitSet := new IntegerSet.TSIntegerSet();
    var _ := bitSet.LoadFromStream(input);
    ws := bitSet.bits[..];
  }

  method LoadWord(input: Stream.IStream) returns (w: Word)
    requires input.Valid()
    modifies input
    ensures input.Valid() && Stream.Got(input.State(), w) == Stream.TakeWord(old(input.State()))
  {
    Int32Range();
    var _, v := input.ReadUnsigned(4);
    w := v;
  }

  method LoadFloat(input: Stream.IStream) returns (f: Float32.Bits)
    requires input.Valid()
    modifies input
    ensures input.Valid() && Stream.Got(input.State(), f) == Stream.TakeWord(old(input.State()))
  {
    Int32Range();
    var _, v := input.ReadFloat();
    f := v;
  }

  method LoadInt(input: Stream.IStream) returns (v: int)
    requires input.Valid()
    modifies input
    ensures input.Valid() && Stream.Got(input.State(), v) == Stream.TakeSigned(old(input.State()), 4)
  {
    var _, x := input.ReadSigned(4);
    v := x;
  }

  method LoadOldFlags(input: Stream.IStream) returns (flags: Word)
    requires input.Valid()
    modifies input
    ensures input.Valid() && Stream.Got(input.State(), flags) == TakeOldFlags(old(input.State()))
  {
    var f: nat := 0;
    var _, blend := input.ReadBool(false);
    if blend {
      f := Bitwise.Or(f, Blend);
    }
    var _, cyclic := input.ReadBool(blend);
    if cyclic {
      f := Bitwise.Or(f, Cyclic);
    }
    var _, makePath := input.ReadBool(cyclic);
    if makePath {
      f := Bitwise.Or(f, MakePath);
    }
    OldFlagsSum(blend, cyclic, makePath);
    flags := f;
  }

  method LoadHead(input: Stream.IStream, sq: Sequence, version: int, readNameIndex: bool) returns (s: Sequence)
    requires input.Valid()
    modifies input
    ensures input.Valid() && Stream.Got(input.State(), s) == TakeHead(old(input.State()), sq, version, readNameIndex)
  {
    s := sq;
    if readNameIndex {
      var v := LoadInt(input);
      s := s.(nameIndex := v);
    }
    s := s.(flags := 0);
    if version > 21 {
      var f := LoadWord(input);
      s := s.(flags := f);
    } else {
      s := s.(flags := 0);
    }
    var k := LoadInt(input);
    var d := LoadFloat(input);
    s := s.(numKeyframes := k, duration := d);
    if version < 22 {
      var f := LoadOldFlags(input);
      s := s.(flags := f);
    }
  }

  method LoadBaseOffsets(input: Stream.IStream, sq: Sequence, version: int) returns (s: Sequence)
    requires input.Valid()
    modifies input
    ensures input.Valid() && Stream.Got(input.State(), s) == TakeBaseOffsets(old(input.State()), sq, version)
  {
    if version > 21 {
      var rotation := LoadInt(input);
      var translation := LoadInt(input);
      var scale := LoadInt(input);
      var objectState := LoadInt(input);
      var decalState := LoadInt(input);
      s := sq.(baseRotation := rotation, baseTranslation := translation, baseScale := scale,
        baseObjectState := objectState, baseDecalState := decalState);
    } else {
      var rotation := LoadInt(input);
      var objectState := LoadInt(input);
      var decalState := LoadInt(input);
      s := sq.(baseRotation := rotation, baseTranslation := rotation, baseObjectState := objectState,
        baseDecalState := decalState);
    }
  }

  method LoadBases(input: Stream.IStream, sq: Sequence, version: int) returns (s: Sequence)
    requires input.Valid()
    modifies input
    ensures input.Valid() && Stream.Got(input.State(), s) == TakeBases(old(input.State()), sq, version)
  {
    var priority := LoadInt(input);
    var firstGround := LoadInt(input);
    var numGround := LoadInt(input);
    s := LoadBaseOffsets(input, sq, version);
    var firstTrigger := LoadInt(input);
    var numTriggers := LoadInt(input);
    var toolBegin := LoadFloat(input);
    s := s.(priority := priority, firstGroundFrame := firstGround, numGroundFrames := numGround,
      firstTrigger := firstTrigger, numTriggers := numTriggers, toolBegin := toolBegin);
  }

  method LoadNodeSets(input: Stream.IStream, sq: Sequence, version: int) returns (s: Sequence)
    requires input.Valid()
    modifies input
    ensures input.Valid() && Stream.Got(input.State(), s) == TakeNodeSets(old(input.State()), sq, version)
  {
    var rotation := LoadSet(input);
    var translation, scale := rotation, sq.scaleMatters;
    if version >= 22 {
      translation := LoadSet(input);
      scale := LoadSet(input);
    }
    s := sq.(rotationMatters := rotation, translationMatters := translation, scaleMatters := scale);
  }

  method LoadObjectSets(input: Stream.IStream, sq: Sequence) returns (s: Sequence)
    requires input.Valid()
    modifies input
    ensures input.Valid() && Stream.Got(input.State(), s) == TakeObjectSets(old(input.State()), sq)
  {
    var vis := LoadSet(input);
    var frame := LoadSet(input);
    var matFrame := LoadSet(input);
    s := sq.(visMatters := vis, frameMatters := frame, matFrameMatters := matFrame);
  }

  method LoadSets(input: Stream.IStream, sq: Sequence, version: int) returns (s: Sequence)
    requires input.Valid()
    modifies input
    ensures input.Valid() && Stream.Got(input.State(), s) == TakeSets(old(input.State()), sq, version)
  {
    s := LoadNodeSets(input, sq, version);
    var _ := LoadSet(input);
    var _ := LoadSet(input);
    s := LoadObjectSets(input, s);
  }

  /** `Sequence::LoadFromStream`: the sequence as read; the result is
      always true. */
  method LoadFromStream(input: Stream.IStream, sq: Sequence, version: int, readNameIndex: bool)
    returns (loaded: Sequence, ok: bool)
    requires input.Valid()
    modifies input
    ensures input.Valid()
    ensures Stream.Got(input.State(), loaded) == TakeSequence(old(input.State()), sq, version, readNameIndex)
    ensures ok
  {
    loaded := LoadHead(input, sq, version, readNameIndex);
    loaded := LoadBases(input, loaded, version);
    loaded := LoadSets(input, loaded, version);
    ok := true;
  }

  /** `TSIntegerSet::WriteToStream` of a set object holding the words ws. */
  method WriteSet(output: Stream.OStream, ws: seq<Word>)
    requires |ws| == IntegerSet.MaxSetDWords
    modifies output
    ensures output.good == old(output.good)
    ensures output.out == old(output.out) + (if old(output.good) then IntegerSet.PutSet(ws) else [])
  {
    var bitSet := new IntegerSet.TSIntegerSet();
    forall i | 0 <= i < IntegerSet.MaxSetDWords {
      bitSet.bits[i] := ws[i];
    }
    assert bitSet.bits[..] == ws;
    var _ := bitSet.WriteToStream(output);
  }

  method WriteHead(output: Stream.OStream, sq: Sequence, writeNameIndex: bool)
    requires sq.Fits()
    modifies output
    ensures output.good == old(output.good)
    ensures output.out == old(output.out) + (if old(output.good) then PutHead(sq, writeNameIndex) else [])
  {
    ghost var o := output.out;
    if writeNameIndex {
      var _ := output.WriteSigned(sq.nameIndex, 4);
    }
    ghost var o1 := output.out;
    var _ := output.WriteUnsigned(sq.flags, 4);
    ghost var o2 := output.out;
    var _ := output.WriteSigned(sq.numKeyframes, 4);
    ghost var o3 := output.out;
    var _ := output.WriteFloat(sq.duration);
    if output.good {
      var c := Stream.PutWord(sq.duration);
      var b := LeBytes(sq.numKeyframes, 4) + c;
      var a := Stream.PutWord(sq.flags) + b;
      AppendedInTurn(o2, o3, output.out, LeBytes(sq.numKeyframes, 4), c);
      AppendedInTurn(o1, o2, output.out, Stream.PutWord(sq.flags), b);
      AppendedInTurn(o, o1, output.out, if writeNameIndex then LeBytes(sq.nameIndex, 4) else [], a);
    }
  }

  method WriteBaseOffsets(output: Stream.OStream, sq: Sequence)
    requires sq.Fits()
    modifies output
    ensures output.good == old(output.good)
    ensures output.out == old(output.out) + (if old(output.good) then PutBaseOffsets(sq) else [])
  {
    ghost var o := output.out;
    var _ := output.WriteSigned(sq.baseRotation, 4);
    ghost var o1 := output.out;
    var _ := output.WriteSigned(sq.baseTranslation, 4);
    ghost var o2 := output.out;
    var _ := output.WriteSigned(sq.baseScale, 4);
    ghost var o3 := output.out;
    var _ := output.WriteSigned(sq.baseObjectState, 4);
    ghost var o4 := output.out;
    var _ := output.WriteSigned(sq.baseDecalState, 4);
    if output.good {
      var d := LeBytes(sq.baseDecalState, 4);
      var c := LeBytes(sq.baseObjectState, 4) + d;
      var b := LeBytes(sq.baseScale, 4) + c;
      var a := LeBytes(sq.baseTranslation, 4) + b;
      AppendedInTurn(o3, o4, output.out, LeBytes(sq.baseObjectState, 4), d);
      AppendedInTurn(o2, o3, output.out, LeBytes(sq.baseScale, 4), c);
      AppendedInTurn(o1, o2, output.out, LeBytes(sq.baseTranslation, 4), b);
      AppendedInTurn(o, o1, output.out, LeBytes(sq.baseRotation, 4), a);
    }
  }

  method WriteBases(output: Stream.OStream, sq: Sequence)
    requires sq.Fits()
    modifies output
    ensures output.good == old(output.good)
    ensures output.out == old(output.out) + (if old(output.good) then PutBases(sq) else [])
  {
    ghost var o := output.out;
    var _ := output.WriteSigned(sq.priority, 4);
    ghost var o1 := output.out;
    var _ := output.WriteSigned(sq.firstGroundFrame, 4);
    ghost var o2 := output.out;
    var _ := output.WriteSigned(sq.numGroundFrames, 4);
    ghost var o3 := output.out;
    WriteBaseOffsets(output, sq);
    ghost var o4 := output.out;
    var _ := output.WriteSigned(sq.firstTrigger, 4);
    ghost var o5 := output.out;
    var _ := output.WriteSigned(sq.numTriggers, 4);
    ghost var o6 := output.out;
    var _ := output.WriteFloat(sq.toolBegin);
    if output.good {
      var f := Stream.PutWord(sq.toolBegin);
      var e := LeBytes(sq.numTriggers, 4) + f;
      var d := LeBytes(sq.firstTrigger, 4) + e;
      var c := PutBaseOffsets(sq) + d;
      var b := LeBytes(sq.numGroundFrames, 4) + c;
      var a := LeBytes(sq.firstGroundFrame, 4) + b;
      AppendedInTurn(o5, o6, output.out, LeBytes(sq.numTriggers, 4), f);
      AppendedInTurn(o4, o5, output.out, LeBytes(sq.firstTrigger, 4), e);
      AppendedInTurn(o3, o4, output.out, PutBaseOffsets(sq), d);
      AppendedInTurn(o2, o3, output.out, LeBytes(sq.numGroundFrames, 4), c);
      AppendedInTurn(o1, o2, output.out, LeBytes(sq.firstGroundFrame, 4), b);
      AppendedInTurn(o, o1, output.out, LeBytes(sq.priority, 4), a);
    }
  }

  method WriteNodeSets(output: Stream.OStream, sq: Sequence)
    requires sq.Fits()
    modifies output
    ensures output.good == old(output.good)
    ensures output.out == old(output.out) + (if old(output.good) then PutNodeSets(sq) else [])
  {
    ghost var o := output.out;
    WriteSet(output, sq.rotationMatters);
    ghost var o1 := output.out;
    WriteSet(output, sq.translationMatters);
    ghost var o2 := output.out;
    WriteSet(output, sq.scaleMatters);
    if output.good {
      var c := IntegerSet.PutSet(sq.scaleMatters);
      AppendedInTurn(o1, o2, output.out, IntegerSet.PutSet(sq.translationMatters), c);
      AppendedInTurn(o, o1, output.out, IntegerSet.PutSet(sq.rotationMatters), IntegerSet.PutSet(sq.translationMatters) + c);
    }
  }

  method WriteObjectSets(output: Stream.OStream, sq: Sequence)
    requires sq.Fits()
    modifies output
    ensures output.good == old(output.good)
    ensures output.out == old(output.out) + (if old(output.good) then PutObjectSets(sq) else [])
  {
    ghost var o := output.out;
    WriteSet(output, sq.visMatters);
    ghost var o1 := output.out;
    WriteSet(output, sq.frameMatters);
    ghost var o2 := output.out;
    WriteSet(output, sq.matFrameMatters);
    if output.good {
      var c := IntegerSet.PutSet(sq.matFrameMatters);
      AppendedInTurn(o1, o2, output.out, IntegerSet.PutSet(sq.frameMatters), c);
      AppendedInTurn(o, o1, output.out, IntegerSet.PutSet(sq.visMatters), IntegerSet.PutSet(sq.frameMatters) + c);
    }
  }

  method WriteSets(output: Stream.OStream, sq: Sequence)
    requires sq.Fits()
    modifies output
    ensures output.good == old(output.good)
    ensures output.out == old(output.out) + (if old(output.good) then PutSets(sq) else [])
  {
    ghost var o := output.out;
    WriteNodeSets(output, sq);
    ghost var o1 := output.out;
    var dummy := new IntegerSet.TSIntegerSet();
    assert dummy.bits[..] == NoMembers();
    var _ := dummy.WriteToStream(output);
    ghost var o2 := output.out;
    var _ := dummy.WriteToStream(output);
    ghost var o3 := output.out;
    WriteObjectSets(output, sq);
    if output.good {
      var e := IntegerSet.PutSet(NoMembers());
      AppendedInTurn(o2, o3, output.out, e, PutObjectSets(sq));
      AppendedInTurn(o1, o2, output.out, e, e + PutObjectSets(sq));
      AppendedInTurn(o, o1, output.out, PutNodeSets(sq), e + (e + PutObjectSets(sq)));
    }
  }

  /** `Sequence::WriteToStream`: the bytes of PutSequence; the result is
      always true. */
  method WriteToStream(output: Stream.OStream, sq: Sequence, writeNameIndex: bool) returns (ok: bool)
    requires sq.Fits()
    modifies output
    ensures output.good == old(output.good)
    ensures output.out == old(output.out) + (if old(output.good) then PutSequence(sq, writeNameIndex) else [])
    ensures ok
  {
    ghost var o := output.out;
    WriteHead(output, sq, writeNameIndex);
    ghost var o1 := output.out;
    WriteBases(output, sq);
    ghost var o2 := output.out;
    WriteSets(output, sq);
    if output.good {
      AppendedInTurn(o1, o2, output.out, PutBases(sq), PutSets(sq));
      AppendedInTurn(o, o1, output.out, PutHead(sq, writeNameIndex), PutBases(sq) + PutSets(sq));
    }
    ok := true;
  }
}
