/**
 * MaterialLists: the material list that follows the shape in a DTS file.
 * `MaterialList` is a version byte, a 32-bit count and that many names; each
 * name loses any directory part it carries. `TSMaterialList` adds six
 * per-material arrays after the names: flags, reflectance, bump and detail
 * map indices, detail scales and reflection amounts. The floats among them
 * are carried as their bit patterns. The reader's layout depends on the
 * shape version being read: version 25 has one extra word per material
 * before the detail scales, and before version 21 there are no reflection
 * amounts (they become 1.0).
 */
module MaterialLists {
  import opened Bytes
  import opened Stream
  import Float32
  import Bitwise

  type Word = Bitwise.Word

  /** The version byte of the list. */
  const BinaryFileVersion: nat := 1

  // ----------------------------------------------------------------------
  // Names

  predicate IsSeparator(c: char)
  {
    c == '/' || c == '\\'
  }

  /** `name` after the pointer walk: the characters after the last
      separator of s, all of s when it has none. */
  function Stripped(s: string): (r: string)
    ensures |r| <= |s|
  {
    if |s| == 0 || IsSeparator(s[|s| - 1]) then [] else Stripped(s[..|s| - 1]) + [s[|s| - 1]]
  }

  /** The stripped name is the longest suffix without a separator: it is a
      suffix, has no separator, and is all of s or follows a separator. */
  lemma {:induction false} StrippedIsLastPart(s: string)
    ensures var r := Stripped(s);
      r == s[|s| - |r|..] &&
      (forall i :: 0 <= i < |r| ==> !IsSeparator(r[i])) &&
      (|r| < |s| ==> IsSeparator(s[|s| - |r| - 1]))
  {
    if |s| > 0 && !IsSeparator(s[|s| - 1]) {
      var init := s[..|s| - 1];
      StrippedIsLastPart(init);
      var r0 := Stripped(init);
      assert init[|init| - |r0|..] + [s[|s| - 1]] == s[|s| - |r0| - 1..];
    }
  }

  /** The name pointer walks back from the end of the buffer to just after
      the last separator. */
  method StripPath(s: string) returns (name: string)
    ensures name == Stripped(s)
  {
    var k := |s|;
    assert s[..k] == s;
    while k > 0 && !IsSeparator(s[k - 1])
      invariant 0 <= k <= |s|
      invariant Stripped(s) == Stripped(s[..k]) + s[k..]
    {
      StrippedStep(s, k);
      k := k - 1;
    }
    name := s[k..];
  }

  lemma StrippedStep(s: string, k: nat)
    requires 0 < k <= |s| && !IsSeparator(s[k - 1])
    ensures Stripped(s[..k]) + s[k..] == Stripped(s[..k - 1]) + s[k - 1..]
  {
    assert s[..k][..k - 1] == s[..k - 1];
    assert [s[k - 1]] + s[k..] == s[k - 1..];
  }

  /** A name without a directory part is kept as it is. */
  lemma StrippedPlain(s: string)
    requires forall i :: 0 <= i < |s| ==> !IsSeparator(s[i])
    ensures Stripped(s) == s
  {
    StrippedIsLastPart(s);
  }

  /** Stripping twice strips no more than once. */
  lemma StrippedIdempotent(s: string)
    ensures Stripped(Stripped(s)) == Stripped(s)
  {
    StrippedIsLastPart(s);
    StrippedPlain(Stripped(s));
  }

  /** The names read so far, and whether the list is still good. */
  datatype Names = Names(names: seq<string>, ok: bool)

  /** The loop over n names: each is read as a string; an empty one ends the
      load with failure, keeping the names already added. */
  function TakeNames(r: Reader, n: nat): (g: Got<Names>)
    requires r.Valid()
    ensures g.rest.Valid() && |g.value.names| <= n
    ensures g.value.ok ==> |g.value.names| == n
  {
    if n == 0 then Got(r, Names([], true))
    else
      var p := TakeNames(r, n - 1);
      if !p.value.ok then p
      else
        var s := TakeString(p.rest);
        if s.value == [] then Got(s.rest, Names(p.value.names, false))
        else Got(s.rest, Names(p.value.names + [Stripped(s.value)], true))
  }

  /** `MaterialList::LoadFromStream`: a version byte that was read and is
      not 1 fails, so does a count that cannot be read; then the names, and
      the load holds if the stream is still good. */
  function TakeNameList(r: Reader): (g: Got<Names>)
    requires r.Valid()
    ensures g.rest.Valid()
  {
    var version := TakeUnsigned(r, 1);
    if version.rest.good && version.value != BinaryFileVersion then Got(version.rest, Names([], false))
    else
      var count := TakeUnsigned(version.rest, 4);
      if !count.rest.good then Got(count.rest, Names([], false))
      else
        var ns := TakeNames(count.rest, count.value);
        Got(ns.rest, Names(ns.value.names, ns.value.ok && ns.rest.good))
  }

  /** Once a name fails, later iterations change nothing. */
  lemma {:induction false} FailedStays(r: Reader, i: nat, n: nat)
    requires r.Valid() && i <= n && !TakeNames(r, i).value.ok
    ensures TakeNames(r, n) == TakeNames(r, i)
    decreases n - i
  {
    if i < n {
      FailedStays(r, i, n - 1);
    }
  }

  /** The bytes `WriteString` appends for each name, in order. */
  function PutNames(names: seq<string>): (bs: seq<byte>)
  {
    if |names| == 0 then [] else PutNames(names[..|names| - 1]) + PutString(names[|names| - 1])
  }

  lemma PutNamesStep(names: seq<string>, i: nat)
    requires i < |names|
    ensures PutNames(names[..i + 1]) == PutNames(names[..i]) + PutString(names[i])
  {
    assert names[..i + 1][..i] == names[..i];
  }

  /** `MaterialList::WriteToStream`: the version byte, the count and the
      names. */
  function PutNameList(names: seq<string>): (bs: seq<byte>)
    requires |names| < 0x1_0000_0000
    ensures |bs| >= 5 && bs[0] == BinaryFileVersion && bs[1..5] == LeBytes(|names|, 4)
  {
    Int32Range();
    [BinaryFileVersion] + (PutUnsigned(|names|, 4) + PutNames(names))
  }

  /** A name that comes back as written: not empty, without NULs or
      separators, of C characters, at most 255 of them. */
  predicate PlainName(s: string)
  {
    0 < |s| <= 0xFF && NoNul(s) && Narrow(s) && forall i :: 0 <= i < |s| ==> !IsSeparator(s[i])
  }

  /** One written name read back. */
  lemma NameNext(r: Reader, name: string, rest: seq<byte>)
    requires PlainName(name) && r.Valid() && At(r, PutString(name) + rest)
    ensures TakeString(r) == Got(Skip(r, |PutString(name)|), name) && Stripped(name) == name
    ensures At(Skip(r, |PutString(name)|), rest)
  {
    AtConcat(r, PutString(name), rest);
    TakeStringPut(r, name);
    StrippedPlain(name);
  }

  lemma {:induction false} NamesWritten(r: Reader, names: seq<string>, rest: seq<byte>)
    requires forall i :: 0 <= i < |names| ==> PlainName(names[i])
    requires r.Valid() && At(r, PutNames(names) + rest)
    ensures TakeNames(r, |names|) == Got(Skip(r, |PutNames(names)|), Names(names, true))
    ensures At(Skip(r, |PutNames(names)|), rest)
  {
    if |names| > 0 {
      var init, last := names[..|names| - 1], names[|names| - 1];
      assert names == init + [last];
      var bs := PutString(last);
      Regrouped(PutNames(init), bs, rest);
      NamesWritten(r, init, bs + rest);
      NameNext(Skip(r, |PutNames(init)|), last, rest);
    }
  }

  /** Reading a written name list gives back the names. */
  lemma NameListWritten(r: Reader, names: seq<string>, rest: seq<byte>)
    requires |names| < 0x1_0000_0000 && forall i :: 0 <= i < |names| ==> PlainName(names[i])
    requires r.Valid() && At(r, PutNameList(names) + rest)
    ensures TakeNameList(r) == Got(Skip(r, |PutNameList(names)|), Names(names, true))
    ensures At(Skip(r, |PutNameList(names)|), rest)
  {
    Int32Range();
    var count, body := PutUnsigned(|names|, 4), PutNames(names);
    Regrouped([BinaryFileVersion], count + body, rest);
    Regrouped(count, body, rest);
    AtConcat(r, [BinaryFileVersion], count + (body + rest));
    TakeUnsignedPut(r, BinaryFileVersion, 1);
    var r1 := Skip(r, 1);
    AtConcat(r1, count, body + rest);
    TakeUnsignedPut(r1, |names|, 4);
    NamesWritten(Skip(r1, 4), names, rest);
  }

  /** A bad version byte fails the load and reads nothing more. */
  lemma WrongVersion(r: Reader)
    requires r.Valid() && r.good && r.pos < |r.data| && r.data[r.pos] != BinaryFileVersion
    ensures TakeNameList(r) == Got(Skip(r, 1), Names([], false))
  {
    TakeAt(r, [r.data[r.pos]]);
    assert Unsigned([r.data[r.pos]]) == r.data[r.pos] by {
      assert [r.data[r.pos]][1..] == [];
    }
  }

  /** An empty name (a zero length byte) after some good names ends the
      load with failure, whatever the count: the names before it are kept
      and nothing after it is read. */
  lemma EmptyNameFails(r: Reader, before: seq<string>, n: nat)
    requires forall i :: 0 <= i < |before| ==> PlainName(before[i])
    requires |before| < n && r.Valid() && At(r, PutNames(before) + [0])
    ensures TakeNames(r, n) == Got(Skip(r, |PutNames(before)| + 1), Names(before, false))
  {
    NamesWritten(r, before, [0]);
    var r1 := Skip(r, |PutNames(before)|);
    TakeAt(r1, [0]);
    assert Unsigned([0]) == 0 by {
      assert [0][1..] == [];
    }
    TakeNothing(Skip(r1, 1), 0);
    FailedStays(r, |before| + 1, n);
  }

  // ----------------------------------------------------------------------
  // Per-material arrays

  /** The six arrays of `TSMaterialList`, the floats as bit patterns. */
  datatype Attributes = Attributes(flags: seq<Word>, reflectanceMaps: seq<Word>, bumpMaps: seq<Word>,
    detailMaps: seq<Word>, detailScales: seq<Word>, reflectionAmounts: seq<Word>)
  {
    /** The four map arrays have n entries. */
    predicate MapsSized(n: nat)
    {
      |flags| == n && |reflectanceMaps| == n && |bumpMaps| == n && |detailMaps| == n
    }

    /** Every array has n entries. */
    predicate Sized(n: nat)
    {
      MapsSized(n) && |detailScales| == n && |reflectionAmounts| == n
    }
  }

  /** n 32-bit words read one after another. */
  function TakeWords(r: Reader, n: nat): (g: Got<seq<Word>>)
    requires r.Valid()
    ensures g.rest.Valid() && |g.value| == n
  {
    if n == 0 then Got(r, [])
    else
      var p := TakeWords(r, n - 1);
      var w := TakeWord(p.rest);
      Got(w.rest, p.value + [w.value])
  }

  function PutWords(ws: seq<Word>): (bs: seq<byte>)
    ensures |bs| == 4 * |ws|
  {
    if |ws| == 0 then [] else PutWords(ws[..|ws| - 1]) + PutWord(ws[|ws| - 1])
  }

  lemma {:induction false} WordsWritten(r: Reader, ws: seq<Word>, rest: seq<byte>)
    requires r.Valid() && At(r, PutWords(ws) + rest)
    ensures TakeWords(r, |ws|) == Got(Skip(r, 4 * |ws|), ws)
    ensures At(Skip(r, 4 * |ws|), rest)
  {
    if |ws| > 0 {
      var init, last := ws[..|ws| - 1], ws[|ws| - 1];
      assert ws == init + [last];
      var bs := PutWord(last);
      Regrouped(PutWords(init), bs, rest);
      WordsWritten(r, init, bs + rest);
      WordNext(Skip(r, 4 * |init|), last, rest);
    }
  }

  /** The four map arrays: flags, reflectance, bump and detail maps. The
      other two arrays are left to `TakeScales`. */
  function TakeMaps(r: Reader, n: nat): (g: Got<Attributes>)
    requires r.Valid()
    ensures g.rest.Valid() && g.value.MapsSized(n)
  {
    var flags := TakeWords(r, n);
    var reflectance := TakeWords(flags.rest, n);
    var bump := TakeWords(reflectance.rest, n);
    var detail := TakeWords(bump.rest, n);
    Got(detail.rest, Attributes(flags.value, reflectance.value, bump.value, detail.value, [], []))
  }

  /** The rest of the arrays: the discarded words of version 25, the detail
      scales, and the reflection amounts from version 21 on (1.0 each
      before). */
  function TakeScales(r: Reader, a: Attributes, n: nat, version: int): (g: Got<Attributes>)
    requires r.Valid()
    ensures g.rest.Valid() && |g.value.detailScales| == n && |g.value.reflectionAmounts| == n
  {
    var discarded := if version == 25 then TakeWords(r, n) else Got(r, []);
    var scales := TakeWords(discarded.rest, n);
    var amounts := if version > 20 then TakeWords(scales.rest, n) else Got(scales.rest, seq(n, _ => Float32.PlusOne));
    Got(amounts.rest, a.(detailScales := scales.value, reflectionAmounts := amounts.value))
  }

  /** `TSMaterialList::LoadFromStream` after the names, for n materials. */
  function TakeAttributes(r: Reader, n: nat, version: int): (g: Got<Attributes>)
    requires r.Valid()
    ensures g.rest.Valid() && g.value.Sized(n)
  {
    var maps := TakeMaps(r, n);
    TakeScales(maps.rest, maps.value, n, version)
  }

  function PutMaps(a: Attributes): (bs: seq<byte>)
  {
    PutWords(a.flags) + (PutWords(a.reflectanceMaps) + (PutWords(a.bumpMaps) + PutWords(a.detailMaps)))
  }

  /** The bytes after the maps in the order the reader of a version takes
      them: `discarded` stands for the extra words of version 25, and the
      reflection amounts are present or not. */
  function PutScales(a: Attributes, discarded: seq<Word>, withAmounts: bool): (bs: seq<byte>)
  {
    PutWords(discarded) + (PutWords(a.detailScales) + (if withAmounts then PutWords(a.reflectionAmounts) else []))
  }

  lemma ScalesWithoutDiscarded(a: Attributes)
    ensures PutScales(a, [], true) == PutWords(a.detailScales) + PutWords(a.reflectionAmounts)
  {
    assert PutWords([]) == [];
  }

  /** The arrays as a reader of a version expects them. */
  function Layout(a: Attributes, discarded: seq<Word>, withAmounts: bool): (bs: seq<byte>)
  {
    PutMaps(a) + PutScales(a, discarded, withAmounts)
  }

  /** What `TSMaterialList::WriteToStream` writes after the names: every
      array, reflection amounts included, and no discarded words. */
  function PutAttributes(a: Attributes): (bs: seq<byte>)
  {
    Layout(a, [], true)
  }

  lemma MapsRead(r: Reader, a: Attributes, n: nat, rest: seq<byte>)
    requires a.MapsSized(n) && r.Valid() && At(r, PutMaps(a) + rest)
    ensures TakeMaps(r, n) == Got(Skip(r, |PutMaps(a)|), a.(detailScales := [], reflectionAmounts := []))
    ensures At(Skip(r, |PutMaps(a)|), rest)
  {
    var t3 := PutWords(a.detailMaps) + rest;
    var t2 := PutWords(a.bumpMaps) + t3;
    var t1 := PutWords(a.reflectanceMaps) + t2;
    Regrouped(PutWords(a.bumpMaps), PutWords(a.detailMaps), rest);
    Regrouped(PutWords(a.reflectanceMaps), PutWords(a.bumpMaps) + PutWords(a.detailMaps), rest);
    Regrouped(PutWords(a.flags), PutWords(a.reflectanceMaps) + (PutWords(a.bumpMaps) + PutWords(a.detailMaps)), rest);
    WordsWritten(r, a.flags, t1);
    var r1 := Skip(r, 4 * n);
    WordsWritten(r1, a.reflectanceMaps, t2);
    var r2 := Skip(r1, 4 * n);
    WordsWritten(r2, a.bumpMaps, t3);
    WordsWritten(Skip(r2, 4 * n), a.detailMaps, rest);
  }

  lemma ScalesRead(r: Reader, a: Attributes, m: Attributes, n: nat, discarded: seq<Word>, version: int)
    requires |a.detailScales| == n && |a.reflectionAmounts| == n
    requires |discarded| == (if version == 25 then n else 0)
    requires r.Valid() && At(r, PutScales(a, discarded, version > 20))
    ensures TakeScales(r, m, n, version)
      == Got(Skip(r, |PutScales(a, discarded, version > 20)|),
           m.(detailScales := a.detailScales,
              reflectionAmounts := if version > 20 then a.reflectionAmounts else seq(n, _ => Float32.PlusOne)))
  {
    var tail := if version > 20 then PutWords(a.reflectionAmounts) else [];
    var t5 := PutWords(a.detailScales) + tail;
    WordsWritten(r, discarded, t5);
    var r1 := Skip(r, 4 * |discarded|);
    if version > 20 {
      WordsWritten(r1, a.detailScales, tail);
      assert tail == PutWords(a.reflectionAmounts) + [];
      WordsWritten(Skip(r1, 4 * n), a.reflectionAmounts, []);
    } else {
      assert t5 == PutWords(a.detailScales) + [];
      WordsWritten(r1, a.detailScales, []);
    }
  }

  /** Reading the arrays laid out for a version gives them back; before
      version 21 the reflection amounts are all 1.0 instead, and version 25
      skips its extra words. */
  lemma LayoutRead(r: Reader, a: Attributes, n: nat, discarded: seq<Word>, version: int)
    requires a.Sized(n) && |discarded| == (if version == 25 then n else 0)
    requires r.Valid() && At(r, Layout(a, discarded, version > 20))
    ensures TakeAttributes(r, n, version)
      == Got(Skip(r, |Layout(a, discarded, version > 20)|),
           if version > 20 then a else a.(reflectionAmounts := seq(n, _ => Float32.PlusOne)))
  {
    MapsRead(r, a, n, PutScales(a, discarded, version > 20));
    var m := TakeMaps(r, n);
    ScalesRead(Skip(r, |PutMaps(a)|), a, m.value, n, discarded, version);
  }

  /** A written list read back with a reader of version 21 to 24: the names
      and all six arrays come back as written. */
  lemma ListWritten(r: Reader, names: seq<string>, a: Attributes, version: int)
    requires |names| < 0x1_0000_0000 && forall i :: 0 <= i < |names| ==> PlainName(names[i])
    requires a.Sized(|names|) && 20 < version < 25
    requires r.Valid() && At(r, PutNameList(names) + PutAttributes(a))
    ensures var g := TakeNameList(r);
      g.value == Names(names, true) &&
      TakeAttributes(g.rest, |names|, version)
        == Got(Skip(r, |PutNameList(names) + PutAttributes(a)|), a)
  {
    NameListWritten(r, names, PutAttributes(a));
    LayoutRead(Skip(r, |PutNameList(names)|), a, |names|, [], version);
  }

  /** `vector::resize`: cut to n, or padded with zeros. */
  function Resized(ws: seq<Word>, n: nat): (r: seq<Word>)
    ensures |r| == n && forall i :: 0 <= i < n && i < |ws| ==> r[i] == ws[i]
    ensures forall i :: |ws| <= i < n ==> r[i] == 0
  {
    if n <= |ws| then ws[..n] else ws + seq(n - |ws|, _ => 0)
  }

  // ----------------------------------------------------------------------
  // The list object

  class TSMaterialList {
    var names: seq<string>
    var flags: seq<Word>
    var reflectanceMaps: seq<Word>
    var bumpMaps: seq<Word>
    var detailMaps: seq<Word>
    var detailScales: seq<Word>
    var reflectionAmounts: seq<Word>

    function Attrs(): Attributes
      reads this
    {
      Attributes(flags, reflectanceMaps, bumpMaps, detailMaps, detailScales, reflectionAmounts)
    }

    constructor()
      ensures names == [] && Attrs().Sized(0)
    {
      names := [];
      flags, reflectanceMaps, bumpMaps, detailMaps, detailScales, reflectionAmounts := [], [], [], [], [], [];
    }

    /** `MaterialList::LoadFromStream`. The names read are added after the
        ones the list already holds. */
    method LoadNames(input: IStream) returns (ok: bool)
      requires input.Valid()
      modifies this, input
      ensures input.Valid()
      ensures var g := TakeNameList(old(input.State()));
        input.State() == g.rest && names == old(names) + g.value.names && ok == g.value.ok
      ensures Attrs() == old(Attrs())
    {
      var readOk, version := input.ReadUnsigned(1);
      if readOk && version != BinaryFileVersion {
        assert names == names + [];
        return false;
      }
      var countOk, count := input.ReadUnsigned(4);
      if !countOk {
        assert names == names + [];
        return false;
      }
      var read;
      read, ok := ReadNames(input, count);
      names := names + read;
      ok := ok && input.good;
    }

    /** `Allocate(n)`: every array resized to n entries. */
    method Allocate(n: nat)
      modifies this
      ensures names == old(names)
      ensures Attrs() == Attributes(Resized(old(flags), n), Resized(old(reflectanceMaps), n),
        Resized(old(bumpMaps), n), Resized(old(detailMaps), n), Resized(old(detailScales), n),
        Resized(old(reflectionAmounts), n))
    {
      flags := Resized(flags, n);
      reflectanceMaps := Resized(reflectanceMaps, n);
      bumpMaps := Resized(bumpMaps, n);
      detailMaps := Resized(detailMaps, n);
      detailScales := Resized(detailScales, n);
      reflectionAmounts := Resized(reflectionAmounts, n);
    }

    /** `TSMaterialList::LoadFromStream` for the shape version being read.
        After the names, all six arrays have one entry per name. */
    method LoadFromStream(input: IStream, version: int) returns (ok: bool)
      requires input.Valid()
      modifies this, input
      ensures input.Valid()
      ensures var g := TakeNameList(old(input.State()));
        names == old(names) + g.value.names &&
        if !g.value.ok then !ok && input.State() == g.rest && Attrs() == old(Attrs())
        else
          var a := TakeAttributes(g.rest, |names|, version);
          input.State() == a.rest && Attrs() == a.value && ok == a.rest.good
    {
      ok := LoadNames(input);
      if !ok {
        return;
      }
      Allocate(|names|);
      LoadMaps(input);
      LoadScales(input, version);
      ok := input.good;
    }

    /** The loops over the four map arrays. */
    method LoadMaps(input: IStream)
      requires input.Valid() && Attrs().Sized(|names|)
      modifies this, input
      ensures input.Valid() && names == old(names)
      ensures var m := TakeMaps(old(input.State()), |names|);
        input.State() == m.rest &&
        Attrs() == m.value.(detailScales := old(detailScales), reflectionAmounts := old(reflectionAmounts))
    {
      flags := ReadWordsOver(input, flags);
      reflectanceMaps := ReadWordsOver(input, reflectanceMaps);
      bumpMaps := ReadWordsOver(input, bumpMaps);
      detailMaps := ReadWordsOver(input, detailMaps);
    }

    /** The discarded words of version 25, the detail scales and the
        reflection amounts. */
    method LoadScales(input: IStream, version: int)
      requires input.Valid() && Attrs().Sized(|names|)
      modifies this, input
      ensures input.Valid() && names == old(names)
      ensures var t := TakeScales(old(input.State()), old(Attrs()), |names|, version);
        input.State() == t.rest && Attrs() == t.value
    {
      if version == 25 {
        var discarded := ReadDiscarded(input, |names|);
      }
      detailScales := ReadWordsOver(input, detailScales);
      if version > 20 {
        reflectionAmounts := ReadWordsOver(input, reflectionAmounts);
      } else {
        reflectionAmounts := FillOnes(reflectionAmounts);
      }
    }

    /** `WriteToStream`: the names, then the six arrays in order. */
    method WriteToStream(output: OStream) returns (ok: bool)
      requires |names| < 0x1_0000_0000 && Attrs().Sized(|names|)
      modifies output
      ensures output.good == old(output.good)
      ensures output.out == old(output.out) + (if old(output.good) then PutNameList(names) + PutAttributes(Attrs()) else [])
      ensures ok == output.good
    {
      ghost var o0 := output.out;
      ok := WriteNames(output);
      if !ok {
        return;
      }
      ghost var o1 := output.out;
      WriteMaps(output);
      ghost var o2 := output.out;
      WriteScales(output);
      AppendedInTurn(o1, o2, output.out, PutMaps(Attrs()), PutScales(Attrs(), [], true));
      AppendedInTurn(o0, o1, output.out, PutNameList(names), PutAttributes(Attrs()));
      ok := output.good;
    }

    method WriteMaps(output: OStream)
      modifies output
      ensures output.good == old(output.good)
      ensures output.out == old(output.out) + (if old(output.good) then PutMaps(Attrs()) else [])
    {
      ghost var o0 := output.out;
      WriteWords(output, flags);
      ghost var o1 := output.out;
      WriteWords(output, reflectanceMaps);
      ghost var o2 := output.out;
      WriteWords(output, bumpMaps);
      ghost var o3 := output.out;
      WriteWords(output, detailMaps);
      if output.good {
        AppendedInTurn(o2, o3, output.out, PutWords(bumpMaps), PutWords(detailMaps));
        AppendedInTurn(o1, o2, output.out, PutWords(reflectanceMaps), PutWords(bumpMaps) + PutWords(detailMaps));
        AppendedInTurn(o0, o1, output.out, PutWords(flags),
          PutWords(reflectanceMaps) + (PutWords(bumpMaps) + PutWords(detailMaps)));
      }
    }

    method WriteScales(output: OStream)
      modifies output
      ensures output.good == old(output.good)
      ensures output.out == old(output.out) + (if old(output.good) then PutScales(Attrs(), [], true) else [])
    {
      ScalesWithoutDiscarded(Attrs());
      ghost var o0 := output.out;
      WriteWords(output, detailScales);
      ghost var o1 := output.out;
      WriteWords(output, reflectionAmounts);
      if output.good {
        AppendedInTurn(o0, o1, output.out, PutWords(detailScales), PutWords(reflectionAmounts));
      }
    }

    /** `MaterialList::WriteToStream`. */
    method WriteNames(output: OStream) returns (ok: bool)
      requires |names| < 0x1_0000_0000
      modifies output
      ensures output.good == old(output.good)
      ensures output.out == old(output.out) + (if old(output.good) then PutNameList(names) else [])
      ensures ok == output.good
    {
      Int32Range();
      ghost var o0 := output.out;
      var _ := output.WriteUnsigned(BinaryFileVersion, 1);
      ghost var o1 := output.out;
      var _ := output.WriteUnsigned(|names|, 4);
      ghost var o2 := output.out;
      WriteNameStrings(output, names);
      if output.good {
        AppendedInTurn(o1, o2, output.out, PutUnsigned(|names|, 4), PutNames(names));
        AppendedInTurn(o0, o1, output.out, [BinaryFileVersion], PutUnsigned(|names|, 4) + PutNames(names));
      }
      ok := output.good;
    }
  }

  /** The name loop of `MaterialList::LoadFromStream`: count names, each
      stripped of its directory part, stopping with failure at an empty
      one. */
  method ReadNames(input: IStream, count: nat) returns (read: seq<string>, ok: bool)
    requires input.Valid()
    modifies input
    ensures input.Valid()
    ensures TakeNames(old(input.State()), count) == Got(input.State(), Names(read, ok))
  {
    ghost var start := input.State();
    read := [];
    var i := 0;
    while i < count
      invariant 0 <= i <= count && input.Valid()
      invariant TakeNames(start, i) == Got(input.State(), Names(read, true))
    {
      var buffer := input.ReadString();
      if buffer == [] {
        FailedStays(start, i + 1, count);
        return read, false;
      }
      var name := StripPath(buffer);
      read := read + [name];
      i := i + 1;
    }
    ok := true;
  }

  /** One array loop of the reader: every entry of the allocated array is
      overwritten by the next word, in order. */
  method ReadWordsOver(input: IStream, ws0: seq<Word>) returns (ws: seq<Word>)
    requires input.Valid()
    modifies input
    ensures input.Valid()
    ensures Got(input.State(), ws) == TakeWords(old(input.State()), |ws0|)
  {
    ghost var start := input.State();
    ws := ws0;
    var i := 0;
    while i < |ws|
      invariant 0 <= i <= |ws| == |ws0| && input.Valid()
      invariant Got(input.State(), ws[..i]) == TakeWords(start, i)
    {
      Int32Range();
      var _, w := input.ReadFloat();
      ws := ws[i := w];
      assert ws[..i + 1] == ws[..i] + [w];
      i := i + 1;
    }
    assert ws[..|ws|] == ws;
  }

  /** The discarded words of version 25. */
  method ReadDiscarded(input: IStream, n: nat) returns (ws: seq<Word>)
    requires input.Valid()
    modifies input
    ensures input.Valid()
    ensures Got(input.State(), ws) == TakeWords(old(input.State()), n)
  {
    ws := ReadWordsOver(input, seq(n, _ => 0));
  }

  /** Before version 21 every reflection amount is set to 1.0. */
  method FillOnes(ws0: seq<Word>) returns (ws: seq<Word>)
    ensures ws == seq(|ws0|, _ => Float32.PlusOne)
  {
    ws := ws0;
    var i := 0;
    while i < |ws|
      invariant 0 <= i <= |ws| == |ws0|
      invariant forall j :: 0 <= j < i ==> ws[j] == Float32.PlusOne
    {
      ws := ws[i := Float32.PlusOne];
      i := i + 1;
    }
  }

  /** The name loop of `MaterialList::WriteToStream`. */
  method WriteNameStrings(output: OStream, names: seq<string>)
    modifies output
    ensures output.good == old(output.good)
    ensures output.out == old(output.out) + (if old(output.good) then PutNames(names) else [])
  {
    var i := 0;
    while i < |names|
      invariant 0 <= i <= |names| && output.good == old(output.good)
      invariant output.out == old(output.out) + (if output.good then PutNames(names[..i]) else [])
    {
      ghost var before := output.out;
      output.WriteString(names[i]);
      if output.good {
        PutNamesStep(names, i);
        AppendedInTurn(old(output.out), before, output.out, PutNames(names[..i]), PutString(names[i]));
      }
      i := i + 1;
    }
    assert names[..|names|] == names;
  }

  /** One array loop of the writer. */
  method WriteWords(output: OStream, ws: seq<Word>)
    modifies output
    ensures output.good == old(output.good)
    ensures output.out == old(output.out) + (if old(output.good) then PutWords(ws) else [])
  {
    var i := 0;
    while i < |ws|
      invariant 0 <= i <= |ws| && output.good == old(output.good)
      invariant output.out == old(output.out) + (if output.good then PutWords(ws[..i]) else [])
    {
      ghost var before := output.out;
      var _ := output.WriteFloat(ws[i]);
      if output.good {
        assert ws[..i + 1][..i] == ws[..i];
        AppendedInTurn(old(output.out), before, output.out, PutWords(ws[..i]), PutWord(ws[i]));
      }
      i := i + 1;
    }
    assert ws[..|ws|] == ws;
  }
}
