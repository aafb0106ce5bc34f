/**
 * IntegerSet: `TSIntegerSet`, a set of the integers 0..2047 kept as 64
 * words of 32 bits; integer p is a member when bit p % 32 of word p / 32 is
 * set. Sequences use it to record which nodes and objects they animate, and
 * `Insert` keeps those records aligned when a node or object is inserted.
 *
 * The class updates its word array in place; `Contents()` is its meaning
 * as a sequence of 2048 booleans, and each method is specified by what it
 * does to that sequence.
 */
module IntegerSet {
  import opened Bytes
  import opened Bitwise
  import Stream

  const MaxSetDWords: nat := 64
  const MaxSetSize: nat := 2048

  /** The members of a word array, position by position. */
  function Members(words: seq<Word>): (s: seq<bool>)
    requires |words| == MaxSetDWords
    ensures |s| == MaxSetSize
  {
    seq(MaxSetSize, p requires 0 <= p < MaxSetSize => Bit(words[p / 32], p % 32))
  }

  /** One past the highest member, 0 for the empty set. */
  function Extent(s: seq<bool>): (n: nat)
    ensures n <= |s|
    ensures n > 0 ==> s[n - 1]
    ensures forall p :: n <= p < |s| ==> !s[p]
  {
    if |s| == 0 then 0
    else if s[|s| - 1] then |s|
    else Extent(s[..|s| - 1])
  }

  /** s with v inserted at index; the last element falls off the end. */
  function Inserted(s: seq<bool>, index: nat, v: bool): (t: seq<bool>)
    requires index < |s|
    ensures |t| == |s| && t[index] == v
    ensures forall p :: 0 <= p < index ==> t[p] == s[p]
    ensures forall p :: index < p < |s| ==> t[p] == s[p - 1]
  {
    seq(|s|, p requires 0 <= p < |s| => if p < index then s[p] else if p == index then v else s[p - 1])
  }

  /** The positions `ClearAll(upto)` clears: the whole words below upto / 32
      and, when upto is not a multiple of 32, bits 0 to upto % 32 of the next
      word, so that position upto itself is cleared as well. */
  predicate ClearedBy(upto: nat, p: nat)
  {
    p < upto / 32 * 32 || (upto % 32 != 0 && p <= upto)
  }

  /** `SetUpto(upto)`: the mask of bits 0 to upto & 31 inclusive. The
      source computes it in 32-bit signed arithmetic, where upto & 31 = 31
      gives all 32 bits. */
  function SetUpto(upto: int): Word
  {
    var r := upto % 32;
    Pow2Values();
    Pow2Monotone(r, 31);
    (Pow2(r) - 1) * 2 + 1
  }

  /** `(1 << r) - 1`: the bits below r. */
  function LowMask(r: nat): Word
    requires r < 32
  {
    Pow2Values();
    Pow2Monotone(r, 31);
    Pow2(r) - 1
  }

  /** `~(low_mask | (1 << r))`: the bits above r. */
  function HighMask(r: nat): Word
    requires r < 32
  {
    Pow2Values();
    Pow2Monotone(r, 31);
    OrBound(LowMask(r), Pow2(r), 32);
    Not(Or(LowMask(r), Pow2(r)))
  }

  /** `w |= 1 << r`. */
  function SetWord(w: Word, r: nat): Word
    requires r < 32
  {
    Pow2Values();
    Pow2Monotone(r, 31);
    OrBound(w, Pow2(r), 32);
    Or(w, Pow2(r))
  }

  /** One step of the word-shift loop of `Insert`: `w << 1`, then bit 0 set
      when the word below has its top bit (`below & 0x80000000`). */
  function CarryIn(w: Word, below: Word): Word
  {
    Pow2Values();
    if And(below, 0x8000_0000) != 0 then
      OrBound(Shl1(w), 1, 32);
      Or(Shl1(w), 1)
    else
      Shl1(w)
  }

  /** The last step of `Insert` on the word holding index:
      `((w << 1) & high_mask) | (w & low_mask)`. */
  function OpenGap(w: Word, r: nat): Word
    requires r < 32
  {
    Pow2Values();
    OrBound(And(Shl1(w), HighMask(r)), And(w, LowMask(r)), 32);
    Or(And(Shl1(w), HighMask(r)), And(w, LowMask(r)))
  }

  /** `SetUpto(upto)` has exactly the bits 0 to upto & 31 set. */
  lemma SetUptoBit(upto: int, i: nat)
    requires i < 32
    ensures Bit(SetUpto(upto), i) == (i <= upto % 32)
  {
    var r := upto % 32;
    Pow2Values();
    assert SetUpto(upto) == Pow2(r + 1) - Pow2(0);
    BitRange(0, r + 1, i);
  }

  lemma LowMaskBit(r: nat, i: nat)
    requires r < 32 && i < 32
    ensures Bit(LowMask(r), i) == (i < r)
  {
    assert LowMask(r) == Pow2(r) - Pow2(0);
    BitRange(0, r, i);
  }

  lemma HighMaskBit(r: nat, i: nat)
    requires r < 32 && i < 32
    ensures Bit(HighMask(r), i) == (r < i)
  {
    Pow2Values();
    Pow2Monotone(r, 31);
    OrBound(LowMask(r), Pow2(r), 32);
    BitNot(Or(LowMask(r), Pow2(r)), i);
    BitOr(LowMask(r), Pow2(r), i);
    LowMaskBit(r, i);
    BitPow2(r, i);
  }

  /** Setting bit r sets bit r and no other. */
  lemma SetWordBit(w: Word, r: nat, i: nat)
    requires r < 32 && i < 32
    ensures Bit(SetWord(w, r), i) == (Bit(w, i) || i == r)
  {
    BitOr(w, Pow2(r), i);
    BitPow2(r, i);
  }

  /** `w & (1 << r)` is non-zero exactly when bit r of w is set. */
  lemma AndBit(w: Word, r: nat)
    requires r < 32
    ensures And(w, Pow2(r)) != 0 <==> Bit(w, r)
  {
    Pow2Values();
    var a := And(w, Pow2(r));
    BitAnd(w, Pow2(r), r);
    BitPow2(r, r);
    if Bit(w, r) {
      BitZero(r);
    } else {
      forall b | 0 <= b < 32
        ensures !Bit(a, b)
      {
        BitAnd(w, Pow2(r), b);
        BitPow2(r, b);
      }
      ZeroIff(a, 32);
    }
  }

  /** The carried word holds the top bit of the word below, then its own
      bits moved up one place. */
  lemma CarryInBit(w: Word, below: Word, i: nat)
    requires i < 32
    ensures Bit(CarryIn(w, below), i) == if i == 0 then Bit(below, 31) else Bit(w, i - 1)
  {
    Pow2Values();
    AndBit(below, 31);
    BitShl1(w, i);
    BitOr(Shl1(w), 1, i);
    BitPow2(0, i);
  }

  /** The word holding index keeps the bits below it, clears it and moves
      the bits above it up one place. */
  lemma OpenGapBit(w: Word, r: nat, i: nat)
    requires r < 32 && i < 32
    ensures Bit(OpenGap(w, r), i) == if i < r then Bit(w, i) else if i == r then false else Bit(w, i - 1)
  {
    BitOr(And(Shl1(w), HighMask(r)), And(w, LowMask(r)), i);
    BitAnd(Shl1(w), HighMask(r), i);
    BitAnd(w, LowMask(r), i);
    BitShl1(w, i);
    HighMaskBit(r, i);
    LowMaskBit(r, i);
  }

  /** Setting a bit twice is setting it once. */
  lemma SetWordIdempotent(w: Word, r: nat)
    requires r < 32
    ensures SetWord(SetWord(w, r), r) == SetWord(w, r)
  {
    Pow2Values();
    forall i | 0 <= i < 32
      ensures Bit(SetWord(SetWord(w, r), r), i) == Bit(SetWord(w, r), i)
    {
      SetWordBit(w, r, i);
      SetWordBit(SetWord(w, r), r, i);
    }
    BitsEqual(SetWord(SetWord(w, r), r), SetWord(w, r), 32);
  }

  /** The members of a word array with one word replaced. */
  lemma MembersUpdate(words: seq<Word>, w: nat, x: Word, p: nat)
    requires |words| == MaxSetDWords && w < MaxSetDWords && p < MaxSetSize
    ensures Members(words[w := x])[p] == if p / 32 == w then Bit(x, p % 32) else Members(words)[p]
  {
  }

  lemma SetEffect(words: seq<Word>, index: nat)
    requires |words| == MaxSetDWords && index < MaxSetSize
    ensures Members(words[index / 32 := SetWord(words[index / 32], index % 32)]) == Members(words)[index := true]
  {
    var x := SetWord(words[index / 32], index % 32);
    var t, u := Members(words[index / 32 := x]), Members(words)[index := true];
    forall p | 0 <= p < MaxSetSize
      ensures t[p] == u[p]
    {
      MembersUpdate(words, index / 32, x, p);
      if p / 32 == index / 32 {
        SetWordBit(words[index / 32], index % 32, p % 32);
      }
    }
  }

  /** A word with no member is zero. */
  lemma WordsAboveExtent(words: seq<Word>)
    requires |words| == MaxSetDWords
    ensures forall w :: 0 <= w < MaxSetDWords && Extent(Members(words)) <= 32 * w ==> words[w] == 0
  {
    var s := Members(words);
    var e := Extent(s);
    Pow2Values();
    forall w | 0 <= w < MaxSetDWords && e <= 32 * w
      ensures words[w] == 0
    {
      forall b | 0 <= b < 32
        ensures !Bit(words[w], b)
      {
        assert (32 * w + b) / 32 == w && (32 * w + b) % 32 == b;
        assert !s[32 * w + b];
      }
      ZeroIff(words[w], 32);
    }
  }

  /** The words after the shifting loop of `Insert`: each word above low,
      up to endWord, takes one bit of carry from the word below it. */
  function CarriedWords(words: seq<Word>, low: nat, endWord: nat): (r: seq<Word>)
    ensures |r| == |words|
  {
    seq(|words|, w requires 0 <= w < |words| => if low < w <= endWord then CarryIn(words[w], words[w - 1]) else words[w])
  }

  /** The words `Insert` leaves behind, before it sets the new bit, hold the
      old members with a false inserted at index. The words above endWord
      must have been zero, and so must word endWord unless it is the last. */
  lemma InsertEffect(before: seq<Word>, after: seq<Word>, index: nat, endWord: nat)
    requires |before| == MaxSetDWords && |after| == MaxSetDWords && index < MaxSetSize
    requires endWord < MaxSetDWords
    requires forall w :: endWord < w < MaxSetDWords ==> before[w] == 0
    requires endWord < MaxSetDWords - 1 ==> before[endWord] == 0
    requires after == CarriedWords(before, index / 32, endWord)[index / 32 := OpenGap(before[index / 32], index % 32)]
    ensures Members(after) == Inserted(Members(before), index, false)
  {
    var s, t := Members(before), Members(after);
    var u := Inserted(s, index, false);
    forall p | 0 <= p < MaxSetSize
      ensures t[p] == u[p]
    {
      InsertedAt(before, after, index, endWord, p);
    }
  }

  /** Position p of the set after an insertion, word by word. */
  lemma InsertedAt(before: seq<Word>, after: seq<Word>, index: nat, endWord: nat, p: nat)
    requires |before| == MaxSetDWords && |after| == MaxSetDWords && index < MaxSetSize && p < MaxSetSize
    requires endWord < MaxSetDWords
    requires forall w :: endWord < w < MaxSetDWords ==> before[w] == 0
    requires endWord < MaxSetDWords - 1 ==> before[endWord] == 0
    requires after == CarriedWords(before, index / 32, endWord)[index / 32 := OpenGap(before[index / 32], index % 32)]
    ensures Members(after)[p] == Inserted(Members(before), index, false)[p]
  {
    var carried := CarriedWords(before, index / 32, endWord);
    var w := p / 32;
    if w == index / 32 {
      InsertedInGapWord(before, after, index, p);
    } else if index / 32 < w <= endWord {
      assert after[w] == carried[w];
      InsertedInCarryWord(before, after, index, p);
    } else if index / 32 < w {
      InsertedPastCarry(before, after, index, endWord, p);
    }
  }

  /** Position p of a word above the shifted ones. */
  lemma InsertedPastCarry(before: seq<Word>, after: seq<Word>, index: nat, endWord: nat, p: nat)
    requires |before| == MaxSetDWords && |after| == MaxSetDWords && index < MaxSetSize && p < MaxSetSize
    requires endWord < p / 32 && index / 32 < p / 32
    requires forall w :: endWord < w < MaxSetDWords ==> before[w] == 0
    requires endWord < MaxSetDWords - 1 ==> before[endWord] == 0
    requires after == CarriedWords(before, index / 32, endWord)[index / 32 := OpenGap(before[index / 32], index % 32)]
    ensures Members(after)[p] == Inserted(Members(before), index, false)[p]
  {
    var w := p / 32;
    assert after[w] == CarriedWords(before, index / 32, endWord)[w] == before[w];
    PrevPosition(p);
    var v := (p - 1) / 32;
    assert endWord < v || (v == endWord && endWord < MaxSetDWords - 1);
    InsertedInZeroWord(before, after, index, p);
  }

  /** Position p of the word that opens the gap. */
  lemma InsertedInGapWord(before: seq<Word>, after: seq<Word>, index: nat, p: nat)
    requires |before| == MaxSetDWords && |after| == MaxSetDWords && index < MaxSetSize && p < MaxSetSize
    requires p / 32 == index / 32 && after[p / 32] == OpenGap(before[p / 32], index % 32)
    ensures Members(after)[p] == Inserted(Members(before), index, false)[p]
  {
    var w, b := p / 32, p % 32;
    OpenGapBit(before[w], index % 32, b);
    if p > 0 {
      PrevPosition(p);
    }
  }

  /** Where position p - 1 lies: the bit below in the same word, or the
      top bit of the word below. */
  lemma PrevPosition(p: nat)
    requires p > 0
    ensures p % 32 > 0 ==> (p - 1) / 32 == p / 32 && (p - 1) % 32 == p % 32 - 1
    ensures p % 32 == 0 ==> (p - 1) / 32 == p / 32 - 1 && (p - 1) % 32 == 31
  {
  }

  /** Position p of a word that takes the carry from the word below. */
  lemma InsertedInCarryWord(before: seq<Word>, after: seq<Word>, index: nat, p: nat)
    requires |before| == MaxSetDWords && |after| == MaxSetDWords && index < MaxSetSize && p < MaxSetSize
    requires index / 32 < p / 32 && after[p / 32] == CarryIn(before[p / 32], before[p / 32 - 1])
    ensures Members(after)[p] == Inserted(Members(before), index, false)[p]
  {
    var w, b := p / 32, p % 32;
    CarryInBit(before[w], before[w - 1], b);
    PrevPosition(p);
  }

  /** Position p of a word above the shifted ones, where nothing was set. */
  lemma InsertedInZeroWord(before: seq<Word>, after: seq<Word>, index: nat, p: nat)
    requires |before| == MaxSetDWords && |after| == MaxSetDWords && index < MaxSetSize && p < MaxSetSize
    requires index / 32 < p / 32 && after[p / 32] == 0 && before[(p - 1) / 32] == 0
    ensures Members(after)[p] == Inserted(Members(before), index, false)[p]
  {
    BitZero(p % 32);
    BitZero((p - 1) % 32);
  }

  /** Setting the inserted position turns an inserted false into the value. */
  lemma InsertedSet(s: seq<bool>, index: nat)
    requires index < |s|
    ensures Inserted(s, index, false)[index := true] == Inserted(s, index, true)
  {
    var a, b := Inserted(s, index, false)[index := true], Inserted(s, index, true);
    assert forall p :: 0 <= p < |s| ==> a[p] == b[p];
  }

  /** The effect of `ClearAll(upto)` on the words. */
  lemma ClearEffect(before: seq<Word>, after: seq<Word>, upto: nat)
    requires |before| == MaxSetDWords && |after| == MaxSetDWords && upto <= MaxSetSize
    requires forall w :: 0 <= w < upto / 32 ==> after[w] == 0
    requires upto % 32 != 0 ==> after[upto / 32] == And(before[upto / 32], Not(SetUpto(upto)))
    requires forall w :: upto / 32 < w < MaxSetDWords ==> after[w] == before[w]
    requires upto % 32 == 0 && upto < MaxSetSize ==> after[upto / 32] == before[upto / 32]
    ensures forall p :: 0 <= p < MaxSetSize ==> Members(after)[p] == (Members(before)[p] && !ClearedBy(upto, p))
  {
    var s, t := Members(before), Members(after);
    forall p | 0 <= p < MaxSetSize
      ensures t[p] == (s[p] && !ClearedBy(upto, p))
    {
      var w, b := p / 32, p % 32;
      if w < upto / 32 {
        BitZero(b);
      } else if w == upto / 32 && upto % 32 != 0 {
        BitAnd(before[w], Not(SetUpto(upto)), b);
        BitNot(SetUpto(upto), b);
        SetUptoBit(upto, b);
      }
    }
  }

  /** The words read back: the words after the count, then zeros. */
  datatype Loaded = Loaded(words: seq<Word>, ok: bool)

  /** n unsigned 32-bit words read one after the other. */
  function TakeWords(r: Stream.Reader, n: nat): (g: Stream.Got<seq<Word>>)
    requires r.Valid()
    ensures g.rest.Valid() && |g.value| == n
  {
    if n == 0 then Stream.Got(r, [])
    else
      var g := TakeWords(r, n - 1);
      var w := Stream.TakeUnsigned(g.rest, 4);
      assert Pow256(4) == 0x1_0000_0000;
      Stream.Got(w.rest, g.value + [w.value])
  }

  /** The bytes of n words written one after the other. */
  function PutWords(ws: seq<Word>): (bs: seq<byte>)
    ensures |bs| == 4 * |ws|
  {
    if |ws| == 0 then []
    else
      assert Pow256(4) == 0x1_0000_0000;
      PutWords(ws[..|ws| - 1]) + Stream.PutUnsigned(ws[|ws| - 1], 4)
  }

  lemma PutWordsStep(ws: seq<Word>, w: Word)
    ensures Pow256(4) == 0x1_0000_0000
    ensures PutWords(ws + [w]) == PutWords(ws) + Stream.PutUnsigned(w, 4)
  {
    assert Pow256(4) == 0x1_0000_0000;
    assert (ws + [w])[..|ws|] == ws;
  }

  lemma PutWordsPrefix(ws: seq<Word>, i: nat)
    requires i < |ws|
    ensures Pow256(4) == 0x1_0000_0000
    ensures PutWords(ws[..i + 1]) == PutWords(ws[..i]) + Stream.PutUnsigned(ws[i], 4)
  {
    assert ws[..i] + [ws[i]] == ws[..i + 1];
    PutWordsStep(ws[..i], ws[i]);
  }

  /** `LoadFromStream`: a discarded word, the word count, then the words.
      A count above 64 overruns the array in the source; the model stops
      there and reports failure. A negative count reads no words. */
  function TakeSet(r: Stream.Reader): (g: Stream.Got<Loaded>)
    requires r.Valid()
    ensures g.rest.Valid() && |g.value.words| == MaxSetDWords
    ensures g.value.ok ==> g.rest.good
  {
    var discarded := Stream.TakeSigned(r, 4);
    var sz := Stream.TakeSigned(discarded.rest, 4);
    if sz.value > MaxSetDWords then
      Stream.Got(sz.rest, Loaded(seq(MaxSetDWords, _ => 0), false))
    else
      var count: nat := if sz.value < 0 then 0 else sz.value;
      var ws := TakeWords(sz.rest, count);
      Stream.Got(ws.rest, Loaded(ws.value + seq(MaxSetDWords - count, _ => 0), ws.rest.good))
  }

  /** The number of words `WriteToStream` writes: one past the last
      non-zero word. */
  function Used(ws: seq<Word>): (n: nat)
    ensures n <= |ws|
    ensures n > 0 ==> ws[n - 1] != 0
    ensures forall i :: n <= i < |ws| ==> ws[i] == 0
  {
    if |ws| == 0 then 0
    else if ws[|ws| - 1] != 0 then |ws|
    else Used(ws[..|ws| - 1])
  }

  /** `WriteToStream`: a zero word, the count, then the used words. */
  function PutSet(ws: seq<Word>): (bs: seq<byte>)
    requires |ws| == MaxSetDWords
    ensures |bs| == 8 + 4 * Used(ws)
  {
    assert Used(ws) <= 64;
    LeBytes(0, 4) + LeBytes(Used(ws), 4) + PutWords(ws[..Used(ws)])
  }

  /** The three writes of `WriteToStream` make up PutSet. */
  lemma PutSetParts(ws: seq<Word>, o: seq<byte>, o1: seq<byte>, o2: seq<byte>, o3: seq<byte>)
    requires |ws| == MaxSetDWords
    requires o1 == o + LeBytes(0, 4)
    requires o2 == o1 + LeBytes(Used(ws), 4)
    requires o3 == o2 + PutWords(ws[..Used(ws)])
    ensures o3 == o + PutSet(ws)
  {
    SeqAssoc(o, LeBytes(0, 4), LeBytes(Used(ws), 4), PutWords(ws[..Used(ws)]));
  }

  lemma SeqAssoc<T>(o: seq<T>, a: seq<T>, b: seq<T>, c: seq<T>)
    ensures o + (a + b + c) == o + a + b + c
  {
  }

  lemma {:induction false} TakeWordsPut(r: Stream.Reader, ws: seq<Word>)
    requires r.Valid() && Stream.At(r, PutWords(ws))
    ensures TakeWords(r, |ws|) == Stream.Got(Stream.Skip(r, 4 * |ws|), ws)
    decreases |ws|
  {
    if |ws| > 0 {
      var n := |ws| - 1;
      assert Pow256(4) == 0x1_0000_0000;
      Stream.AtConcat(r, PutWords(ws[..n]), Stream.PutUnsigned(ws[n], 4));
      TakeWordsPut(r, ws[..n]);
      Stream.TakeUnsignedPut(Stream.Skip(r, 4 * n), ws[n], 4);
      assert ws[..n] + [ws[n]] == ws;
    }
  }

  /** Loading what `WriteToStream` wrote gives back the same 64 words. */
  lemma LoadWrite(r: Stream.Reader, ws: seq<Word>)
    requires |ws| == MaxSetDWords && r.Valid() && Stream.At(r, PutSet(ws))
    ensures TakeSet(r) == Stream.Got(Stream.Skip(r, |PutSet(ws)|), Loaded(ws, true))
  {
    var n := Used(ws);
    HeaderRead(r, n, PutWords(ws[..n]));
    var r2 := Stream.Skip(r, 8);
    TakeWordsPut(r2, ws[..n]);
    UsedSplit(ws);
    assert Stream.Skip(r2, 4 * n) == Stream.Skip(r, |PutSet(ws)|);
  }

  /** The used words followed by zeros are all the words. */
  lemma UsedSplit(ws: seq<Word>)
    ensures ws[..Used(ws)] + seq(|ws| - Used(ws), _ => 0) == ws
  {
    var n := Used(ws);
    var zeros: seq<Word> := seq(|ws| - n, _ => 0);
    var joined := ws[..n] + zeros;
    forall i | 0 <= i < |ws|
      ensures joined[i] == ws[i]
    {
      if i >= n {
        assert joined[i] == zeros[i - n] == 0;
      }
    }
  }

  /** The two counts in front of the words are read back. */
  lemma HeaderRead(r: Stream.Reader, n: nat, rest: seq<byte>)
    requires r.Valid() && n <= MaxSetDWords
    requires Stream.At(r, LeBytes(0, 4) + LeBytes(n, 4) + rest)
    ensures Stream.TakeSigned(r, 4) == Stream.Got(Stream.Skip(r, 4), 0)
    ensures Stream.TakeSigned(Stream.Skip(r, 4), 4) == Stream.Got(Stream.Skip(r, 8), n)
    ensures Stream.At(Stream.Skip(r, 8), rest)
  {
    var a, b := LeBytes(0, 4), LeBytes(n, 4);
    assert a + b + rest == a + (b + rest);
    Stream.AtConcat(r, a, b + rest);
    var r1 := Stream.Skip(r, 4);
    Stream.AtConcat(r1, b, rest);
    Stream.TakeSignedPut(r, 0, 4);
    Stream.TakeSignedPut(r1, n, 4);
  }


  /** No bit of w above j is set. */
  predicate NoBitAbove(w: Word, j: int)
  {
    forall b :: j < b < 32 ==> !Bit(w, b)
  }

  /** Some bit of w from lo to hi is set. */
  predicate SomeBitIn(w: Word, lo: int, hi: int)
  {
    exists b: nat :: lo <= b <= hi && Bit(w, b)
  }

  /** The byte mask `0xFF000000 >> (31 - j)`: bits j - 7 to j. */
  function ByteMask(j: nat): Word
    requires 7 <= j <= 31
  {
    Pow2Values();
    Pow2Monotone(j - 7, j + 1);
    Pow2Monotone(j + 1, 32);
    Pow2(j + 1) - Pow2(j - 7)
  }

  /** `TSIntegerSet`. */
  class TSIntegerSet {
    const bits: array<Word>

    ghost predicate Valid()
      reads this
    {
      bits.Length == MaxSetDWords
    }

    /** The members, position by position. */
    function Contents(): seq<bool>
      reads this, bits
      requires Valid()
    {
      Members(bits[..])
    }

    /** A new set is empty. */
    constructor ()
      ensures Valid() && fresh(bits)
      ensures forall p :: 0 <= p < MaxSetSize ==> !Contents()[p]
      ensures forall w :: 0 <= w < MaxSetDWords ==> bits[w] == 0
    {
      bits := new Word[MaxSetDWords];
      new;
      ClearAll(MaxSetSize);
    }

    /** `Set(index)`: index becomes a member; nothing else changes. */
    method Set(index: nat)
      requires Valid() && index < MaxSetSize
      modifies bits
      ensures Contents() == old(Contents())[index := true]
    {
      ghost var before := bits[..];
      bits[index / 32] := SetWord(bits[index / 32], index % 32);
      assert bits[..] == before[index / 32 := SetWord(before[index / 32], index % 32)];
      SetEffect(before, index);
    }

    /** `ClearAll(upto)`: the positions ClearedBy(upto) stop being members;
        the others are unchanged. The default upto clears every word. */
    method ClearAll(upto: nat)
      requires Valid() && upto <= MaxSetSize
      modifies bits
      ensures forall p :: 0 <= p < MaxSetSize ==> Contents()[p] == (old(Contents())[p] && !ClearedBy(upto, p))
      ensures upto == MaxSetSize ==> forall w :: 0 <= w < MaxSetDWords ==> bits[w] == 0
    {
      ghost var before := bits[..];
      forall w | 0 <= w < upto / 32 {
        bits[w] := 0;
      }
      if upto % 32 != 0 {
        bits[upto / 32] := And(bits[upto / 32], Not(SetUpto(upto)));
      }
      ClearEffect(before, bits[..], upto);
    }

    /** `End()`: one past the highest member, 0 for the empty set. The
        search goes down word by word from the last. */
    method End() returns (r: nat)
      requires Valid()
      ensures r == Extent(Contents())
    {
      var i := MaxSetDWords;
      while i > 0
        invariant 0 <= i <= MaxSetDWords
        invariant forall w :: i <= w < MaxSetDWords ==> bits[w] == 0
      {
        i := i - 1;
        var dword := bits[i];
        if dword != 0 {
          var j := FindHighBit(dword);
          ExtentAt(bits[..], i, j);
          return 32 * i + j + 1;
        }
      }
      ExtentEmpty(bits[..]);
      return 0;
    }

    /** The search of `End` inside a non-zero word: a byte mask walks down
        from the top byte until it meets a set bit, then a one-bit mask
        walks down from the top bit of that byte. The source's two
        `do ... while (1)` loops with an inner `if` are written here as two
        loops, one per helper, that exit on the test that made the source
        return. */
    static method FindHighBit(dword: Word) returns (j: nat)
      requires dword != 0
      ensures j < 32 && Bit(dword, j) && NoBitAbove(dword, j)
    {
      var top, mask := FindHighByte(dword);
      var bit := And(mask, Not(mask / 2));
      TopBit(top);
      j := FindBitInByte(dword, top, bit);
    }

    /** The byte loop: the highest byte of dword with a bit set. */
    static method FindHighByte(dword: Word) returns (j: nat, mask: Word)
      requires dword != 0
      ensures (j == 7 || j == 15 || j == 23 || j == 31) && mask == ByteMask(j)
      ensures SomeBitIn(dword, j - 7, j) && NoBitAbove(dword, j)
    {
      Pow2Values();
      ZeroIff(dword, 32);
      j := 31;
      mask := 0xFF00_0000;
      ByteTest(dword, j);
      while And(dword, mask) == 0
        invariant j == 7 || j == 15 || j == 23 || j == 31
        invariant mask == ByteMask(j)
        invariant And(dword, mask) != 0 <==> SomeBitIn(dword, j - 7, j)
        invariant NoBitAbove(dword, j)
        invariant SomeBitIn(dword, 0, j)
        decreases j
      {
        NarrowSearch(dword, 0, j - 8, j);
        ByteMaskShift(j);
        mask := mask / 0x100;
        j := j - 8;
        ByteTest(dword, j);
      }
    }

    /** The bit loop: the highest set bit of the byte whose top bit is
        `bit`. */
    static method FindBitInByte(dword: Word, top: nat, bit: Word) returns (j: nat)
      requires 7 <= top <= 31 && bit == Pow2(top)
      requires SomeBitIn(dword, top - 7, top) && NoBitAbove(dword, top)
      ensures j < 32 && Bit(dword, j) && NoBitAbove(dword, j)
    {
      j := top;
      var b := bit;
      AndBit(dword, j);
      while And(dword, b) == 0
        invariant top - 7 <= j <= top && b == Pow2(j)
        invariant And(dword, b) != 0 <==> Bit(dword, j)
        invariant NoBitAbove(dword, j)
        invariant SomeBitIn(dword, top - 7, j)
        decreases j
      {
        NarrowSearch(dword, top - 7, j - 1, j);
        assert b == 2 * Pow2(j - 1);
        j := j - 1;
        b := b / 2;
        AndBit(dword, j);
      }
    }

    /** `Insert(index, value)`: value is inserted at index; the members
        from index on move up one place and the last position falls off. */
    method Insert(index: nat, value: bool)
      requires Valid() && index < MaxSetSize
      modifies bits
      ensures Contents() == Inserted(old(Contents()), index, value)
    {
      ghost var before := bits[..];
      var e := End();
      var endWord := e / 32 + 1;
      if endWord >= MaxSetDWords {
        endWord := MaxSetDWords - 1;
      }
      WordsAboveExtent(before);
      CarryWords(index / 32, endWord);
      var word := index / 32;
      ghost var carried := bits[..];
      bits[word] := OpenGap(bits[word], index % 32);
      assert bits[..] == carried[word := OpenGap(before[word], index % 32)];
      InsertEffect(before, bits[..], index, endWord);
      if value {
        Set(index);
        InsertedSet(Members(before), index);
      }
    }

    /** The shifting loop of `Insert`: each word from endWord down to
        above word low takes one bit of carry from the word below it. */
    method CarryWords(low: nat, endWord: nat)
      requires Valid() && endWord < MaxSetDWords
      modifies bits
      ensures bits[..] == CarriedWords(old(bits[..]), low, endWord)
    {
      ghost var before := bits[..];
      var i := endWord;
      while i > low
        invariant 0 <= i <= endWord && (low <= i || i == endWord)
        invariant forall w :: 0 <= w <= i ==> bits[w] == before[w]
        invariant forall w :: i < w <= endWord ==> bits[w] == CarryIn(before[w], before[w - 1])
        invariant forall w :: endWord < w < MaxSetDWords ==> bits[w] == before[w]
      {
        bits[i] := CarryIn(bits[i], bits[i - 1]);
        i := i - 1;
      }
      ghost var c := CarriedWords(before, low, endWord);
      assert forall w :: 0 <= w < MaxSetDWords ==> bits[w] == c[w];
    }

    /** `LoadFromStream(input)`: the set is cleared, then filled from the
        stream as TakeSet describes; the result is the stream's state. */
    method LoadFromStream(input: Stream.IStream) returns (ok: bool)
      requires Valid() && input.Valid()
      modifies bits, input
      ensures input.Valid() && input.State() == TakeSet(old(input.State())).rest
      ensures bits[..] == TakeSet(old(input.State())).value.words
      ensures ok == TakeSet(old(input.State())).value.ok
    {
      ClearAll(MaxSetSize);
      var _, _ := input.ReadSigned(4);
      var _, sz := input.ReadSigned(4);
      if sz > MaxSetDWords {
        assert bits[..] == seq(MaxSetDWords, _ => 0);
        return false;
      }
      var count: nat := if sz < 0 then 0 else sz;
      ReadWords(input, count);
      ok := input.good;
    }

    /** The loop of `LoadFromStream`: words 0 to count - 1 are read in
        order; the others stay zero. */
    method ReadWords(input: Stream.IStream, count: nat)
      requires Valid() && input.Valid() && count <= MaxSetDWords
      requires forall w :: 0 <= w < MaxSetDWords ==> bits[w] == 0
      modifies bits, input
      ensures input.Valid() && input.State() == TakeWords(old(input.State()), count).rest
      ensures bits[..] == TakeWords(old(input.State()), count).value + seq(MaxSetDWords - count, _ => 0)
    {
      ghost var r0 := input.State();
      var i := 0;
      while i < count
        invariant 0 <= i <= count
        invariant input.Valid() && input.State() == TakeWords(r0, i).rest
        invariant bits[..i] == TakeWords(r0, i).value
        invariant forall w :: i <= w < MaxSetDWords ==> bits[w] == 0
      {
        var _, v := input.ReadUnsigned(4);
        assert Pow256(4) == 0x1_0000_0000;
        bits[i] := v;
        assert bits[..i + 1] == bits[..i] + [v];
        i := i + 1;
      }
      assert bits[..] == bits[..count] + bits[count..];
      assert bits[count..] == seq(MaxSetDWords - count, _ => 0);
    }

    /** `WriteToStream(output)`: the bytes PutSet describes, when the
        stream is good. */
    method WriteToStream(output: Stream.OStream) returns (ok: bool)
      requires Valid()
      modifies output
      ensures old(output.good) ==> output.out == old(output.out) + PutSet(bits[..])
      ensures !old(output.good) ==> output.out == old(output.out)
      ensures output.good == old(output.good) && ok == output.good
    {
      ghost var o := output.out;
      var _ := output.WriteSigned(0, 4);
      var sz := UsedWords();
      ghost var o1 := output.out;
      var _ := output.WriteSigned(sz, 4);
      ghost var o2 := output.out;
      WriteWords(output, sz);
      ok := output.good;
      if ok {
        PutSetParts(bits[..], o, o1, o2, output.out);
      }
    }

    /** The count loop of `WriteToStream`: one past the last non-zero word. */
    method UsedWords() returns (sz: nat)
      requires Valid()
      ensures sz == Used(bits[..]) && sz <= MaxSetDWords
    {
      sz := 0;
      var i := 0;
      while i < MaxSetDWords
        invariant 0 <= i <= MaxSetDWords
        invariant sz == Used(bits[..i])
      {
        if bits[i] != 0 {
          sz := i + 1;
        }
        assert bits[..i + 1][..i] == bits[..i];
        i := i + 1;
      }
      assert bits[..i] == bits[..];
    }

    /** The write loop of `WriteToStream`: words 0 to n - 1 in order. */
    method WriteWords(output: Stream.OStream, n: nat)
      requires Valid() && n <= MaxSetDWords
      modifies output
      ensures output.out == old(output.out) + (if old(output.good) then PutWords(bits[..n]) else [])
      ensures output.good == old(output.good)
    {
      ghost var ws, start := bits[..n], output.out;
      var i := 0;
      while i < n
        invariant 0 <= i <= n
        invariant output.good == old(output.good)
        invariant output.good ==> output.out == start + PutWords(ws[..i])
        invariant !output.good ==> output.out == start
      {
        PutWord(output, bits[i], ws, i, start);
        i := i + 1;
      }
      assert ws[..i] == ws;
    }

    /** One pass of the write loop: the next word, four bytes. */
    static method PutWord(output: Stream.OStream, w: Word, ghost ws: seq<Word>, ghost i: nat, ghost start: seq<byte>)
      requires i < |ws| && w == ws[i]
      requires output.good ==> output.out == start + PutWords(ws[..i])
      requires !output.good ==> output.out == start
      modifies output
      ensures output.good == old(output.good)
      ensures output.good ==> output.out == start + PutWords(ws[..i + 1])
      ensures !output.good ==> output.out == start
    {
      PutWordsPrefix(ws, i);
      Regrouped(start, PutWords(ws[..i]), Stream.PutUnsigned(w, 4));
      var _ := output.WriteUnsigned(w, 4);
    }
  }

  /** `w & ByteMask(j)` is non-zero exactly when a bit of that byte is set. */
  lemma ByteTest(w: Word, j: nat)
    requires 7 <= j <= 31
    ensures And(w, ByteMask(j)) != 0 <==> SomeBitIn(w, j - 7, j)
  {
    Pow2Values();
    var a := And(w, ByteMask(j));
    forall b | 0 <= b < 32
      ensures Bit(a, b) == (Bit(w, b) && j - 7 <= b <= j)
    {
      BitAnd(w, ByteMask(j), b);
      ByteMaskBit(j, b);
    }
    ZeroIff(a, 32);
    if SomeBitIn(w, j - 7, j) {
      var b: nat :| j - 7 <= b <= j && Bit(w, b);
      assert Bit(a, b);
    }
  }

  /** A bit set from lo to hi but none from mid + 1 to hi is set from lo
      to mid. */
  lemma NarrowSearch(w: Word, lo: int, mid: int, hi: int)
    requires SomeBitIn(w, lo, hi) && NoBitAbove(w, hi)
    requires !SomeBitIn(w, mid + 1, hi)
    ensures SomeBitIn(w, lo, mid) && NoBitAbove(w, mid) && lo <= mid
  {
    var b: nat :| lo <= b <= hi && Bit(w, b);
    assert b <= mid;
  }

  lemma ByteMaskShift(j: nat)
    requires 15 <= j <= 31
    ensures ByteMask(j) / 0x100 == ByteMask(j - 8)
  {
    Pow2Values();
    Pow2Add(8, j - 7);
    Pow2Add(8, j - 15);
  }

  /** `mask & ~(mask >> 1)` is the top bit of a byte mask. */
  lemma TopBit(j: nat)
    requires 7 <= j <= 31
    ensures And(ByteMask(j), Not(ByteMask(j) / 2)) == Pow2(j)
  {
    var mask := ByteMask(j);
    var top := And(mask, Not(mask / 2));
    forall b | 0 <= b < 32
      ensures Bit(top, b) == Bit(Pow2(j), b)
    {
      TopBitAt(j, b);
    }
    Pow2Values();
    Pow2Monotone(j, 31);
    BitsEqual(top, Pow2(j), 32);
  }

  /** The byte mask has exactly the bits j - 7 to j set. */
  lemma ByteMaskBit(j: nat, b: nat)
    requires 7 <= j <= 31
    ensures Bit(ByteMask(j), b) == (j - 7 <= b <= j)
  {
    BitRange(j - 7, j + 1, b);
  }

  /** Bit b of `m & ~(m >> 1)`, where m has the bits j - 7 to j set. */
  lemma TopOfRange(m: Word, j: nat, b: nat)
    requires 7 <= j <= 31 && b < 32
    requires Bit(m, b) == (j - 7 <= b < j + 1) && Bit(m, b + 1) == (j - 7 <= b + 1 < j + 1)
    ensures Bit(And(m, Not(m / 2)), b) == (b == j)
  {
    var half: Word := m / 2;
    BitAnd(m, Not(half), b);
    BitNot(half, b);
    assert Bit(half, b) == Bit(m, b + 1);
  }

  lemma TopBitAt(j: nat, b: nat)
    requires 7 <= j <= 31 && b < 32
    ensures Bit(And(ByteMask(j), Not(ByteMask(j) / 2)), b) == Bit(Pow2(j), b)
  {
    ByteMaskBit(j, b);
    ByteMaskBit(j, b + 1);
    BitPow2(j, b);
    TopOfRange(ByteMask(j), j, b);
  }

  lemma ZeroWordBits(w: Word)
    requires w == 0
    ensures forall b :: 0 <= b < 32 ==> !Bit(w, b)
  {
    forall b | 0 <= b < 32
      ensures !Bit(w, b)
    {
      BitZero(b);
    }
  }

  lemma ExtentAt(words: seq<Word>, i: nat, j: nat)
    requires |words| == MaxSetDWords && i < MaxSetDWords && j < 32
    requires Bit(words[i], j) && NoBitAbove(words[i], j)
    requires forall w :: i < w < MaxSetDWords ==> words[w] == 0
    ensures Extent(Members(words)) == 32 * i + j + 1
  {
    var s := Members(words);
    forall p | 32 * i + j + 1 <= p < MaxSetSize
      ensures !s[p]
    {
      if p / 32 > i {
        BitZero(p % 32);
      }
    }
    ExtentIs(s, 32 * i + j + 1);
  }

  lemma ExtentEmpty(words: seq<Word>)
    requires |words| == MaxSetDWords
    requires forall w :: 0 <= w < MaxSetDWords ==> words[w] == 0
    ensures Extent(Members(words)) == 0
  {
    var s := Members(words);
    forall p | 0 <= p < MaxSetSize
      ensures !s[p]
    {
      BitZero(p % 32);
    }
    ExtentIs(s, 0);
  }

  /** Extent is determined by its two defining properties. */
  lemma {:induction false} ExtentIs(s: seq<bool>, n: nat)
    requires n <= |s| && (n > 0 ==> s[n - 1])
    requires forall p :: n <= p < |s| ==> !s[p]
    ensures Extent(s) == n
    decreases |s|
  {
    if |s| > 0 && !s[|s| - 1] {
      ExtentIs(s[..|s| - 1], n);
    }
  }
}
