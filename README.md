# libdts in Dafny

This project models the core of libdts, a C++ library that reads and writes
Torque DTS shape files, and proves properties of the model.

A DTS file holds:

- a version word;
- one packed buffer, seen as three regions of 32-, 16- and 8-bit elements;
- the animation sequences;
- the material list.

The loader walks the packed buffer twice with the same calls. The first
walk only counts the bytes of the shape block. The second walk fills a
block of exactly that size. The writer lays the shape out in the same order
in three growable buffers, with guard words between sections. A small
editing layer inserts names, details, nodes, objects and meshes, and fixes
up every index that refers to them.

The model follows the library's own structure, one module per component:

| module | component |
|---|---|
| `Bitwise`, `Bytes`, `Float32` | unsigned words and their bits, little-endian two's-complement bytes, IEEE-754 single words where the code compares or converts floats |
| `Endian`, `Stream`, `Vector`, `Strings` | `DTSEndian.h`, `DTSStream.h`, `DTSVector.h`, `DTSString.h` |
| `IntegerSet` | `TSIntegerSet`: 64 words updated in place, with `Contents()` as its meaning |
| `ShapeAlloc` | the packed-buffer engine. It is pure step functions over a cursor state, the reading and writing allocator classes tied to those functions, and the page-grown output buffers |
| `Mesh`, `Normals`, `SortedMesh`, `Decal`, `MeshFactory` | the mesh field codec per mesh kind, the normal codebook and `TSMesh::AssembleMesh` |
| `ReadCursor`, `ReadSteps`, `VertexRuns`, `MeshStages`, `PrimitiveRuns`, `TailRuns`, `RoundTrip`, `SkinRuns`, `SkinRoundTrip` | reading back what the mesh writers laid out: the reader's position over the written entries, each stage of `TSMesh::Assemble` and `TSSkinMesh::Assemble`, and the mesh and skin round trips |
| `Sequences`, `MaterialLists` | the sequence record and the material list |
| `Shape`, `ShapeRecords`, `ShapeRead`, `TwoPass`, `ShapeLoad`, `ShapeWrite`, `ShapeFile` | `TSShape` with its lookups, record layouts, the assembling walk, the proof that both walks count the same, `LoadFromStream`, `DisassembleShape` and `WriteToStream` |
| `ShapeEdit`, `MeshFit`, `ShapeConstruct` | the editing layer, the integer side of collision fitting, and `AddCollisionDetail` |

Code that changes state is modelled as imperative Dafny:

- the allocators, streams, bit set, material list, shape and mesh fitter are classes;
- loops are `while` loops with invariants;
- each method is proved against a pure function of the old state.

The lemmas then relate those functions. The main ones:

- writing and reading back are inverses for the stream scalars and strings, the bit set, the sequence record and the material list;
- a standard or skin mesh without a parent, written after version 21, is read back by the copying pass as it was written (up to the radius through an integer, the chosen normal codes and the type flag), and the sorted section reads back in its corrected form;
- the file framing reads back: the three sizes, the packed image, the sequences and the material list after it; the shape content inside the packed image and the decal meshes have no round trip;
- the two load walks stay in step and end with the same `size_`;
- the normal encoder chooses the first row of greatest dot product;
- every edit keeps each index pointing at the same entry.

Static state in the source becomes explicit parameters:

- the read version;
- the allocator;
- the mesh scratch tables (`verts_list_` and the others). `ShapeRead.ReadShape`
  takes them as an earlier load left them; `ShapeRead.ResetScratch` resizes
  them and resets only the entries below `num_meshes`, as the source does, so
  entries past them keep the earlier load's pointers. Both walks of a load
  are given the same tables: `ShapeRead.StaticsCarryOver` proves that the
  copying walk, which starts from what the sizing walk left, reads the meshes
  as the sizing walk did.

Platform-dependent record sizes (`sizeof(TSMesh)` and the like) are
parameters too. Floats are carried as their 32-bit patterns.

## Model

| member | source | states |
|---|---|---|
| Endian.IsLittleEndian | libdts/DTSEndian.h:10-14 | the probe is true exactly when the first byte of the 32-bit value 1 in host memory is 1 |
| Endian.Swap16 | libdts/DTSEndian.h:27-31 | the result is a 16-bit value whose two bytes are those of the argument in reverse order |
| Endian.Swap32 | libdts/DTSEndian.h:39-45 | the result is a 32-bit value whose four bytes are those of the argument in reverse order |
| Endian.Swap | libdts/DTSEndian.h:16-19 | for 1, 2 and 4 bytes the swap fits the width and reverses the value's bytes (one byte is returned unchanged) |
| Endian.SwapSigned | libdts/DTSEndian.h:33-36 | the signed swap fits the signed width and reverses the bytes of the value's two's-complement image |
| Endian.SignedSwapIsUnsignedSwap | libdts/DTSEndian.h:47-50 | the signed swap is the unsigned swap of the same bit pattern, as the casts through the unsigned type make it |
| Endian.SwapInvolution | libdts/DTSEndian.h:39-45 | swapping twice gives the value back |
| Endian.ConvertHostToLEndian | libdts/DTSEndian.h:57-64 | host to little-endian conversion stays within the width |
| Endian.ConvertLEndianToHost | libdts/DTSEndian.h:66-73 | little-endian to host conversion stays within the width |
| Endian.ConversionsInverse | libdts/DTSEndian.h:57-73 | on every host the two conversions undo each other |
| Endian.LoadIsHostIndependent | libdts/DTSEndian.h:66-73 | loading k bytes into host memory and converting them gives their little-endian value on every host |
| Endian.StoreIsHostIndependent | libdts/DTSEndian.h:57-64 | converting a value and storing it from host memory lays down its little-endian bytes on every host |
| Endian.LoadSignedIsHostIndependent | libdts/DTSEndian.h:66-73 | signed loads give the two's-complement value of the bytes on every host |
| Endian.StoreSignedIsHostIndependent | libdts/DTSEndian.h:57-64 | signed stores lay down the two's-complement little-endian bytes on every host |
| Endian.SwapFloat | libdts/DTSEndian.h:52-55 | the corrected float swap reverses the four bytes of the float's bit pattern |
| Endian.SwapFloatInvolution | libdts/DTSEndian.h:52-55 | the corrected float swap undone by itself gives the float back |
| Endian.SwapFloatAsWrittenIsNotAByteSwap | libdts/DTSEndian.h:52-55 | as written, the swap of the float 16777216.0 converts through the integer 2^24 and yields 1.0, not the byte-reversed pattern |
| Float32.TruncToInt | libdts/DTSMesh.cpp:563 | `static_cast<int32_t>` of a float always yields a 32-bit signed value (truncation toward zero) |
| Float32.TruncToUnsigned | libdts/DTSEndian.h:54 | `static_cast<uint32_t>` of a float always yields a 32-bit unsigned value |
| Float32.Significand | libdts/DTSMesh.cpp:482 | the rounded 24-bit significand of an integer converted to float has its leading bit set and rounds up at most to 2^24 |
| Float32.TruncTwoToThe24 | libdts/DTSEndian.h:54 | the float 16777216.0 denotes 2^24 and converts to the integer 2^24 |
| Float32.FromOne | libdts/DTSEndian.h:54 | the integer 1 converts to the float 1.0 |
| Stream.Take | libdts/DTSStream.h:46-60 | a read on a failed stream or of zero bytes changes nothing; otherwise it consumes at most n bytes, yields n bytes and can only fail the stream |
| Stream.TakeNothing | libdts/DTSStream.h:48-59 | a read on a failed stream leaves it failed and unchanged; a zero-length read on a good stream succeeds with no effect |
| Stream.TakeAt | libdts/DTSStream.h:46-60 | reading bytes that are present yields exactly them and moves past them |
| Stream.TakeUnsigned | libdts/DTSStream.h:26-33 | `Read<T>` of an unsigned k-byte type yields a value below 256^k |
| Stream.TakeSigned | libdts/DTSStream.h:26-33 | `Read<T>` of a signed k-byte type yields a value in the signed range |
| Stream.TakeBool | libdts/DTSStream.h:35-44 | reading a bool consumes one byte and keeps the stream well formed; a failed read leaves the caller's value as it was |
| Stream.CStr | libdts/DTSStream.h:62-68 | the C string of a buffer is the prefix before the first NUL, and the NUL follows it when it is not the whole buffer |
| Stream.TakeString | libdts/DTSStream.h:62-68 | `ReadString` yields at most 255 characters and no NUL |
| Stream.StringLength | libdts/DTSStream.h:114-118 | the written length is strlen capped at 255 |
| Stream.PutString | libdts/DTSStream.h:114-123 | `WriteString` writes one length byte and that many characters |
| Stream.TakeUnsignedPut | libdts/DTSStream.h:26-33 | an unsigned value written with `Write<T>` reads back unchanged and the reader moves past its k bytes |
| Stream.TakeSignedPut | libdts/DTSStream.h:26-33 | a signed value written with `Write<T>` reads back unchanged |
| Stream.TakeBoolPut | libdts/DTSStream.h:35-44 | a bool written as 1 or 0 reads back unchanged, whatever the caller's value was |
| Stream.TakeStringPut | libdts/DTSStream.h:62-68 | `ReadString` after `WriteString` gives the C string of what was written cut to 255 characters; a string of at most 255 characters without NUL comes back unchanged |
| Stream.WordNext | libdts/DTSStream.h:26-33 | a written 32-bit word reads back and what follows it is next |
| Stream.IStream.Read | libdts/DTSStream.h:46-60 | the stream moves as `Take` says and the result is the good flag afterwards |
| Stream.IStream.ReadUnsigned | libdts/DTSStream.h:26-33 | the read value and the new stream state are those of `TakeUnsigned`; the result is the good flag |
| Stream.IStream.ReadSigned | libdts/DTSStream.h:26-33 | the read value and the new stream state are those of `TakeSigned` |
| Stream.IStream.ReadFloat | libdts/DTSStream.h:26-33 | corrected: a float is read as the unsigned value of its four bytes, in little-endian order on either host |
| Stream.IStream.ReadBool | libdts/DTSStream.h:35-44 | the read bool and the new state are those of `TakeBool`; a failed read returns the caller's prior value |
| Stream.IStream.ReadString | libdts/DTSStream.h:62-68 | the read string and the new state are those of `TakeString` |
| Stream.OStream.Write | libdts/DTSStream.h:98-112 | a good stream appends the bytes, a failed one appends nothing; the good flag is unchanged and returned |
| Stream.OStream.WriteUnsigned | libdts/DTSStream.h:85-90 | a good stream appends the value's k little-endian bytes |
| Stream.OStream.WriteSigned | libdts/DTSStream.h:85-90 | a good stream appends the signed value's k little-endian bytes |
| Stream.OStream.WriteFloat | libdts/DTSStream.h:85-90 | corrected: a good stream appends the float's bit pattern in little-endian order on either host |
| Stream.OStream.WriteBool | libdts/DTSStream.h:92-96 | a good stream appends 1 or 0 in one byte |
| Stream.OStream.WriteString | libdts/DTSStream.h:114-123 | a good stream appends the length byte and the characters of `PutString` |
| Vector.Address | libdts/DTSVector.h:12-19 | the address is null exactly for an empty vector and is the element storage otherwise |
| Vector.Insert | libdts/DTSVector.h:21-33 | the vector grows by one, x lands at index, the elements before it stay and the rest move up by one |
| Vector.Merge | libdts/DTSVector.h:35-45 | the count elements at addr are appended after the unchanged old elements |
| Vector.Set | libdts/DTSVector.h:47-57 | a null address empties the vector; otherwise the vector becomes exactly the sz elements at addr |
| Strings.GetTrailingNumber | libdts/DTSString.h:13-46 | the pointer walks give the name and number of the reference split `TrailingNumber` |
| Strings.SplitAt | libdts/DTSString.h:35-45 | once the digit walk stopped, the sign test, atoi and the space trim give `SplitAtRun` |
| Strings.SkipTrailingSpace | libdts/DTSString.h:23-25 | the loop stops where the reference walk over trailing spaces stops |
| Strings.SkipDigits | libdts/DTSString.h:31-33 | the loop stops where the reference walk over digits stops |
| Strings.RemoveSpaceBefore | libdts/DTSString.h:41-45 | the name is the text before the number with its trailing whitespace removed |
| Strings.AtoiDigits | libdts/DTSString.h:37-39 | atoi of a digit run followed by whitespace is the run's value |
| Strings.SpacesWalk | libdts/DTSString.h:23-25 | the walk over trailing spaces stops at the last non-space character |
| Strings.DigitsWalk | libdts/DTSString.h:31-33 | the walk over a digit run stops at the character before it |
| Strings.SplitUnsigned | libdts/DTSString.h:13-46 | a name, optional whitespace and a digit run split back into the name and the run's value |
| Strings.SplitSigned | libdts/DTSString.h:35-37 | a name, a '-' or '_' and a digit run split back into the name and the negated value |
| Strings.NoTrailingDigit | libdts/DTSString.h:15-29 | a null or empty string gives an empty name and leaves the number alone; a string not ending in a digit is returned whole |
| Strings.DigitWalkReachesStart | libdts/DTSString.h:39 | when the digit walk reaches the first character the source parses from it and the name is empty: "12" gives 12 and "a12" gives 0 |
| Strings.TrailingNumberOfCString | libdts/DTSString.h:20 | the C string held by the pointer is what is split |
| Strings.ToString | libdts/DTSShapeEdit.cpp:43 | `std::to_string` of an int is non-empty: a minus sign for a negative value, then the magnitude's digits |
| Strings.DigitsValue | libdts/DTSShapeEdit.cpp:43 | the digits of n read back as n |
| Strings.ToStringAtoi | libdts/DTSShapeEdit.cpp:43 | atoi reads back what `std::to_string` writes |
| Strings.ToStringInjective | libdts/DTSShapeEdit.cpp:43 | no two numbers get the same text |
| Strings.StartsWith | libdts/DTSString.h:48-53 | the test holds exactly when str2 is a prefix of str1 |
| Strings.PrefixTest | libdts/DTSString.h:51-52 | the length test plus the element-wise comparison is the same as being a prefix |
| IntegerSet.Extent | libdts/DTSIntegerSet.cpp:62-94 | one past the highest member: the position below it is a member and none from it on is |
| IntegerSet.ExtentIs | libdts/DTSIntegerSet.cpp:62-94 | the end of a set is fixed by those two properties |
| IntegerSet.Inserted | libdts/DTSIntegerSet.cpp:34-60 | the value lands at index, positions below stay, positions above take the one below them, and the last position falls off |
| IntegerSet.SetUptoBit | libdts/DTSIntegerSet.cpp:8-11 | `SetUpto(upto)` has exactly the bits 0 to upto & 31 set, all 32 when upto & 31 is 31 |
| IntegerSet.LowMaskBit | libdts/DTSIntegerSet.cpp:51 | the low mask has exactly the bits below the insert point |
| IntegerSet.HighMaskBit | libdts/DTSIntegerSet.cpp:52 | the high mask has exactly the bits above the insert point |
| IntegerSet.SetWordBit | libdts/DTSIntegerSet.cpp:22 | or-ing in `1 << r` sets bit r and no other |
| IntegerSet.SetWordIdempotent | libdts/DTSIntegerSet.cpp:22 | setting a bit twice is setting it once |
| IntegerSet.AndBit | libdts/DTSIntegerSet.cpp:81 | `w & (1 << r)` is non-zero exactly when bit r of w is set |
| IntegerSet.CarryInBit | libdts/DTSIntegerSet.cpp:45-47 | a shifted word holds the top bit of the word below at bit 0 and its own bits moved up one place |
| IntegerSet.OpenGapBit | libdts/DTSIntegerSet.cpp:55 | the word holding index keeps the bits below it, clears it and moves the bits above it up one place |
| IntegerSet.SetEffect | libdts/DTSIntegerSet.cpp:18-23 | setting bit index % 32 of word index / 32 makes position index a member and changes nothing else |
| IntegerSet.WordsAboveExtent | libdts/DTSIntegerSet.cpp:39-41 | every word from the end of the set on is zero, so the shift loop starting at `End() / 32 + 1` loses nothing |
| IntegerSet.CarriedWords | libdts/DTSIntegerSet.cpp:43-48 | the shifting loop changes only the words above low up to end_word, each by one carry step |
| IntegerSet.InsertEffect | libdts/DTSIntegerSet.cpp:38-55 | the carried words with the gap opened hold the old members with a false inserted at index |
| IntegerSet.InsertedAt | libdts/DTSIntegerSet.cpp:38-55 | the same, position by position, split by the word the position is in |
| IntegerSet.InsertedSet | libdts/DTSIntegerSet.cpp:57-59 | setting the inserted position after the shift inserts a true |
| IntegerSet.ClearEffect | libdts/DTSIntegerSet.cpp:25-32 | `ClearAll(upto)` clears exactly the positions of the whole words below upto / 32 and bits 0 to upto % 32 of the next word when upto % 32 is not 0, and keeps the others |
| IntegerSet.TakeSet | libdts/DTSIntegerSet.cpp:96-111 | loading always yields 64 words, and succeeds only on a good stream |
| IntegerSet.Used | libdts/DTSIntegerSet.cpp:116-119 | the word count written is one past the last non-zero word: that word is non-zero and every word after it is zero |
| IntegerSet.PutSet | libdts/DTSIntegerSet.cpp:113-125 | a written set takes 8 bytes plus 4 per used word |
| IntegerSet.PutSetParts | libdts/DTSIntegerSet.cpp:115-122 | the three writes of `WriteToStream` append exactly PutSet |
| IntegerSet.LoadWrite | libdts/DTSIntegerSet.cpp:96-125 | loading what `WriteToStream` wrote gives back the same 64 words and succeeds |
| IntegerSet.UsedSplit | libdts/DTSIntegerSet.cpp:116-122 | the used words followed by zeros are all the words, so dropping the unused zero words loses nothing |
| IntegerSet.HeaderRead | libdts/DTSIntegerSet.cpp:100-104 | the zero word and the count in front of the words read back as written |
| IntegerSet.TakeWordsPut | libdts/DTSIntegerSet.cpp:107-108 | n written words read back as themselves |
| IntegerSet.TSIntegerSet.constructor | libdts/DTSIntegerSet.cpp:13-16 | a new set has every word zero and no member |
| IntegerSet.TSIntegerSet.Set | libdts/DTSIntegerSet.cpp:18-23 | index becomes a member and nothing else changes |
| IntegerSet.TSIntegerSet.ClearAll | libdts/DTSIntegerSet.cpp:25-32 | the positions ClearedBy(upto) stop being members, the others are unchanged, and the default upto zeroes every word |
| IntegerSet.TSIntegerSet.End | libdts/DTSIntegerSet.cpp:62-94 | the downward word search returns the end of the set, 0 for the empty set |
| IntegerSet.TSIntegerSet.FindHighBit | libdts/DTSIntegerSet.cpp:70-89 | in a non-zero word the byte and bit searches find the highest set bit |
| IntegerSet.TSIntegerSet.FindHighByte | libdts/DTSIntegerSet.cpp:72-89 | the byte loop stops at the highest byte with a bit set, with its mask |
| IntegerSet.TSIntegerSet.FindBitInByte | libdts/DTSIntegerSet.cpp:77-85 | the bit loop stops at the highest set bit of that byte, and no bit above it is set |
| IntegerSet.TSIntegerSet.Insert | libdts/DTSIntegerSet.cpp:34-60 | the set becomes the old set with value inserted at index, the members above moved up one place and the last position dropped |
| IntegerSet.TSIntegerSet.CarryWords | libdts/DTSIntegerSet.cpp:43-48 | the words become CarriedWords of the old words |
| IntegerSet.TSIntegerSet.LoadFromStream | libdts/DTSIntegerSet.cpp:96-111 | the words and the stream become what TakeSet reads, and the result is its success |
| IntegerSet.TSIntegerSet.ReadWords | libdts/DTSIntegerSet.cpp:107-108 | words 0 to count - 1 are read in order and the others stay zero |
| IntegerSet.TSIntegerSet.WriteToStream | libdts/DTSIntegerSet.cpp:113-125 | a good stream gets PutSet of the words appended; a failed one nothing; the result is the good flag |
| IntegerSet.TSIntegerSet.UsedWords | libdts/DTSIntegerSet.cpp:116-119 | the count loop computes Used of the words |
| IntegerSet.TSIntegerSet.WriteWords | libdts/DTSIntegerSet.cpp:121-122 | words 0 to n - 1 are appended in order on a good stream |
| IntegerSet.TSIntegerSet.PutWord | libdts/DTSIntegerSet.cpp:122 | one more word extends the written prefix by its four bytes |
| IntegerSet.ByteTest | libdts/DTSIntegerSet.cpp:75 | `dword & mask` is non-zero exactly when a bit of that byte is set |
| IntegerSet.TopBit | libdts/DTSIntegerSet.cpp:78 | `mask & ~(mask >> 1)` is the top bit of the byte mask |
| IntegerSet.ByteMaskShift | libdts/DTSIntegerSet.cpp:87-88 | `mask >>= 8` moves the byte mask one byte down, in step with `j -= 8` |
| IntegerSet.NarrowSearch | libdts/DTSIntegerSet.cpp:73-89 | when a bit is set in a range but none above mid, one is set up to mid: the searches cannot run past a set bit |
| MaterialLists.Stripped | libdts/DTSMaterialList.cpp:36-40 | the stripped name is no longer than the buffer's string |
| MaterialLists.StrippedIsLastPart | libdts/DTSMaterialList.cpp:36-40 | the stripped name is the longest suffix without a '/' or '\\': a suffix, free of separators, and all of the string or preceded by a separator |
| MaterialLists.StripPath | libdts/DTSMaterialList.cpp:38-40 | the pointer walk back from the end yields Stripped of the buffer |
| MaterialLists.StrippedPlain | libdts/DTSMaterialList.cpp:36-40 | a name without a directory part is kept as it is |
| MaterialLists.StrippedIdempotent | libdts/DTSMaterialList.cpp:36-40 | stripping twice strips no more than once |
| MaterialLists.TakeNames | libdts/DTSMaterialList.cpp:24-44 | the name loop reads at most count names, exactly count when it succeeds |
| MaterialLists.TakeNameList | libdts/DTSMaterialList.cpp:9-47 | loading a name list keeps the stream well formed |
| MaterialLists.FailedStays | libdts/DTSMaterialList.cpp:30-34 | after an empty name the loop has returned: later iterations change nothing |
| MaterialLists.NameNext | libdts/DTSMaterialList.cpp:29-43 | a written plain name reads back as itself and stripping keeps it |
| MaterialLists.NamesWritten | libdts/DTSMaterialList.cpp:24-44 | the names written by the write loop read back in order and the load goes on |
| MaterialLists.NameListWritten | libdts/DTSMaterialList.cpp:9-59 | reading a written name list gives back the names and succeeds |
| MaterialLists.WrongVersion | libdts/DTSMaterialList.cpp:11-14 | a version byte other than 1 fails the load after reading that byte only |
| MaterialLists.EmptyNameFails | libdts/DTSMaterialList.cpp:30-34 | an empty name after some good names fails the load, keeps the names before it and reads nothing after it |
| MaterialLists.TakeMaps | libdts/DTSMaterialList.cpp:68-76 | the four map loops give four arrays of one entry per material |
| MaterialLists.TakeScales | libdts/DTSMaterialList.cpp:78-98 | the detail scales and reflection amounts come out with one entry per material |
| MaterialLists.TakeAttributes | libdts/DTSMaterialList.cpp:66-98 | after the names all six arrays have one entry per material |
| MaterialLists.WordsWritten | libdts/DTSMaterialList.cpp:109-125 | an array written word by word reads back word by word |
| MaterialLists.MapsRead | libdts/DTSMaterialList.cpp:68-76 | the four map arrays written in order read back as written |
| MaterialLists.ScalesRead | libdts/DTSMaterialList.cpp:78-98 | version 25 skips its extra words; before version 21 the reflection amounts become 1.0, from 21 on they read back |
| MaterialLists.LayoutRead | libdts/DTSMaterialList.cpp:61-101 | the arrays laid out for a version read back as the reader of that version expects |
| MaterialLists.ListWritten | libdts/DTSMaterialList.cpp:61-128 | a list written by `TSMaterialList::WriteToStream` and read by a version 21 to 24 reader gives back the names and all six arrays |
| MaterialLists.Resized | libdts/DTSMaterialList.cpp:130-138 | `resize(n)` keeps the first n entries and pads with zeros |
| MaterialLists.TSMaterialList.constructor | libdts/DTSMaterialList.h:27-56 | a new list has no names and empty arrays |
| MaterialLists.TSMaterialList.LoadNames | libdts/DTSMaterialList.cpp:9-47 | the names read are added after those already held, and the result is TakeNameList's |
| MaterialLists.TSMaterialList.Allocate | libdts/DTSMaterialList.cpp:130-138 | every array is resized to n entries and the names are unchanged |
| MaterialLists.TSMaterialList.LoadFromStream | libdts/DTSMaterialList.cpp:61-101 | after the names, the six arrays are those TakeAttributes reads, with one entry per name |
| MaterialLists.TSMaterialList.LoadMaps | libdts/DTSMaterialList.cpp:68-76 | the four map arrays become those TakeMaps reads |
| MaterialLists.TSMaterialList.LoadScales | libdts/DTSMaterialList.cpp:78-98 | the scales and reflection amounts become those TakeScales reads |
| MaterialLists.TSMaterialList.WriteToStream | libdts/DTSMaterialList.cpp:103-128 | a good stream gets the name list and then the six arrays in order |
| MaterialLists.TSMaterialList.WriteMaps | libdts/DTSMaterialList.cpp:109-119 | the four map arrays are written in order |
| MaterialLists.TSMaterialList.WriteScales | libdts/DTSMaterialList.cpp:121-125 | the detail scales and reflection amounts are written in order |
| MaterialLists.TSMaterialList.WriteNames | libdts/DTSMaterialList.cpp:49-59 | a good stream gets the version byte, the count and the names |
| MaterialLists.ReadNames | libdts/DTSMaterialList.cpp:24-44 | the loop reads what TakeNames describes, each name stripped of its directory part |
| MaterialLists.ReadWordsOver | libdts/DTSMaterialList.cpp:69-70 | every entry of the allocated array is overwritten by the next word |
| MaterialLists.ReadDiscarded | libdts/DTSMaterialList.cpp:80-83 | version 25's extra words are read and dropped |
| MaterialLists.FillOnes | libdts/DTSMaterialList.cpp:96-97 | every reflection amount becomes 1.0 |
| MaterialLists.WriteNameStrings | libdts/DTSMaterialList.cpp:55-56 | the names are written in order with `WriteString` |
| MaterialLists.PutNameList | libdts/DTSMaterialList.cpp:49-58 | the bytes begin with the binary file version 1 and then the name count as a little-endian 32-bit word |
| MaterialLists.WriteWords | libdts/DTSMaterialList.cpp:109-110 | an array is written word by word |
| ShapeAlloc.Slice | libdts/DTSShapeAlloc.h:43-47 | the bytes read from an offset are those of the image, zero outside it, none for a negative count |
| ShapeAlloc.Store | libdts/DTSShapeAlloc.h:55-56 | storing bytes changes exactly the positions they cover and keeps the image's length |
| ShapeAlloc.StoreThenSlice | libdts/DTSShapeAlloc.h:55-56 | stored bytes that fit the image read back unchanged |
| ShapeAlloc.Load | libdts/DTSShapeAlloc.h:38-41 | an element loaded from the image fits its type |
| ShapeAlloc.Decode | libdts/DTSShapeAlloc.h:43-47 | decoded bytes give one value per whole element, each fitting its type |
| ShapeAlloc.Encode | libdts/DTSShapeAlloc.h:172-178 | the memory image of n elements takes n times their size |
| ShapeAlloc.EncodeAt | libdts/DTSShapeAlloc.h:172-178 | element i of an encoding lies at bytes i * size to i * size + size |
| ShapeAlloc.DecodeEncode | libdts/DTSShapeAlloc.h:43-47 | decoding an encoding gives back every value that fits |
| ShapeAlloc.EncodeDecode | libdts/DTSShapeAlloc.h:43-47 | encoding what was decoded gives back bytes that hold whole elements |
| ShapeAlloc.EncodeConcat | libdts/DTSShapeAlloc.h:172-178 | the encoding of a concatenation is the concatenation of the encodings |
| ShapeAlloc.EncodedSplit | libdts/DTSShapeAlloc.h:43-62 | when the bytes at p encode a then b, those at p encode a and those right after them encode b |
| ShapeAlloc.PagesAbove | libdts/DTSShapeAlloc.h:149-152 | the pages `Extend` allocates hold more than the elements asked for, a whole number of pages |
| ShapeAlloc.AlignedSize | libdts/DTSShapeAlloc.cpp:29-33 | `Align32` reserves 0 to 3 bytes and leaves a multiple of 4, and reserves nothing in skip mode |
| ShapeAlloc.Deref | libdts/DTSShapeAlloc.h:43-47 | the bytes behind a pointer are count of them |
| ShapeAlloc.Memcpy | libdts/DTSShapeAlloc.h:55-56 | a copy into the shape block stores the bytes there and changes nothing else |
| ShapeAlloc.Get | libdts/DTSShapeAlloc.h:37-41 | `Get()` yields the element at the cursor, fitting its type, and moves only that cursor by one element |
| ShapeAlloc.GetInto | libdts/DTSShapeAlloc.h:43-47 | `Get(dest, num)` yields the decoded num elements at the cursor and moves the cursor past them |
| ShapeAlloc.CopyToShape | libdts/DTSShapeAlloc.h:49-62 | the input moves past num elements and size_ grows by `sizeof(T) * mult_ * num`; with dest_ set the next `mult_ * num` elements are stored there and dest_ moves by what size_ grew; the result is dest_, or the input cursor when asked and dest_ is null |
| ShapeAlloc.GetPointer | libdts/DTSShapeAlloc.h:64-70 | the result is the input cursor, which then moves past num elements; nothing else changes |
| ShapeAlloc.AllocShape | libdts/DTSShapeAlloc.h:72-80 | room for num elements is reserved in size_ and, when dest_ is set, dest_ moves past it; the result is the old dest_ |
| ShapeAlloc.CheckGuardOf | libdts/DTSShapeAlloc.h:82-88 | the guard test holds exactly when the next element equals the guard counter, which is incremented either way, wrapping in T |
| ShapeAlloc.CheckGuard | libdts/DTSShapeAlloc.cpp:35-43 | the three guards are checked in turn and the result holds exactly when all three match |
| ShapeAlloc.Align32 | libdts/DTSShapeAlloc.cpp:29-33 | alignment reserves 8-bit room and moves no cursor |
| ShapeAlloc.SkipMode | libdts/DTSShapeAlloc.h:109 | mult_ is 0 while skipping and 1 otherwise; nothing else changes |
| ShapeAlloc.SetRead | libdts/DTSShapeAlloc.cpp:8-21 | all three cursors and guards reset, dest_ and size_ cleared only when asked, skip mode off |
| ShapeAlloc.DoAlloc | libdts/DTSShapeAlloc.cpp:23-27 | a block of exactly size_ bytes, dest_ at its start and size_ back at 0 |
| ShapeAlloc.CopyLandsAtDest | libdts/DTSShapeAlloc.h:49-62 | in the copying pass the copied bytes land at the old dest_ and read back as the input bytes they came from |
| ShapeAlloc.ITSShapeAlloc.constructor | libdts/DTSShapeAlloc.h:13-14 | a new allocator has no dest_, size_ and mult_ 0 and its cursors and guards at 0 |
| ShapeAlloc.ITSShapeAlloc.Get | libdts/DTSShapeAlloc.h:37-41 | the call does what `ReadState.Get` says |
| ShapeAlloc.ITSShapeAlloc.GetInto | libdts/DTSShapeAlloc.h:43-47 | the call does what `ReadState.GetInto` says |
| ShapeAlloc.ITSShapeAlloc.CopyToShape | libdts/DTSShapeAlloc.h:49-62 | the call does what `ReadState.CopyToShape` says |
| ShapeAlloc.ITSShapeAlloc.GetPointer | libdts/DTSShapeAlloc.h:64-70 | the call does what `ReadState.GetPointer` says |
| ShapeAlloc.ITSShapeAlloc.AllocShape | libdts/DTSShapeAlloc.h:72-80 | the call does what `ReadState.AllocShape` says |
| ShapeAlloc.ITSShapeAlloc.CheckGuardOf | libdts/DTSShapeAlloc.h:82-88 | the call does what `ReadState.CheckGuardOf` says |
| ShapeAlloc.ITSShapeAlloc.SetRead | libdts/DTSShapeAlloc.cpp:8-21 | the call does what `ReadState.SetRead` says |
| ShapeAlloc.ITSShapeAlloc.DoAlloc | libdts/DTSShapeAlloc.cpp:23-27 | the call does what `ReadState.DoAlloc` says |
| ShapeAlloc.ITSShapeAlloc.Align32 | libdts/DTSShapeAlloc.cpp:29-33 | the call does what `ReadState.Align32` says |
| ShapeAlloc.ITSShapeAlloc.CheckGuard | libdts/DTSShapeAlloc.cpp:35-43 | the call does what `ReadState.CheckGuard` says |
| ShapeAlloc.ITSShapeAlloc.SetSkipMode | libdts/DTSShapeAlloc.h:109 | the call does what `ReadState.SkipMode` says |
| ShapeAlloc.ITSShapeAlloc.Memcpy | libdts/DTSShapeAlloc.h:55-56 | the call does what `ReadState.Memcpy` says |
| ShapeAlloc.OTSShapeAlloc.constructor | libdts/DTSShapeAlloc.h:121-122 | a new writer has three empty buffers, no capacity and guards at 0 |
| ShapeAlloc.OTSShapeAlloc.SetWriteOf | libdts/DTSShapeAlloc.h:124-129 | one buffer emptied, its capacity and guard 0, the others unchanged |
| ShapeAlloc.OTSShapeAlloc.Extend | libdts/DTSShapeAlloc.h:147-162 | add elements are appended and the index of the first returned; when they do not fit the capacity becomes `1 + (full_size_ + add) / kPageSize` pages, above the new size, otherwise it stays |
| ShapeAlloc.OTSShapeAlloc.Set | libdts/DTSShapeAlloc.h:164-169 | one entry converted to T is appended and returned |
| ShapeAlloc.OTSShapeAlloc.SetGuardOf | libdts/DTSShapeAlloc.h:141-145 | the guard counter is appended, then incremented in T |
| ShapeAlloc.OTSShapeAlloc.CopyToBuffer | libdts/DTSShapeAlloc.h:171-178 | count entries are appended, zeros for a null pointer |
| ShapeAlloc.OTSShapeAlloc.SetWrite | libdts/DTSShapeAlloc.cpp:45-50 | all three buffers empty, no capacity, guards at 0 |
| ShapeAlloc.OTSShapeAlloc.SetGuard | libdts/DTSShapeAlloc.cpp:52-57 | one guard is appended to each buffer and each counter advances |
| ShapeAlloc.AppendedAssoc | libdts/DTSShapeAlloc.h:165-178 | appending x then y appends x followed by y |
| ShapeAlloc.AppendedCommute | libdts/DTSShapeAlloc.h:187-197 | appends to two different buffers commute |
| ShapeAlloc.NextGuards | libdts/DTSShapeAlloc.h:141-145 | the guard counters after `SetGuard` still fit their types |
| Mesh.MatIndexFields | libdts/DTSMesh.h:10-26 | the element type, indexed flag, no-material flag and material index come back out of the word they were packed into |
| Mesh.MatIndexOfFields | libdts/DTSMesh.h:12-21 | every material word is made of those four fields and nothing outside them |
| Mesh.SetFlagsBits | libdts/DTSMesh.h:54 | each bit of `mesh_type_ \|= flag` is set exactly when it is set in the type or in the flag |
| Mesh.SetFlags | libdts/DTSMesh.h:54 | setting a flag never lowers the mesh type word and leaves it at least the flag |
| Mesh.GetFlagsBits | libdts/DTSMesh.h:55 | each bit of `mesh_type_ & flag` is set exactly when it is set in both |
| Mesh.GetFlags | libdts/DTSMesh.h:55 | the masked word is at most the mesh type word and at most the mask |
| Mesh.MeshTypeOfFlags | libdts/DTSMesh.h:34-55 | `GetMeshType` of each of the five type codes is that code, and flags set above the low three bits never change it |
| Mesh.GetAllFlags | libdts/DTSMesh.h:55 | `GetFlags()` with the default all-ones mask is the whole mesh type |
| Mesh.VectorAt | libdts/DTSMesh.cpp:486 | `Vector::Set` from a pointer is empty for a null pointer and otherwise the elements decoded from the bytes behind it |
| Mesh.BytesAt | libdts/DTSMesh.cpp:499 | `Vector::Set` of a byte vector is empty for a null pointer and otherwise the bytes behind it |
| Mesh.GetWritten | libdts/DTSMesh.cpp:477-479 | a value the writer wrote with `Set` is what `Get` reads back |
| Mesh.CopiedWritten | libdts/DTSMesh.cpp:484-486 | data written with `CopyToBuffer` is copied into the shape block by `CopyToShape` and read back whole by `Vector::Set` |
| Mesh.GetCount | libdts/DTSMesh.cpp:484-485 | the count and the copied pointer are those of `ReadCount` |
| Mesh.ReadCount | libdts/DTSMesh.cpp:484-485 | the count is the 32-bit word at the cursor, and the input is left as it was |
| Mesh.CountedWritten | libdts/DTSMesh.cpp:566-568 | a vector written as its count and its data reads back whole in the copying pass, moving the cursor and dest_ past it |
| Mesh.TwoCountedWritten | libdts/DTSMesh.cpp:566-573 | two counted vectors written one after the other read back one after the other |
| Mesh.TwoCountedMoves | libdts/DTSMesh.cpp:484-490 | reading two counted vectors moves the 32-bit cursor past both and dest_ past their data, and nothing else |
| Mesh.SharedData | libdts/DTSMesh.h:77-99 | without a parent `size` elements are consumed (a pointer when skipping, a copy otherwise); with a parent no input moves and the parent's pointer is answered, unless its data was not copied and this mesh is not skipped, when room is reserved and the parent's data copied |
| Mesh.GetSharedData | libdts/DTSMesh.h:77-99 | the call does what `SharedData` says |
| Mesh.SharedBytesOverrun | libdts/DTSMesh.h:92-94 | for the 8-bit encoded normals the copy writes `size * 4` bytes where only `size` were reserved |
| Mesh.ReadHeader | libdts/DTSMesh.cpp:475-482 | the head consumes a guard and 14 words and yields 6 bounds words and 3 center words |
| Mesh.AssembleHeader | libdts/DTSMesh.cpp:475-482 | the calls do what `ReadHeader` says |
| Mesh.ReadVertexData | libdts/DTSMesh.cpp:484-507 | vertex reading checks no guard and moves no input image; before version 22 there are no encoded normals |
| Mesh.AssembleVertexData | libdts/DTSMesh.cpp:484-507 | the calls do what `ReadVertexData` says |
| Mesh.ReadPrimitives | libdts/DTSMesh.cpp:509-540 | the primitive and index reads take pointers into the input only: size_, dest_ and the shape block do not change |
| Mesh.PrimitivesOf | libdts/DTSMesh.cpp:522-528 | primitive i takes start and count from 16-bit entries 2i and 2i+1 and its material word from 32-bit entry i |
| Mesh.IndicesOf | libdts/DTSMesh.cpp:530-532 | each 16-bit index widens to a 32-bit word whose signed value is the index |
| Mesh.Widen | libdts/DTSMesh.cpp:532 | a widened int16 is the same signed value, sign-extended |
| Mesh.AssemblePrimitives | libdts/DTSMesh.cpp:509-540 | the calls do what `ReadPrimitives` says |
| Mesh.BuildPrimitives | libdts/DTSMesh.cpp:522-528 | the copy loop builds `PrimitivesOf` |
| Mesh.BuildIndices | libdts/DTSMesh.cpp:530-532 | the widening loop builds `IndicesOf` |
| Mesh.ReadTail | libdts/DTSMesh.cpp:542-551 | the tail consumes four 32-bit words: the merge count, the vertices per frame, the flags and the guard |
| Mesh.AssembleTail | libdts/DTSMesh.cpp:542-551 | the calls do what `ReadTail` says |
| Mesh.ReadMesh | libdts/DTSMesh.cpp:473-552 | an assembled mesh keeps the parent read in its head and carries no subclass data; before version 22 it has no encoded normals; `RoundTrip.MeshReadBack` reads back what `Disassemble` writes |
| Mesh.Assemble | libdts/DTSMesh.cpp:473-552 | the calls do what `ReadMesh` says |
| Mesh.ReadSkinVertices | libdts/DTSMesh.cpp:650-670 | the initial vertices and normals are read through the sharing rule; before version 22 no encoded normals |
| Mesh.AssembleSkinVertices | libdts/DTSMesh.cpp:650-670 | the calls do what `ReadSkinVertices` says |
| Mesh.ReadSkinLists | libdts/DTSMesh.cpp:672-690 | the skin lists are read without moving the input image |
| Mesh.AssembleSkinLists | libdts/DTSMesh.cpp:672-690 | the calls do what `ReadSkinLists` says |
| Mesh.AssembleSkin | libdts/DTSMesh.cpp:646-691 | the calls do what `ReadSkinMesh` (the base mesh, then the skin section) says |
| Mesh.ReadSkinMesh | libdts/DTSMesh.cpp:646-691 | a skin mesh keeps the base mesh's parent, carries a skin section, has no encoded normals before version 22, and leaves the input as it was |
| Mesh.AssembleSkinAfter | libdts/DTSMesh.cpp:650-690 | after the base mesh, the calls do what `SkinAfter` says |
| Mesh.Header32 | libdts/DTSMesh.cpp:558-563 | the written head is 13 words |
| Mesh.Vertex32 | libdts/DTSMesh.cpp:565-577 | a mesh with a parent writes only the two counts; without one, the counts, the vertices, texture vertices and normals |
| Mesh.CodesUpTo | libdts/DTSMesh.cpp:583-587 | one code per normal |
| Mesh.Codes | libdts/DTSMesh.cpp:579-588 | a mesh with a parent writes no codes; without one, one per normal |
| Mesh.CodesUpToAt | libdts/DTSMesh.cpp:585-586 | entry i holds the bit pattern of normal i's code: the stored one, or the nearest codebook entry |
| Mesh.AsInt8 | libdts/DTSMesh.cpp:586 | a uint8 code stored through an int8 pointer keeps its bit pattern |
| Mesh.Mats | libdts/DTSMesh.cpp:599 | one material word per primitive |
| Mesh.Halves | libdts/DTSMesh.cpp:594-598 | two int16 entries per primitive |
| Mesh.Shorts | libdts/DTSMesh.cpp:604-608 | one int16 entry per index |
| Mesh.Prim32 | libdts/DTSMesh.cpp:591-603 | the 32-bit primitive entries are the two counts and one material word per primitive |
| Mesh.Prim16 | libdts/DTSMesh.cpp:591-608 | the 16-bit entries are two per primitive, then one per index |
| Mesh.Tail32 | libdts/DTSMesh.cpp:610-615 | the tail is 0, the vertices per frame and the whole mesh type |
| Mesh.FramedLayout | libdts/DTSMesh.cpp:554-618 | each buffer opens and closes with a guard and holds its own entries between them, in order |
| Mesh.MeshEntriesLayout | libdts/DTSMesh.cpp:554-618 | the 32-bit buffer gets the head, vertex data, primitives and tail; the 16-bit one the halves and indices; the 8-bit one the codes; each between two guards |
| Mesh.Disassemble | libdts/DTSMesh.cpp:554-618 | the writer's buffers get `MeshEntries` appended and the guards advance twice; `RoundTrip.MeshReadBack` reads them back |
| Mesh.PutHeader | libdts/DTSMesh.cpp:558-563 | the head words are appended |
| Mesh.PutVertices | libdts/DTSMesh.cpp:565-577 | the vertex words are appended |
| Mesh.PutCodes | libdts/DTSMesh.cpp:579-588 | the codes are appended to the 8-bit buffer |
| Mesh.NormalCode | libdts/DTSMesh.cpp:585 | the stored code when there are encoded normals, else the nearest codebook entry |
| Mesh.PutPrimitives | libdts/DTSMesh.cpp:590-608 | the 32-bit and 16-bit primitive entries are appended |
| Mesh.CopiedAll | libdts/DTSVector.h:12-19 | copying a whole vector from its address appends exactly its elements |
| Mesh.Truncated | libdts/DTSMesh.cpp:604-607 | the narrowing loop builds `Shorts` |
| Mesh.PutTail | libdts/DTSMesh.cpp:610-615 | the tail words are appended |
| Mesh.Skin32Counts | libdts/DTSMesh.cpp:697-731 | the skin entries open with the initial-vertex count, and a mesh with a parent writes only the four counts |
| Mesh.DisassembleSkin | libdts/DTSMesh.cpp:693-734 | the writer's buffers get `SkinEntries` (the base mesh, the skin words, the codes again, a guard) appended; `SkinRoundTrip.SkinReadBack` reads them back |
| Mesh.PutSkin | libdts/DTSMesh.cpp:697-731 | the skin words are appended |
| Mesh.CopySourceVertexData | libdts/DTSMesh.cpp:620-639 | the vertices, texture vertices and normals become src's; a skin mesh also takes src's weights, bone and vertex indices when src is a skin mesh; nothing else changes |
| Normals.EncodeNormal | libdts/DTSMesh.cpp:361-375 | the scan returns the first row whose dot product beats every earlier one and the starting bound: the encoding of the normal |
| Normals.Scan | libdts/DTSMesh.cpp:363-373 | the kept index is a row of the codebook, 0 before any row |
| Normals.ScanKeepsFirstMax | libdts/DTSMesh.cpp:365-373 | after any number of rows the scan holds the first strict maximum above the starting bound and its dot product |
| Normals.ScanResultUnique | libdts/DTSMesh.cpp:361-375 | at most one index is that first maximum, so the code is determined by the dot products |
| Normals.Row97RepeatsRow22 | libdts/DTSMesh.cpp:35 | row 97 of the codebook (line 110) repeats row 22 |
| Normals.Row111RepeatsRow17 | libdts/DTSMesh.cpp:30 | row 111 (line 124) repeats row 17 |
| Normals.Row142RepeatsRow36 | libdts/DTSMesh.cpp:49 | row 142 (line 155) repeats row 36 |
| Normals.Row219RepeatsRow51 | libdts/DTSMesh.cpp:64 | row 219 (line 232) repeats row 51 |
| Normals.Row205RepeatsRow64 | libdts/DTSMesh.cpp:77 | row 205 (line 218) repeats row 64 |
| Normals.Row153RepeatsRow132 | libdts/DTSMesh.cpp:145 | row 153 (line 166) repeats row 132 |
| Normals.LaterCopiesNeverChosen | libdts/DTSMesh.cpp:368 | because the comparison is strict, the later copy of a repeated row is never the code of any normal |
| Normals.DecodeThenEncode97 | libdts/DTSMesh.cpp:68 | decoding code 97 and encoding the result does not give 97 back |
| Normals.Dots | libdts/DTSMesh.cpp:367 | one dot product per codebook row, in row order |
| Normals.DecodeNormal | libdts/DTSMesh.h:68 | row `code` of the 256-row codebook `kU8ToNormalTable` (DTSMesh.cpp lines 12-269); the repeated rows are stated by the `Row…Repeats…` lemmas |
| SortedMesh.ClusterLengths | libdts/DTSSortedMesh.cpp:14-20 | in the copying pass the clusters are eight words per counted cluster and the second array one word per entry, or eight when read as whole clusters |
| SortedMesh.AssembleClusters | libdts/DTSSortedMesh.cpp:14-20 | the calls do what `ReadClusters` says |
| SortedMesh.AssembleFrames | libdts/DTSSortedMesh.cpp:22-36 | the calls do what `ReadFrames` says |
| SortedMesh.SortedCountsKept | libdts/DTSSortedMesh.cpp:14-20 | while filling the shape block the corrected loader keeps every cluster read and one start-cluster word per entry, where the loader as written keeps `8 * sz` cluster words and no start clusters; both agree on the rest |
| SortedMesh.AssembleSorted | libdts/DTSSortedMesh.cpp:10-37 | the calls do what `ReadSorted` (the base mesh, then the corrected sorted section) says |
| SortedMesh.ReadSortedAsWritten | libdts/DTSSortedMesh.cpp:10-37 | as written: the mesh carries a sorted section whose start clusters are always empty, whatever the file holds |
| SortedMesh.ReadSorted | libdts/DTSSortedMesh.cpp:10-37 | corrected: the mesh carries a sorted section whose start clusters are the start-cluster array read after the base mesh |
| SortedMesh.AssembleSortedAfter | libdts/DTSSortedMesh.cpp:14-36 | corrected: after the base mesh, the calls do what `SortedAfter` says |
| SortedMesh.AssembleSortedAfterAsWritten | libdts/DTSSortedMesh.cpp:14-36 | as written: after the base mesh, the calls do what `SortedAfterAsWritten` says: the start-cluster array lands in the clusters and the start clusters stay empty |
| SortedMesh.DisassembleSorted | libdts/DTSSortedMesh.cpp:39-61 | the writer's buffers get `SortedEntries` (the base mesh, the sorted words, a guard) appended |
| SortedMesh.PutCounted | libdts/DTSSortedMesh.cpp:43-44 | a count and a vector's data are appended |
| SortedMesh.PutClusters | libdts/DTSSortedMesh.cpp:43-47 | the two cluster arrays are appended, each after its count |
| SortedMesh.PutFrames | libdts/DTSSortedMesh.cpp:49-58 | the three per-frame arrays, each after its count, and the flag as 1 or 0 are appended |
| SortedMesh.CountedFits | libdts/DTSSortedMesh.cpp:43-44 | the counted entries of a vector that fits are its count and its data |
| SortedMesh.ClustersWritten | libdts/DTSSortedMesh.cpp:14-20 | in the copying pass both cluster arrays and their counts are read back from the entries written for them |
| SortedMesh.ClustersMoves | libdts/DTSSortedMesh.cpp:14-20 | reading them moves the cursor past their entries and dest_ past their data |
| SortedMesh.FramesWritten | libdts/DTSSortedMesh.cpp:22-34 | the three per-frame arrays and the flag are read back from the entries written for them |
| SortedMesh.FramesReady | libdts/DTSSortedMesh.cpp:22-28 | the entries of the first two arrays lie at the cursor, and those of the third and the flag where reading the first two leaves it |
| SortedMesh.CountedThenFlag | libdts/DTSSortedMesh.cpp:30-34 | the last counted array and the flag after it are read back |
| SortedMesh.SortedWritten | libdts/DTSSortedMesh.cpp:10-61 | in the copying pass the corrected loader reads back exactly the sorted data `Disassemble` wrote |
| SortedMesh.PartsReady | libdts/DTSSortedMesh.cpp:14-34 | the cluster entries lie at the cursor and the frame entries where reading the clusters leaves it |
| SortedMesh.SortedWrittenAsWritten | libdts/DTSSortedMesh.cpp:14-20 | the loader as written keeps eight words per written start-cluster entry as its clusters and no start clusters, whatever clusters were written |
| SortedMesh.WrittenClusterLost | libdts/DTSSortedMesh.cpp:20 | a mesh with one cluster and no start clusters loses its cluster through the loader as written, and the corrected loader gets it back |
| Decal.PrimitivesOfWords | libdts/DTSDecal.cpp:27 | `TSDrawPrimitive` memory seen as primitives: three words per record |
| Decal.Unsigned16 | libdts/DTSDecal.cpp:32 | a 16-bit element read as `uint16_t` is the value modulo 2^16 |
| Decal.Unsigned16All | libdts/DTSDecal.cpp:32 | every index read that way |
| Decal.SkipsAll | libdts/DTSDecal.cpp:21-25 | the loop ends having skipped sz primitives, none when sz is not positive |
| Decal.SkipPrimitivesMoves | libdts/DTSDecal.cpp:21-25 | the loop moves the 16-bit and 32-bit cursors 4 bytes per primitive and nothing else |
| Decal.ReadOldHead | libdts/DTSDecal.cpp:12-17 | before version 20 a guard and 15 words are consumed, from version 20 nothing; nothing is copied |
| Decal.ReadDecalPrimitives | libdts/DTSDecal.cpp:19-27 | the primitive loop leaves the shape block and the input as they were |
| Decal.DecalPrimitivesFromShape | libdts/DTSDecal.cpp:19-27 | no primitive is loaded from the file: none while sizing, and when copying the records already at the current shape address |
| Decal.ReadDecalIndices | libdts/DTSDecal.cpp:29-32 | the indices are the 16-bit elements at the cursor read as `uint16_t` |
| Decal.ReadOldTail | libdts/DTSDecal.cpp:34-39 | before version 20 three words and a guard are consumed, from version 20 nothing |
| Decal.ReadDecalFrames | libdts/DTSDecal.cpp:41-52 | the frames and planes are viewed in place: nothing is reserved or copied |
| Decal.AssembleDecal | libdts/DTSDecal.cpp:10-53 | the calls do what `ReadDecal` says |
| Decal.ReadDecal | libdts/DTSDecal.cpp:10-53 | a decal copies nothing into the shape block and leaves skip mode alone; its indices are 16-bit values |
| Decal.AssembleOldHead | libdts/DTSDecal.cpp:12-17 | the calls do what `ReadOldHead` says |
| Decal.AssembleDecalPrimitives | libdts/DTSDecal.cpp:19-27 | the loop does what `ReadDecalPrimitives` says |
| Decal.AssembleDecalIndices | libdts/DTSDecal.cpp:29-32 | the calls do what `ReadDecalIndices` says |
| Decal.AssembleOldTail | libdts/DTSDecal.cpp:34-39 | the calls do what `ReadOldTail` says |
| Decal.AssembleDecalFrames | libdts/DTSDecal.cpp:41-52 | the calls do what `ReadDecalFrames` says |
| Decal.AlignAligns | libdts/DTSShapeAlloc.cpp:29-33 | `Align32` only rounds size_ up and moves dest_ by as much |
| Decal.RoundUp4Twice | libdts/DTSShapeAlloc.cpp:31 | rounding up to a multiple of 4 twice is rounding once |
| Decal.PrimitivesAlign | libdts/DTSDecal.cpp:19-27 | reading the primitives only aligns |
| Decal.IndicesAlign | libdts/DTSDecal.cpp:29-32 | reading the indices only aligns |
| Decal.DecalCopiesNothing | libdts/DTSDecal.cpp:10-53 | loading a decal copies nothing into the shape block, leaves the input alone and only rounds size_ up |
| Decal.PrimitiveRecords | libdts/DTSDecal.cpp:58 | the memory of the primitive array is three words per primitive |
| Decal.RecordsRead | libdts/DTSDecal.cpp:27 | reading records back as primitives inverts that layout |
| Decal.IndexWords | libdts/DTSDecal.cpp:61 | the `uint16_t` index memory seen as words, one word per index copied |
| Decal.IndexWordsBytes | libdts/DTSDecal.cpp:61 | the copied index words are the index bytes followed by as many zero bytes |
| Decal.DisassembleDecal | libdts/DTSDecal.cpp:55-72 | the writer's buffers get `DecalEntries` appended and the guards advance once |
| Decal.PutTopology | libdts/DTSDecal.cpp:57-61 | the primitives and indices are appended, each after its count |
| Decal.PutDecalFrames | libdts/DTSDecal.cpp:63-69 | the start primitives after their count, the planes and the material are appended |
| Decal.TopologyWords | libdts/DTSDecal.cpp:57-61 | the 32-bit entries open with the two counted arrays the reader takes from elsewhere |
| Decal.DecalWriterGuardsOnly | libdts/DTSDecal.cpp:55-72 | the writer puts only guards in the 16-bit and 8-bit buffers and writes no leading guard |
| Decal.DecalWriterLayout | libdts/DTSDecal.cpp:57-61 | only a third of the primitive record words follow their count, and the index words are the index bytes padded with zeros |
| Endian.Reverse | libdts/DTSEndian.h:27-45 | the bytes in reverse order, element by element |
| Endian.ReverseReverse | libdts/DTSEndian.h:39-45 | reversing twice gives the bytes back |
| Endian.Swap16Bytes | libdts/DTSEndian.h:29-30 | the shift-and-mask expression of the 16-bit swap is the value of the reversed bytes |
| Endian.Swap32Bytes | libdts/DTSEndian.h:41-44 | the shift-and-mask expression of the 32-bit swap is the value of the reversed bytes |
| Endian.MemoryImage | libdts/DTSEndian.h:10-14 | a host lays out a k-byte value in k bytes |
| Endian.MemoryImageSigned | libdts/DTSEndian.h:10-14 | a host lays out a signed k-byte value in k bytes |
| Endian.HostLoadSigned | libdts/DTSEndian.h:10-14 | the signed value a host sees in k bytes fits k signed bytes |
| Endian.ConvertHostToLEndianSigned | libdts/DTSEndian.h:57-64 | the signed conversion stays within the signed width |
| Endian.ConvertLEndianToHostSigned | libdts/DTSEndian.h:66-73 | the signed conversion stays within the signed width |
| Endian.SwapTwoToThe24 | libdts/DTSEndian.h:39-45 | the byte swap of 2^24 is 1 |
| Endian.SwapFloatOfTwoToThe24 | libdts/DTSEndian.h:52-55 | the corrected float swap of 16777216.0 reverses its bit pattern |
| Endian.SwapFloatAsWrittenOfTwoToThe24 | libdts/DTSEndian.h:52-55 | the float swap as written turns 16777216.0 into 1.0 |
| Stream.Chars | libdts/DTSStream.h:62-67 | one character per byte read into the buffer, in order |
| Stream.BytesOf | libdts/DTSStream.h:114-122 | one byte per character written, in order |
| Stream.CStrNoNul | libdts/DTSStream.h:62-68 | the C string of characters without a NUL is all of them |
| Stream.PutUnsigned | libdts/DTSStream.h:85-90 | `Write<T>` appends k bytes for a k-byte value |
| Stream.PutBool | libdts/DTSStream.h:92-96 | a bool takes one byte |
| Stream.TakeWord | libdts/DTSStream.h:26-33 | reading a 32-bit word keeps the stream well formed |
| Stream.PutWord | libdts/DTSStream.h:85-90 | a 32-bit word takes four bytes |
| Stream.IStream.constructor | libdts/DTSStream.h:18-19 | a new input stream is good and at the start of its bytes |
| Stream.OStream.constructor | libdts/DTSStream.h:77-78 | a new output stream is good and empty |
| Strings.BackOverSpaces | libdts/DTSString.h:24-25 | the walk over trailing spaces only moves back |
| Strings.BackOverDigits | libdts/DTSString.h:32-33 | the walk over digits only moves back |
| Strings.TrimEnd | libdts/DTSString.h:42-45 | trimming trailing whitespace never lengthens the text |
| Strings.LeadingDigits | libdts/DTSString.h:37-39 | the prefix atoi reads is all digits |
| Strings.SplitNumberAt | libdts/DTSString.h:35-45 | once the digit walk has stopped at m, the split is the one taken at m |
| Strings.SignedRun | libdts/DTSString.h:36-37 | a '-' or '_' in front of the digits negates the number and is cut from the name |
| Strings.Digits | libdts/DTSShapeEdit.cpp:43 | `std::to_string` of a non-negative number is at least one digit and no sign |
| IntegerSet.Members | libdts/DTSIntegerSet.cpp:18-23 | a set's members, one per position of its 64 words |
| IntegerSet.MembersUpdate | libdts/DTSIntegerSet.cpp:18-23 | replacing one word changes only the members of that word's positions |
| IntegerSet.ExtentAt | libdts/DTSIntegerSet.cpp:62-94 | a set whose highest member is bit j of word i ends at 32 i + j + 1 |
| IntegerSet.ExtentEmpty | libdts/DTSIntegerSet.cpp:62-94 | a set of zero words ends at 0 |
| IntegerSet.TakeWords | libdts/DTSIntegerSet.cpp:107-108 | n words are read and the stream stays well formed |
| IntegerSet.PutWords | libdts/DTSIntegerSet.cpp:121-122 | n words take four bytes each |
| MaterialLists.TakeWords | libdts/DTSMaterialList.cpp:69-92 | n words are read and the stream stays well formed |
| MaterialLists.PutWords | libdts/DTSMaterialList.cpp:109-125 | n words take four bytes each |
| MaterialLists.ScalesWithoutDiscarded | libdts/DTSMaterialList.cpp:121-125 | the writer puts the detail scales and then the reflection amounts, with nothing between them |
| SortedMesh.ReadFrames | libdts/DTSSortedMesh.cpp:22-36 | the frame reads leave the input buffers as they were |
| SortedMesh.Reassembled | libdts/DTSSortedMesh.cpp:14-36 | the sorted data is put back together from what the two reads return |
| MeshStages.RadiusAsWritten | libdts/DTSMesh.cpp:482 | the radius comes back through the integer the writer stored at line 563; a radius that truncates to 0 comes back as exactly 0 |
| MeshStages.HeaderStage | libdts/DTSMesh.cpp:475-482 | in the copying pass, the guard and the head the writer put at lines 556-563 pass the guard check and read back as the mesh's frame counts, parent, bounds and center, and the radius through an integer; the reader is then at the next entries with the guard counters stepped |
| MeshStages.VertexBack | libdts/DTSMesh.cpp:484-499 | for a mesh without a parent after version 21, the counted vertices and texture vertices, the normals and the one-byte codes the writer put at lines 566-588 read back as those arrays, with their bytes copied into the shape block |
| PrimitiveRuns.PrimitivesRead | libdts/DTSMesh.cpp:523-528 | primitives whose start and element count fit 16 bits and whose material index fits 32 bits are rebuilt from their 16-bit halves and 32-bit words as written at lines 594-599 |
| PrimitiveRuns.IndicesRead | libdts/DTSMesh.cpp:531-532 | an index that fits a signed 16-bit value comes back from the 16-bit entry written at line 607 as itself |
| PrimitiveRuns.PrimitivesBack | libdts/DTSMesh.cpp:514-536 | the primitive count, halves and material words and the index count and entries the writer put at lines 591-608 read back as the primitives and indices, and the reader is at the entries after them |
| TailRuns.TailBack | libdts/DTSMesh.cpp:542-551 | the merge-index count 0, the vertices per frame, the flag word and the closing guard written at lines 611-617 read back as the vertices per frame and the flag word modulo 2^32, the guard passes, and the alignment uses at most 3 bytes of room |
| RoundTrip.WordWrap | libdts/DTSMesh.cpp:547 | a 32-bit word written as a signed entry (line 615) and read back as `uint32_t` is itself |
| RoundTrip.MeshLayout | libdts/DTSMesh.cpp:554-618 | for a mesh that fits, the entries `TSMesh::Disassemble` appends are the guard, the head, the counted vertex arrays, the primitives, the indices, the tail and the guard, with the counts and arrays as they are in the mesh |
| RoundTrip.MeshReadBack | libdts/DTSMesh.cpp:473-618 | in the copying pass, `TSMesh::Assemble` over what `TSMesh::Disassemble` wrote for a mesh without a parent, with counts and values that fit their entries, succeeds and gives back the mesh, except that the radius goes through an integer, the encoded normals are the codes the writer chose and the type code is ORed into the flags; the reader is left at what follows, the guards stepped twice |
| SkinRuns.GuardStage | libdts/DTSMesh.cpp:690 | a guard written by `SetGuard` at each cursor passes `CheckGuard`, which steps the guard counters the same way |
| SkinRuns.SkinVerticesBack | libdts/DTSMesh.cpp:650-663 | after version 21 and without a parent, the vertex count, vertices, normals and codes written at lines 697-711 read back as those arrays |
| SkinRuns.SkinListsBack | libdts/DTSMesh.cpp:672-690 | the transforms, the vertex indices, bone indices and weights under one count, and the node indices written at lines 714-733 read back as those arrays, and the closing guard passes |
| SkinRoundTrip.SkinLayout | libdts/DTSMesh.cpp:693-734 | for a skin mesh that fits, the entries `TSSkinMesh::Disassemble` appends are the base mesh's, then the counts and arrays of the skin section, the codes again and a guard |
| SkinRoundTrip.SkinReadBack | libdts/DTSMesh.cpp:646-734 | in the copying pass, `TSSkinMesh::Assemble` over what `TSSkinMesh::Disassemble` wrote for a skin mesh without a parent that fits succeeds and gives back the mesh as `MeshReadBack` says, with its current vertices and normals as the initial ones (the writer copies `verts_` and `norms_` at lines 701-704) and the skin lists as they were |
| MeshFactory.ObjectWords | libdts/DTSMesh.cpp:392-451 | the four type codes 0 to 3 have an object size, the decal code the decal's; any other code has none |
| MeshFactory.AssembleMesh | libdts/DTSMesh.cpp:377-471 | the factory's result, the mesh it made and where it lives, and the allocator's new state are what `ReadAnyMesh` says: placement, the kind's reader in skip mode as asked, skip mode off; a sorted mesh's section is read as written (`SortedMesh.SortedAfterAsWritten`) |
| MeshFactory.Place | libdts/DTSMesh.cpp:384-458 | an object is placed exactly when the type code names one of the four classes; placing reads no input and sets skip mode as asked |
| MeshFactory.ReadAnyMesh | libdts/DTSMesh.cpp:377-471 | an unknown type code makes no object, lives nowhere and succeeds; any other is placed; skip mode is off afterwards |
| MeshFactory.PlaceObject | libdts/DTSMesh.cpp:384-452 | the probe and the reservation do what `Place` says |
| MeshFactory.AssembleKind | libdts/DTSMesh.cpp:454-460 | the virtual calls do what `ReadKind` says, the sorted section as written |
| MeshFactory.AssembleMeshKind | libdts/DTSMesh.cpp:646-648 | the base reader and then the kind's section do what `ReadMeshKind` says, the sorted section as written |
| MeshFactory.AssembleSection | libdts/DTSMesh.cpp:646-691 | after the base mesh, only the skin and sorted kinds read a section of their own, the sorted one as written |
| MeshFactory.DecalKind | libdts/DTSMesh.cpp:459-460 | the decal code makes a decal object read by the decal's reader |
| MeshFactory.MeshKind | libdts/DTSMesh.cpp:456-457 | the three mesh codes make a mesh object read by the base reader and the kind's section, the sorted one as written |
| MeshFactory.KindMade | libdts/DTSMesh.cpp:392-460 | a decal exactly for the decal code, a mesh exactly for the three mesh codes, and for any other code nothing made and nothing read |
| MeshFactory.Placement | libdts/DTSMesh.cpp:384-454 | with the block there and no skip the object sits at the current shape address, otherwise it is a temporary whose room is reserved all the same; an unknown code reserves nothing; the kind's reader starts in skip mode as asked |
| MeshFactory.SkipModeOff | libdts/DTSMesh.cpp:462 | skip mode is off after the factory, whatever it made |
| MeshFactory.SkippedDecal | libdts/DTSMesh.cpp:408-414 | a skipped decal reserves only its object's room, copies nothing into the block and leaves the input as it was |
| MeshFit.StripTriangle | libdts/DTSMeshFit.cpp:124-136 | the triangle a strip step forms has three corners |
| MeshFit.Offset | libdts/DTSMeshFit.cpp:140-141 | adding the vertex count to every index keeps the list's length |
| MeshFit.Placed | libdts/DTSMeshFit.cpp:144-157 | one world-space vertex per vertex of the mesh |
| MeshFit.StripCount | libdts/DTSMeshFit.cpp:124-136 | a strip of k indices gives whole triangles, at most k - 2 of them |
| MeshFit.StripStep | libdts/DTSMeshFit.cpp:129-135 | one step appends the step's triangle, or nothing when it repeats an index |
| MeshFit.WindowSlides | libdts/DTSMeshFit.cpp:126-130 | the toggled pointer slides the window: the slot it names takes idx2, idx2 takes the next index, and the window then holds the step's triangle in strip winding |
| MeshFit.StripNotDegenerate | libdts/DTSMeshFit.cpp:131-132 | no emitted triangle repeats an index |
| MeshFit.StripFromWindow | libdts/DTSMeshFit.cpp:124-136 | every emitted index is one of the strip's k indices |
| MeshFit.StripDistinctCount | libdts/DTSMeshFit.cpp:124-136 | with pairwise distinct indices nothing is dropped: exactly k - 2 triangles |
| MeshFit.OffsetTwice | libdts/DTSMeshFit.cpp:140-141 | two offsets are one offset by the sum, modulo 2^32 |
| MeshFit.OffsetUndone | libdts/DTSMeshFit.cpp:140-141 | the offset wraps modulo 2^32 and can be undone |
| MeshFit.GatheredSnoc | libdts/DTSMeshFit.cpp:110-159 | adding a source appends its placed vertices and its triangles offset by the vertices gathered before |
| MeshFit.OffsetNamesPlaced | libdts/DTSMeshFit.cpp:138-157 | each new index names the new copy of the vertex it named in the mesh |
| MeshFit.GatheredInRange | libdts/DTSMeshFit.cpp:110-159 | when each source indexes its own vertices and the total stays below 2^32, every gathered index names a gathered vertex |
| MeshFit.BoundsSources | libdts/DTSMeshFit.cpp:66-72 | the "bounds" sources read only meshes that fit |
| MeshFit.BoundsSourcesNext | libdts/DTSMeshFit.cpp:68-71 | one more object adds its mesh of detail od exactly when od is below its mesh count and the slot holds a mesh |
| MeshFit.FirstMesh | libdts/DTSMeshFit.cpp:81-89 | the first mesh found fits |
| MeshFit.ObjectSources | libdts/DTSMeshFit.cpp:76-89 | the object's sources fit |
| MeshFit.FirstMeshIsFirst | libdts/DTSMeshFit.cpp:81-89 | the mesh found is in the range with every slot before it empty; none is found exactly when the whole range is empty |
| MeshFit.FirstMeshStays | libdts/DTSMeshFit.cpp:86-87 | after the `break`, later slots do not change which mesh was found |
| MeshFit.Sources | libdts/DTSMeshFit.cpp:55-89 | the sources gathered for a target fit |
| MeshFit.DopPlanes | libdts/DTSMeshFit.cpp:322-374 | the planes each k-DOP fit hands over, in insertion order |
| MeshFit.FamiliesDistinct | libdts/DTSMeshFit.cpp:8-47 | each plane table lists distinct planes |
| MeshFit.FamiliesApart | libdts/DTSMeshFit.cpp:8-47 | each table holds planes of its own family only |
| MeshFit.FacesPaired | libdts/DTSMeshFit.cpp:8-15 | every face plane is listed with its opposite |
| MeshFit.XEdgesPaired | libdts/DTSMeshFit.cpp:17-22 | every X-edge plane is listed with its opposite |
| MeshFit.YEdgesPaired | libdts/DTSMeshFit.cpp:24-29 | every Y-edge plane is listed with its opposite |
| MeshFit.ZEdgesPaired | libdts/DTSMeshFit.cpp:31-36 | every Z-edge plane is listed with its opposite |
| MeshFit.CornersPaired | libdts/DTSMeshFit.cpp:38-47 | corner i faces the other way from corner 7 - i |
| MeshFit.Join | libdts/DTSMeshFit.cpp:352-374 | appending a family not yet present keeps the planes distinct and paired |
| MeshFit.PlaneCounts | libdts/DTSMeshFit.cpp:322-374 | each fit uses k distinct planes in opposite pairs: k/2 slabs |
| MeshFit.PlaneFamilies | libdts/DTSMeshFit.cpp:352-374 | the 18-DOP is the three 10-DOPs together, and the 26-DOP adds the corners |
| MeshFit.Rewound | libdts/DTSMeshFit.cpp:169-174 | three indices per triangle |
| MeshFit.RewoundTwice | libdts/DTSMeshFit.cpp:169-174 | reversing the winding twice gives the triangles back |
| MeshFit.RewoundTriangle | libdts/DTSMeshFit.cpp:171-173 | each triangle keeps its first corner and swaps the other two |
| MeshFit.TriangleListMaterialFields | libdts/DTSMeshFit.cpp:215-219 | the fitted primitive is an indexed triangle list without material, material 0 |
| MeshFit.SetNoFlags | libdts/DTSMesh.h:54 | `SetFlags(0)` leaves the mesh type as it was |
| MeshFit.TriMeshIndices | libdts/DTSMeshFit.cpp:161-226 | gathering a mesh `CreateTriMesh` made takes back exactly its rewound triangles |
| MeshFit.MeshFit.constructor | libdts/DTSMeshFit.h:86-87 | the fitter holds the shape, nothing gathered, not ready |
| MeshFit.MeshFit.SetReady | libdts/DTSMeshFit.h:89 | the fitter is ready and nothing else changes |
| MeshFit.MeshFit.AddSourceMesh | libdts/DTSMeshFit.cpp:110-159 | the mesh's triangles, offset by the vertex count so far, and then its vertices in world space are appended |
| MeshFit.MeshFit.AddPrimitives | libdts/DTSMeshFit.cpp:114-137 | each primitive's triangles are appended in turn |
| MeshFit.MeshFit.AddPrimitive | libdts/DTSMeshFit.cpp:116-136 | a triangle list is merged verbatim, anything else walked as a strip |
| MeshFit.MeshFit.Merged | libdts/DTSMeshFit.cpp:119 | `Vector::Merge` appends count elements from the address |
| MeshFit.MeshFit.AddStrip | libdts/DTSMeshFit.cpp:121-136 | the strip walk's triangles are appended |
| MeshFit.MeshFit.StripWalk | libdts/DTSMeshFit.cpp:121-136 | the loop emits exactly the strip's non-degenerate triangles in strip winding |
| MeshFit.MeshFit.StripStepAt | libdts/DTSMeshFit.cpp:126-135 | one step slides the window and appends its triangle unless degenerate |
| MeshFit.MeshFit.OffsetFrom | libdts/DTSMeshFit.cpp:140-141 | the indices from the base on are offset, those before it kept |
| MeshFit.MeshFit.AddVertices | libdts/DTSMeshFit.cpp:143-158 | each vertex is carried into world space and pushed |
| MeshFit.MeshFit.InitSourceGeometry | libdts/DTSMeshFit.cpp:49-95 | corrected: a named target is found by `FindObjectAt`; the lists are cleared and the target's sources gathered; the fitter is ready exactly when both lists are non-empty, and an early return keeps the old flag |
| MeshFit.MeshFit.AddSource | libdts/DTSMeshFit.cpp:70-71 | one more source is gathered |
| MeshFit.MeshFit.GatherBounds | libdts/DTSMeshFit.cpp:66-72 | the loop gathers the "bounds" sources of the objects from start to end |
| MeshFit.MeshFit.BoundsStep | libdts/DTSMeshFit.cpp:68-71 | one turn of the loop keeps the gathered lists equal to those of the sources so far |
| MeshFit.MeshFit.GatherFirst | libdts/DTSMeshFit.cpp:81-89 | the object's first mesh is gathered and the loop stops there |
| MeshFit.MeshFit.CreateTriMesh | libdts/DTSMeshFit.cpp:161-226 | one frame, the rewound triangles in one indexed triangle-list primitive without material, the given vertices (none for a null pointer), zero UVs, no encoded normals |
| MeshFit.RewoundIndices | libdts/DTSMeshFit.cpp:168-174 | the loop pushes (i0, i2, i1) per triangle |
| Sequences.NoMembers | libdts/DTSIntegerSet.cpp:13-16 | an empty set has its 64 words |
| Sequences.Blank | libdts/DTSShapeOldRead.cpp:8-77 | a value-initialised sequence has every field in range and 64-word sets |
| Sequences.TakeSetWords | libdts/DTSIntegerSet.cpp:96-111 | reading a set gives its 64 words and a valid stream |
| Sequences.TakeOldFlags | libdts/DTSShapeOldRead.cpp:21-33 | the three bools of an old file are read into one shared variable that starts false |
| Sequences.OldFlagsCutOff | libdts/DTSShapeOldRead.cpp:21-33 | a stream cut off after a first bool of true yields all three flags set, and the stream has failed |
| Sequences.OldFlagsSum | libdts/DTSShapeOldRead.cpp:23-32 | the three flags are distinct bits, so OR-ing them in adds them up |
| Sequences.TakeHead | libdts/DTSShapeOldRead.cpp:10-33 | the head reads leave a valid stream |
| Sequences.TakeBaseOffsets | libdts/DTSShapeOldRead.cpp:38-52 | the base offset reads leave a valid stream |
| Sequences.TakeBases | libdts/DTSShapeOldRead.cpp:35-56 | the base reads leave a valid stream |
| Sequences.TakeNodeSets | libdts/DTSShapeOldRead.cpp:59-66 | the node set reads leave a valid stream |
| Sequences.TakeObjectSets | libdts/DTSShapeOldRead.cpp:72-74 | the object set reads leave a valid stream |
| Sequences.TakeSets | libdts/DTSShapeOldRead.cpp:59-74 | the set reads leave a valid stream |
| Sequences.TakeSequence | libdts/DTSShapeOldRead.cpp:8-77 | a whole sequence read leaves a valid stream |
| Sequences.PutBaseOffsets | libdts/DTSShapeOldRead.cpp:89-93 | five 4-byte offsets are written |
| Sequences.IntNext | libdts/DTSStream.h:26-33 | an int written is the next int read |
| Sequences.SetNext | libdts/DTSIntegerSet.cpp:96-125 | a set written is read back as its 64 words |
| Sequences.HeadWritten | libdts/DTSShapeOldRead.cpp:10-19 | from version 22 on the head written is read back, the name index only when it was written |
| Sequences.HeadTailWritten | libdts/DTSShapeOldRead.cpp:13-19 | the flags, the keyframe count and the duration are read back |
| Sequences.BasesWritten | libdts/DTSShapeOldRead.cpp:35-56 | from version 22 on the bases written are read back |
| Sequences.OffsetsWritten | libdts/DTSShapeOldRead.cpp:38-45 | from version 22 on the five base offsets are read back |
| Sequences.NodeSetsWritten | libdts/DTSShapeOldRead.cpp:59-66 | from version 22 on the node sets are read back |
| Sequences.ObjectSetsWritten | libdts/DTSShapeOldRead.cpp:72-74 | the object sets are read back |
| Sequences.SetsWritten | libdts/DTSShapeOldRead.cpp:59-74 | from version 22 on the sets are read back and the deprecated two dropped |
| Sequences.LoadWritten | libdts/DTSShapeOldRead.cpp:8-112 | reading what `WriteToStream` wrote, from version 22 on, gives back every field and set, the name index kept when neither written nor read |
| Sequences.BodyWritten | libdts/DTSShapeOldRead.cpp:35-74 | after the head, the bases and the sets are read back |
| Sequences.OldLayout | libdts/DTSShapeOldRead.cpp:46-61 | before version 22 the translation base and set are the rotation ones, and the scale base and set keep their old values |
| Sequences.OldFlags | libdts/DTSShapeOldRead.cpp:12-33 | before version 22 the flags are exactly those of the three bools |
| Sequences.LoadSet | libdts/DTSIntegerSet.cpp:96-111 | loading a set object does what `TakeSetWords` says |
| Sequences.LoadWord | libdts/DTSStream.h:26-33 | one word read |
| Sequences.LoadFloat | libdts/DTSStream.h:26-33 | one float read as its word |
| Sequences.LoadInt | libdts/DTSStream.h:26-33 | one signed int read |
| Sequences.LoadOldFlags | libdts/DTSShapeOldRead.cpp:23-32 | the three bool reads, sharing one variable that starts false, do what `TakeOldFlags` says |
| Sequences.LoadHead | libdts/DTSShapeOldRead.cpp:10-33 | the reads do what `TakeHead` says |
| Sequences.LoadBaseOffsets | libdts/DTSShapeOldRead.cpp:38-52 | the reads do what `TakeBaseOffsets` says |
| Sequences.LoadBases | libdts/DTSShapeOldRead.cpp:35-56 | the reads do what `TakeBases` says |
| Sequences.LoadNodeSets | libdts/DTSShapeOldRead.cpp:59-66 | the reads do what `TakeNodeSets` says |
| Sequences.LoadObjectSets | libdts/DTSShapeOldRead.cpp:72-74 | the reads do what `TakeObjectSets` says |
| Sequences.LoadSets | libdts/DTSShapeOldRead.cpp:59-74 | the reads do what `TakeSets` says |
| Sequences.LoadFromStream | libdts/DTSShapeOldRead.cpp:8-77 | the sequence read is `TakeSequence` of the stream, and the result is always true |
| Sequences.WriteSet | libdts/DTSIntegerSet.cpp:113-125 | a set's bytes are appended to a good stream |
| Sequences.WriteHead | libdts/DTSShapeOldRead.cpp:81-85 | the head's bytes are appended to a good stream |
| Sequences.WriteBaseOffsets | libdts/DTSShapeOldRead.cpp:89-93 | the five offsets are appended to a good stream |
| Sequences.WriteBases | libdts/DTSShapeOldRead.cpp:86-96 | the bases are appended to a good stream |
| Sequences.WriteNodeSets | libdts/DTSShapeOldRead.cpp:99-101 | the three node sets are appended to a good stream |
| Sequences.WriteObjectSets | libdts/DTSShapeOldRead.cpp:107-109 | the three object sets are appended to a good stream |
| Sequences.WriteSets | libdts/DTSShapeOldRead.cpp:99-109 | the six sets with two empty ones in the deprecated places are appended |
| Sequences.WriteToStream | libdts/DTSShapeOldRead.cpp:79-112 | the newest layout is appended to a good stream, and the result is always true |
| Sequences.PutSequence | libdts/DTSShapeOldRead.cpp:79-112 | always the newest layout: after the optional name index comes the flags word, never the three old bools |
| Shape.TSShape.constructor | libdts/DTSShape.cpp:21-25 | an empty shape: no material list, read version -1, no shape block of size 0 |
| Shape.TSShape.FindName | libdts/DTSShape.cpp:56-65 | the first index holding the name, or -1 exactly when none does |
| Shape.TSShape.FindNode | libdts/DTSShape.cpp:67-73 | the first node with the name index, or -1 exactly when none has it |
| Shape.TSShape.FindNodeNamed | libdts/DTSShape.h:139 | the first node carrying the name's index, where an unknown name looks up -1 |
| Shape.TSShape.FindObject | libdts/DTSShape.cpp:75-81 | the first object with the name index, or -1 exactly when none has it |
| Shape.TSShape.FindObjectNamed | libdts/DTSShape.h:142 | the first object carrying the name's index, where an unknown name looks up -1 |
| Shape.TSShape.NameIndexIs | libdts/DTSShape.cpp:56-65 | `FindName`'s answer is `FirstName` of the names |
| Shape.TSShape.GetSubShapeForNode | libdts/DTSShape.cpp:83-93 | the first subshape whose node range holds the index, or -1 exactly when none does |
| Shape.TSShape.GetSubShapeForObject | libdts/DTSShape.cpp:95-105 | the first subshape whose object range holds the index, or -1 exactly when none does |
| Shape.TSShape.GetSubShapeDetails | libdts/DTSShape.cpp:107-116 | exactly the details of the subshape or of every subshape, each once, ascending |
| Shape.TSShape.UpdateSmallestVisibleDL | libdts/DTSShapeEdit.cpp:23-39 | the smallest visible detail and its size become `SmallestVisible` of all the details, and nothing else changes |
| Shape.FirstName | libdts/DTSShape.cpp:56-65 | the answer is -1 or an index of the names |
| Shape.FirstNameIs | libdts/DTSShape.cpp:56-65 | `FirstName` is the first index holding the name, and -1 exactly when none does |
| Shape.FirstSubShape | libdts/DTSShape.cpp:83-105 | the first k whose range holds the index, or -1 exactly when none does |
| ShapeConstruct.TypeOf | libdts/DTSShapeConstruct.h:12-22 | the enumerators are the codes 0 to 7 and no other code names a type |
| ShapeConstruct.TypeCodes | libdts/DTSShapeConstruct.cpp:109-119 | each code names a different type; codes 3 to 7 are the k-DOP fits with 10, 10, 10, 18 and 26 planes |
| ShapeConstruct.Prefix | libdts/DTSShapeConstruct.cpp:153-159 | every prefix starts with "Col" and has at least six characters |
| ShapeConstruct.Suffix | libdts/DTSShapeConstruct.cpp:161-162 | the suffix is empty exactly for mesh 0 |
| ShapeConstruct.SuffixDecodes | libdts/DTSShapeConstruct.cpp:161-162 | the suffix is capital letters, reads back in base 26 as the index, and never ends in 'A' |
| ShapeConstruct.SuffixInjective | libdts/DTSShapeConstruct.cpp:161-162 | different indices get different suffixes |
| ShapeConstruct.ObjectNameInjective | libdts/DTSShapeConstruct.cpp:153-162 | two fitted meshes share an object name only when they are of the same kind and index |
| ShapeConstruct.ObjectNameEnd | libdts/DTSShapeConstruct.cpp:153-162 | an object name ends in a letter |
| ShapeConstruct.MeshNameSplits | libdts/DTSShapeConstruct.cpp:163-165 | the mesh name `AddMesh` receives splits back into the object name and the size |
| ShapeConstruct.ColNodeSplits | libdts/DTSShapeConstruct.cpp:130 | the collision node name splits back into "Col" and the size |
| ShapeConstruct.SplitsBack | libdts/DTSShapeConstruct.cpp:163 | a name ending in a letter followed by `std::to_string` of a number splits back into the two |
| ShapeConstruct.SplitsBackUnsigned | libdts/DTSShapeConstruct.cpp:163 | the same for a number that is not negative |
| ShapeConstruct.SplitsBackSigned | libdts/DTSShapeConstruct.cpp:163 | the same for a negative number |
| ShapeConstruct.SplitsNegated | libdts/DTSShapeConstruct.cpp:163 | a name, '-' and the digits of -size split back into the name and size |
| ShapeConstruct.ColNodeIsNoMesh | libdts/DTSShapeConstruct.cpp:130-163 | no mesh name is the collision node's name |
| ShapeConstruct.AppendSuffix | libdts/DTSShapeConstruct.cpp:161-162 | the loop appends exactly `Suffix(i)` |
| ShapeConstruct.MeshesAttached | libdts/DTSShapeConstruct.cpp:145-179 | each fitted mesh is added under its name and its object attached, to the collision node or to its own node added under it |
| ShapeConstruct.AttachedCarried | libdts/DTSShapeConstruct.cpp:145-179 | each mesh before the last of the first k is attached by their edits: it stays attached when the last mesh's edits follow |
| ShapeConstruct.LastAttached | libdts/DTSShapeConstruct.cpp:147-178 | the last mesh added is attached |
| ShapeConstruct.MeshEditsAttach | libdts/DTSShapeConstruct.cpp:165-178 | the edits for one mesh add it and attach its object |
| ShapeConstruct.MeshEditsAttachOnce | libdts/DTSShapeConstruct.cpp:168-177 | the one attachment in a mesh's edits is its own object's |
| ShapeConstruct.AttachmentsFromMeshes | libdts/DTSShapeConstruct.cpp:145-179 | every attachment is of one of the fitted meshes' objects to that mesh's node |
| ShapeConstruct.AttachmentWidened | libdts/DTSShapeConstruct.cpp:145-179 | an attachment among the first k - 1 meshes is one among the first k |
| ShapeConstruct.LastAttachment | libdts/DTSShapeConstruct.cpp:147-178 | an attachment first made by mesh k - 1 is that mesh's |
| ShapeConstruct.AddMeshes | libdts/DTSShapeConstruct.cpp:145-179 | the loop makes the edits of every fitted mesh, in order |
| ShapeConstruct.AddCollisionDetail | libdts/DTSShapeConstruct.cpp:100-182 | corrected: with the target's geometry gathered and the collision node found by `ShapeEdit.FindNodeAt`: success exactly when it is there and the type known, no edit on failure, otherwise the collision node's edits then every mesh's |
| ShapeConstruct.AddCollisionDetailAsWritten | libdts/DTSShapeConstruct.cpp:100-182 | as written: the geometry always gathered from "bounds" and the collision node found by the name search as written (`WrittenNodeLookup`, which takes an unnamed node for a missing name); success, failure and edits otherwise as in `AddCollisionDetail` |
| ShapeConstruct.CollisionEdits | libdts/DTSShapeConstruct.cpp:130-179 | the collision node is added when the lookup answered -1 and reset when its transform is not the identity, then every fitted mesh's edits follow |
| ShapeConstruct.TargetIgnored | libdts/DTSShapeConstruct.cpp:103 | a shape whose object "hull" has geometry but whose highest detail has no subshape: fitting to "hull" finds geometry, the call as written finds none |
| ShapeEdit.FirstNameFacts | libdts/DTSShape.cpp:56-65 | the first-name search answers an index holding the name with none before it, or -1 when no index holds it |
| ShapeEdit.InternedName | libdts/DTSShapeEdit.cpp:8-21 | a non-empty name gets an index holding it, the first such; the old names stay a prefix, and the list grows by the name exactly when it was unknown |
| ShapeEdit.InternedAgain | libdts/DTSShapeEdit.cpp:8-21 | adding the same name again changes nothing and gives the same index |
| ShapeEdit.AddName | libdts/DTSShapeEdit.cpp:8-21 | the names and the answer are what `Interned` says: -1 for an empty name, the known index, or the new last index |
| ShapeEdit.RenumberedAfter | libdts/DTSShapeEdit.cpp:76-81 | renumbering keeps the number of details |
| ShapeEdit.FindDetailSlot | libdts/DTSShapeEdit.cpp:46-55 | the search stops at the first identical detail or, failing that, before the first smaller one; every detail before the stop is neither |
| ShapeEdit.RenumberDetails | libdts/DTSShapeEdit.cpp:76-81 | the loop renumbers the later details of the subshape (of every subshape for -1) |
| ShapeEdit.AddDetail | libdts/DTSShapeEdit.cpp:41-87 | the label is interned; an identical detail is returned with the details and the smallest visible detail unchanged; otherwise the new detail goes in before the first smaller one, later details are renumbered and the smallest visible detail recomputed |
| ShapeEdit.IntSizeFinite | libdts/DTSShapeEdit.cpp:68 | a 32-bit integer converted to float is a number |
| ShapeEdit.AddDetailKeepsOrder | libdts/DTSShapeEdit.cpp:57-81 | inserting where `AddDetail` does keeps a list sorted from the largest size to the smallest sorted |
| ShapeEdit.FirstTrue | libdts/DTSShape.cpp:67-81 | the answer is -1 or a position of the list |
| ShapeEdit.FirstTrueFacts | libdts/DTSShape.cpp:67-81 | the first-match search answers the first true position, or -1 when none is true |
| ShapeEdit.FirstTrueIs | libdts/DTSShape.cpp:67-81 | any answer with the first-match property is that search's answer |
| ShapeEdit.NodesNamed | libdts/DTSShape.cpp:67-73 | one entry per node |
| ShapeEdit.ObjectsNamed | libdts/DTSShape.cpp:75-81 | one entry per object |
| ShapeEdit.Holders | libdts/DTSShape.cpp:83-105 | one entry per subshape |
| ShapeEdit.FindNodeAt | libdts/DTSShape.h:139 | corrected: the node search refuses a missing name, answering `NodeLookup` |
| ShapeEdit.FindObjectAt | libdts/DTSShape.h:142 | corrected: the object search refuses a missing name, answering `ObjectLookup` |
| ShapeEdit.FindNodeNamedIsWritten | libdts/DTSShape.h:139 | the search as written answers `WrittenNodeLookup` |
| ShapeEdit.WrittenNodeLookup | libdts/DTSShape.h:139 | as written: the answer is -1 or a node whose name index is the one the name search gives, which is -1 for a missing name |
| ShapeEdit.NodeLookup | libdts/DTSShape.h:139 | corrected: the answer is -1 or a node carrying the index of a name that exists |
| ShapeEdit.ObjectLookup | libdts/DTSShape.h:142 | corrected: the answer is -1 or an object carrying the index of a name that exists |
| ShapeEdit.UnnamedNodeFound | libdts/DTSShape.h:139 | with one unnamed node and no names, the search as written finds that node for any name; the intended lookup answers -1 |
| ShapeEdit.SubShapeForNode | libdts/DTSShape.cpp:83-93 | the subshape search answers `SubShapeOf` |
| ShapeEdit.NodeLookupFacts | libdts/DTSShape.h:139 | the lookup answers the first node carrying the name's index, only for a name in the table; -1 means no node carries it |
| ShapeEdit.BumpAfter | libdts/DTSShapeEdit.cpp:136-137 | one first entry per subshape |
| ShapeEdit.GrowSubShape | libdts/DTSShapeEdit.cpp:135-137 | the subshape's count goes up by one and the later subshapes start one later |
| ShapeEdit.SlotLands | libdts/DTSShapeEdit.cpp:130-137 | inserting at the end of the subshape's range puts the new entry in that range and keeps every old entry, moved up past the slot, in its own subshape |
| ShapeEdit.WrittenSlotMisplaces | libdts/DTSShapeEdit.cpp:132 | with subshapes of five and two entries the source inserts the second's new entry at 2, inside the first's range and outside its own, where the end of its range is 7 |
| ShapeEdit.PlanNode | libdts/DTSShapeEdit.cpp:105-132 | corrected: with the name and the parent found by `NodeLookup` and the slot `Slot` = first + count, a planned node goes at the end of its subshape's range, with a parent that is -1 or a node, and below the 2048-node limit |
| ShapeEdit.InsertBit | libdts/DTSIntegerSet.cpp:34-60 | the set's members are the old ones with a clear bit inserted at the index |
| ShapeEdit.InsertNodeBits | libdts/DTSShapeEdit.cpp:140-147 | every sequence gets a clear bit inserted in its three node sets |
| ShapeEdit.BumpParents | libdts/DTSShapeEdit.cpp:165-169 | the node count is kept |
| ShapeEdit.BumpObjectNodes | libdts/DTSShapeEdit.cpp:170-174 | the object count is kept |
| ShapeEdit.BumpAll | libdts/DTSShapeEdit.cpp:180-184 | the list's length is kept |
| ShapeEdit.BumpSkins | libdts/DTSShapeEdit.cpp:175-186 | the mesh count is kept |
| ShapeEdit.BumpParentLoop | libdts/DTSShapeEdit.cpp:165-169 | parents at or past the slot move up by one |
| ShapeEdit.BumpObjectLoop | libdts/DTSShapeEdit.cpp:170-174 | object nodes at or past the slot move up by one |
| ShapeEdit.BumpIndexLoop | libdts/DTSShapeEdit.cpp:180-184 | a skin's node indices at or past the slot move up by one |
| ShapeEdit.BumpSkinLoop | libdts/DTSShapeEdit.cpp:175-186 | only skin meshes have their node indices moved |
| ShapeEdit.StoreNodeTables | libdts/DTSShapeEdit.cpp:135-186 | the shape holds the new node tables |
| ShapeEdit.InsertNode | libdts/DTSShapeEdit.cpp:135-186 | the changes of a planned insertion are those `NodeAdded` describes |
| ShapeEdit.AddNode | libdts/DTSShapeEdit.cpp:105-189 | corrected: with the lookups and the slot of `PlanNode`, success exactly when the plan places the node; then the tables change as `NodeAdded` says, otherwise not at all |
| ShapeEdit.NodeAddedKeepsReferences | libdts/DTSShapeEdit.cpp:149-174 | every old node sits one place up past the slot and still names the same parent; the new node sits at the slot under its parent with its interned name; transforms and object nodes move with the nodes |
| ShapeEdit.NodeAddedBits | libdts/DTSShapeEdit.cpp:140-147 | in every sequence an old node's bits move with it and the new node's bits are clear |
| ShapeEdit.NodeAddedKeepsFit | libdts/DTSShapeEdit.cpp:130-186 | the tables stay fit and ordered: the new node lies in its subshape and every old node stays in its own |
| ShapeEdit.BumpBaseStates | libdts/DTSShapeEdit.cpp:217-218 | the sequence count is kept |
| ShapeEdit.BumpBaseLoop | libdts/DTSShapeEdit.cpp:217-218 | every sequence's object states start one later |
| ShapeEdit.StoreObjectTables | libdts/DTSShapeEdit.cpp:193-218 | the shape holds the new object tables |
| ShapeEdit.AddObject | libdts/DTSShapeEdit.cpp:191-221 | corrected: the object goes at `Slot`, the end of the subshape's range, which is returned, and the tables change as `ObjectAdded` says |
| ShapeEdit.ObjectAddedKeepsFit | libdts/DTSShapeEdit.cpp:191-221 | the tables stay fit and ordered; the new object has an empty mesh range where the previous one ends; old objects and states move with the insertion; every sequence's object states start one later |
| ShapeEdit.Nulls | libdts/DTSShapeEdit.cpp:233 | n null meshes |
| ShapeEdit.Padded | libdts/DTSShapeEdit.cpp:231-235 | the padding adds pad meshes |
| ShapeEdit.MeshesAdded | libdts/DTSShapeEdit.cpp:228-240 | the padding and the new mesh are added to the table |
| ShapeEdit.ObjectsAfterMesh | libdts/DTSShapeEdit.cpp:240-251 | the object count is kept |
| ShapeEdit.PadStep | libdts/DTSShapeEdit.cpp:233 | one more null goes at the end of the padding |
| ShapeEdit.PadLoop | libdts/DTSShapeEdit.cpp:231-235 | the loop pads up to the position asked for, or not at all |
| ShapeEdit.ShiftObjectsLoop | libdts/DTSShapeEdit.cpp:247-251 | every other object starting at or after the start moves up by the meshes added |
| ShapeEdit.AddMeshToObject | libdts/DTSShapeEdit.cpp:223-252 | the mesh table and the object table become what `MeshesAdded` and `ObjectsAfterMesh` say |
| ShapeEdit.ShiftedAfterMesh | libdts/DTSShapeEdit.cpp:240-251 | the fix-up loop on the updated table gives `ObjectsAfterMesh` |
| ShapeEdit.InsertHead | libdts/DTSVector.h:28-34 | a slice before the insertion point is untouched |
| ShapeEdit.InsertTail | libdts/DTSVector.h:28-34 | a slice from the insertion point on moves up by one |
| ShapeEdit.PaddedHead | libdts/DTSShapeEdit.cpp:231-235 | what is before the padding stays and the padding is nulls |
| ShapeEdit.PaddedTail | libdts/DTSShapeEdit.cpp:231-235 | a slice after the padding moves up by the padding |
| ShapeEdit.MeshAddedOwnRange | libdts/DTSShapeEdit.cpp:228-244 | the object's range grows by the meshes added, the mesh sits at its position and the meshes before it stay |
| ShapeEdit.MeshAddedOwnShift | libdts/DTSShapeEdit.cpp:228-240 | the object's meshes from the position on move up by one, and nulls fill the gap for a real mesh asked for past the range |
| ShapeEdit.MeshAddedBefore | libdts/DTSShapeEdit.cpp:246-251 | an object whose range ends before the object's start keeps its range and meshes |
| ShapeEdit.MeshAddedAfter | libdts/DTSShapeEdit.cpp:246-251 | an object whose range begins after the object's range moves up with its meshes by the meshes added |
| ShapeEdit.NullPastRangeDisplaces | libdts/DTSShapeEdit.cpp:229-239 | a null mesh asked for past the range is not padded and pushes the next object's first mesh out of that object's range |
| ShapeEdit.ObjectNodeSet | libdts/DTSShapeEdit.cpp:255-279 | a successful attachment keeps the object count |
| ShapeEdit.SetObjectNode | libdts/DTSShapeEdit.cpp:255-279 | corrected: with the object and the node found by `FindObjectAt` and `FindNodeAt`, success and the object table are what `ObjectNodeSet` says; on failure nothing changes |
| ShapeEdit.ObjectNodeSetFacts | libdts/DTSShapeEdit.cpp:255-279 | corrected: with those lookups, failure exactly when the object or a named node is missing; otherwise the first object with the name, and no other, takes the first node with the other name, or -1 for an empty name |
| ShapeFile.Words16 | libdts/DTSShape.cpp:700-702 | the 16-bit size in words is the element count halved, rounded up to a whole word |
| ShapeFile.Words8 | libdts/DTSShape.cpp:703-705 | the 8-bit size in words is the element count quartered, rounded up to a whole word |
| ShapeFile.Region | libdts/DTSShape.cpp:722-724 | a buffer written up to its last whole word takes four bytes per word |
| ShapeFile.Image | libdts/DTSShape.cpp:722-724 | the three buffers in the file take four bytes per word of the total size |
| ShapeFile.PackedHeader | libdts/DTSShape.cpp:714-716 | the three sizes in front of the buffers take twelve bytes |
| ShapeFile.WordNext | libdts/DTSShape.cpp:714-716 | a 32-bit size written in front of the rest reads back as written, leaving the rest |
| ShapeFile.PackedReadBack | libdts/DTSShape.cpp:491-500 | the loader reads back the three sizes and the image the writer wrote and stops just after them |
| ShapeFile.LoadInside | libdts/DTSShapeAlloc.h:38-47 | an element encoded between other bytes loads back from where its bytes start |
| ShapeFile.RegionLoad | libdts/DTSShape.cpp:722-724 | the same inside a written region, padding included |
| ShapeFile.ImageLoad | libdts/DTSShape.cpp:496-500 | element j of the buffer of each width is where the loader's cursor for that width finds it, and loads back as written |
| ShapeFile.ImageLoad32 | libdts/DTSShape.cpp:498 | the 32-bit part starts the image |
| ShapeFile.ImageLoad16 | libdts/DTSShape.cpp:499 | the 16-bit part starts at start16 words |
| ShapeFile.ImageLoad8 | libdts/DTSShape.cpp:500 | the 8-bit part starts at start8 words |
| ShapeFile.PaddingInside | libdts/DTSShapeAlloc.h:118-152 | the padding the writer sends past the end of the 16-bit or 8-bit buffer lies inside its page-sized allocation |
| ShapeFile.ConcatSnoc | libdts/DTSShape.cpp:727-729 | one more part written adds its bytes at the end |
| ShapeFile.Puts | libdts/DTSShape.cpp:728-729 | each sequence is written with its name index |
| ShapeFile.SequencesReadBack | libdts/DTSShape.cpp:506-513 | the loader reads back the sequences as written, whatever the shape held before, and stops after them |
| ShapeFile.BodyReadBack | libdts/DTSShape.cpp:491-517 | the loader reads back the packed buffer, the sequences and the material list's names and attributes, and stops at the end of them |
| ShapeFile.ZeroBytesSplit | libdts/DTSShape.cpp:727 | the bytes of a zero count split anywhere |
| ShapeFile.SequenceCountMisread | libdts/DTSShape.cpp:727 | with the count written as an eight-byte size, a shape without sequences is not read back: its material list is lost |
| ShapeFile.Wrote | libdts/DTSStream.h:86-110 | a write on a good stream appends its bytes; on a bad one nothing |
| ShapeFile.FileParts | libdts/DTSShape.cpp:682-738 | the parts of the file in writing order make the file |
| ShapeFile.WritePacked | libdts/DTSShape.cpp:696-724 | the sizes, then the three buffers each to its last whole word, appended when the stream is good |
| ShapeFile.WriteSizes | libdts/DTSShape.cpp:696-716 | the sizes computed are the buffer lengths in words, and they are written in order |
| ShapeFile.WordCounts | libdts/DTSShape.cpp:696-705 | the element counts converted to words, rounded up |
| ShapeFile.HeaderWritten | libdts/DTSShape.cpp:714-716 | the three sizes written in turn are the header |
| ShapeFile.WriteRegion | libdts/DTSShape.cpp:722-724 | one buffer written up to its last whole word |
| ShapeFile.ImageWritten | libdts/DTSShape.cpp:722-724 | the three buffers written in turn are the image |
| ShapeFile.WriteSequences | libdts/DTSShape.cpp:727-729 | corrected: the count in four bytes, then each sequence with its name index |
| ShapeFile.WriteEachSequence | libdts/DTSShape.cpp:728-729 | the sequence loop writes every sequence in order |
| ShapeFile.WriteNth | libdts/DTSShape.cpp:728-729 | one turn of the loop appends sequence i after those before it |
| ShapeFile.ConcatPrefixSnoc | libdts/DTSShape.cpp:728-729 | one more sequence adds its bytes at the end |
| ShapeFile.WriteBody | libdts/DTSShape.cpp:696-732 | corrected: everything after the version word: sizes, buffers, the sequence count in four bytes, sequences, material list |
| ShapeFile.BodyWritten | libdts/DTSShape.cpp:696-732 | the three parts of the body written in turn are the body |
| ShapeFile.FreshFilled | libdts/DTSShape.cpp:689-690 | disassembling into the buffers `SetWrite` clears fills them from the shape's parts |
| ShapeFile.FilledFromCleared | libdts/DTSShape.cpp:689-690 | and only those buffers |
| ShapeFile.WriteToStream | libdts/DTSShape.cpp:682-738 | corrected: the file is the version word then the body, with the four-byte sequence count; the result is whether the stream is good; the allocator holds the disassembled buffers |
| ShapeFile.DisassembleFresh | libdts/DTSShape.cpp:689-690 | `SetWrite` then `DisassembleShape` leave the buffers of the shape |
| ShapeLoad.VersionOf | libdts/DTSShape.cpp:469-471 | the version is the low byte of the version word |
| ShapeLoad.ExporterOf | libdts/DTSShape.cpp:469-470 | the exporter version is the version word shifted right by 16 bits and stored as an unsigned 32-bit value |
| ShapeLoad.NegativeExporterWraps | libdts/DTSShape.cpp:468-480 | a word packed with exporter -1 is accepted and its exporter version reads as 2^32 - 1 |
| ShapeLoad.VersionWordSplits | libdts/DTSShape.cpp:469-471 | a version word splits back into the version byte and the exporter version it was made from, taken modulo 2^32 (the writer's packing at line 687 is undone by the reader's) |
| ShapeLoad.WrittenVersionAccepted | libdts/DTSShape.cpp:472-481 | the word the writer puts first reads back as the current version and exporter, and is accepted |
| ShapeLoad.TakePacked | libdts/DTSShape.cpp:491-500 | the three size words are read, then four bytes per word of the buffer; the stream stays valid |
| ShapeLoad.TakeSequences | libdts/DTSShape.cpp:506-513 | n sequences are read, one per index, and the stream stays valid |
| ShapeLoad.StoreFrames | libdts/DTSShape.cpp:254-296 | the scale and ground frames change only when the version stores them |
| ShapeLoad.StoreFront | libdts/DTSShape.cpp:184-253 | the shape holds the walk's bounds, node and object tables, subshape ranges, default transforms and node frames |
| ShapeLoad.StoreLists | libdts/DTSShape.cpp:298-339 | the shape also holds the object states, triggers, details, meshes and names, and the smallest visible detail recomputed from the details |
| ShapeLoad.StoreShape | libdts/DTSShape.cpp:143-451 | the shape holds everything the walk assembled |
| ShapeLoad.Store | libdts/DTSShape.cpp:143-451 | the shape and the allocator hold the walk's result |
| ShapeLoad.WalkOf | libdts/DTSShape.cpp:143-451 | the walk is the shape read for every version and allocator state, from the static scratch tables an earlier load left |
| ShapeLoad.AssembleShape | libdts/DTSShape.cpp:143-451 | one walk over the allocator's buffers, its result stored in the shape and the allocator; sorted meshes are read as written |
| ShapeLoad.AsUnsigned32 | libdts/DTSShape.cpp:525 | `shape_data_size_` keeps the size as an unsigned 32-bit value, congruent to it |
| ShapeLoad.SizingPass | libdts/DTSShape.cpp:523-525 | the sizing walk starts at the packed regions with no block; its byte count is kept |
| ShapeLoad.CopyingPass | libdts/DTSShape.cpp:526-529 | the copying walk runs into a block of the counted size from the packed regions; the shape keeps the block |
| ShapeLoad.AssembleTwice | libdts/DTSShape.cpp:523-529 | a sizing walk then a copying walk; the shape keeps the second walk's tables and block; sequences and material list untouched |
| ShapeLoad.LoadWalksAgree | libdts/DTSShape.cpp:530 | the copying walk's size equals the sizing walk's count (what the source asserts) and the block is filled exactly |
| ShapeLoad.LoadVersion | libdts/DTSShape.cpp:467-482 | the exporter version is always kept; the read version changes exactly when the version is accepted |
| ShapeLoad.LoadPacked | libdts/DTSShape.cpp:491-500 | the packed buffer is what `TakePacked` reads |
| ShapeLoad.LoadSequences | libdts/DTSShape.cpp:506-513 | the count then that many sequences over the old ones; a negative count fails the load |
| ShapeLoad.ReadSequenceList | libdts/DTSShape.cpp:510-513 | the loop reads the n sequences in order |
| ShapeLoad.ReadNextSequence | libdts/DTSShape.cpp:512 | one pass reads sequence i and what is left shrinks by it |
| ShapeLoad.SequencesStep | libdts/DTSShape.cpp:510-513 | reading sequences i onwards is reading sequence i then the rest |
| ShapeLoad.LoadMaterials | libdts/DTSShape.cpp:515-517 | a fresh material list holding the names and attributes read |
| ShapeLoad.LoadParts | libdts/DTSShape.cpp:491-517 | the packed buffer, the sequences and the material list, as `PartsRead` states |
| ShapeLoad.LoadCounted | libdts/DTSShape.cpp:523-534 | the two walks; the result is whether the stream is good |
| ShapeLoad.LoadBody | libdts/DTSShape.cpp:484-534 | everything after an accepted version word, as `Loaded` states |
| ShapeLoad.LoadFromStream | libdts/DTSShape.cpp:464-535 | a version outside 19 to 24 fails with only the exporter version kept; otherwise the parts and the two walks are loaded and the result is whether the stream is good; the walk is a parameter, and `LoadWalksAgree` states that the two passes agree for the shape walk `WalkOf(p)` |
| ShapeRead.ReadAnimationCounts | libdts/DTSShape.cpp:152-169 | five animation counts; before version 22 one count less the node count is both the rotation and translation count and the scale counts are 0 |
| ShapeRead.ReadTableCounts | libdts/DTSShape.cpp:170-182 | eight table counts; ground frames only after version 23, skins only before it |
| ShapeRead.GetEach | libdts/DTSShape.cpp:254-260 | n runs are read out, one per element |
| ShapeRead.PointsRead | libdts/DTSShape.cpp:256-257 | one point per run read |
| ShapeRead.QuatsRead | libdts/DTSShape.cpp:259-260 | one quaternion per run read |
| ShapeRead.FloatsRead | libdts/DTSShape.cpp:269-270 | one float per run read |
| ShapeRead.ReadScales | libdts/DTSShape.cpp:265-283 | versions up to 21 read no scales and leave the cursor where it was |
| ShapeRead.ReadGround | libdts/DTSShape.cpp:285-296 | versions up to 23 read no ground frames and leave the cursor where it was |
| ShapeRead.SanitisedAll | libdts/DTSShape.cpp:324-331 | every detail, and only it, is repaired in place |
| ShapeRead.Resized | libdts/DTSShape.cpp:341-351 | `resize(n)` of a scratch table keeps its first n entries and value-initialises the new ones |
| ShapeRead.Cleared | libdts/DTSShape.cpp:352-364 | the reset loop nulls the entries below `num_meshes` and keeps the others |
| ShapeRead.ResetScratch | libdts/DTSShape.cpp:341-364 | every scratch table has `max(num_skins, num_meshes)` entries; those below `num_meshes` are null (not copied), the others keep what the static table held, null past its old end |
| ShapeRead.StaleEntriesKept | libdts/DTSShape.cpp:341-364 | an entry from `num_meshes` up to `scratch_size` keeps the pointer and copied flag an earlier load left there |
| ShapeRead.PtrTo | libdts/DTSVector.h:12-19 | `Vector::Address` is null exactly for an empty vector |
| ShapeRead.BytesPtr | libdts/DTSVector.h:12-19 | the same for a byte vector |
| ShapeRead.Put | libdts/DTSShape.cpp:384-398 | storing one scratch entry keeps the table's length |
| ShapeRead.Recorded | libdts/DTSShape.cpp:381-400 | a mesh's data is marked copied exactly when it was not skipped |
| ShapeRead.ReadMeshList | libdts/DTSShape.cpp:368-401 | one mesh per index from i to n - 1 |
| ShapeRead.ReadMeshes | libdts/DTSShape.cpp:340-404 | room for the pointer table, then the mesh list read with the scratch tables reset from the static ones, then a guard |
| ShapeRead.MeshesAfterList | libdts/DTSShape.cpp:402-404 | the mesh section ends where the mesh list does, after one guard |
| ShapeRead.RecordedKeepsTail | libdts/DTSShape.cpp:384-398 | recording mesh i writes no scratch entry from i + 1 on and keeps every table's length |
| ShapeRead.OneMeshKeepsTail | libdts/DTSShape.cpp:368-398 | reading mesh i writes no scratch entry from i + 1 on |
| ShapeRead.MeshListKeepsTail | libdts/DTSShape.cpp:366-399 | the mesh loop leaves the tables' lengths and their entries from `num_meshes` on as they were |
| ShapeRead.ResetAgain | libdts/DTSShape.cpp:341-364 | tables that differ from the reset ones only below `num_meshes` reset to the same tables |
| ShapeRead.SameResetSameMeshes | libdts/DTSShape.cpp:341-404 | the mesh section sees the static tables only through their reset |
| ShapeRead.StaticsCarryOver | libdts/DTSShape.cpp:341-404 | the copying walk, starting from the tables the sizing walk left, reads the meshes exactly as from the tables the sizing walk started from |
| ShapeRead.StringLength | libdts/DTSShape.cpp:413-414 | the length found is that of a run of non-zero bytes ended by a zero |
| ShapeRead.NamesAt | libdts/DTSShape.cpp:407-419 | n names are read back to back |
| ShapeRead.ReadSkins | libdts/DTSShape.cpp:426-450 | from version 23 on nothing is read and the meshes stay |
| ShapeRecords.WordOf | libdts/DTSShape.h:91-106 | the bits of a float or an unsigned field as a signed 32-bit word |
| ShapeRecords.BitsWord | libdts/DTSShape.h:91-106 | float bits and words convert both ways without loss |
| ShapeRecords.DivStep | libdts/DTSVector.h:48 | taking one record's words from a count takes one from the record count |
| ShapeRecords.Chunks | libdts/DTSVector.h:48 | runs of k words, as many as whole records fit |
| ShapeRecords.ChunksFlatten | libdts/DTSVector.h:48 | records laid back to back split back into themselves |
| ShapeRecords.FlattenChunks | libdts/DTSVector.h:48 | a whole number of records' words, split and laid back, is unchanged |
| ShapeRecords.ChunksFit | libdts/DTSVector.h:48 | every run has k words, each in the 32-bit range |
| ShapeRecords.NodeWords | libdts/DTSShape.h:29-38 | a node takes five words |
| ShapeRecords.ObjectWords | libdts/DTSShape.h:41-51 | an object takes six words |
| ShapeRecords.ObjectStateWords | libdts/DTSShape.h:89-94 | an object state takes three words |
| ShapeRecords.TriggerWords | libdts/DTSShape.h:96-107 | a trigger takes two words |
| ShapeRecords.DetailWords | libdts/DTSShape.h:110-119 | a detail takes seven words |
| ShapeRecords.Point3Words | libdts/DTSPoint3.h:39-41 | a point takes three words |
| ShapeRecords.Quat16Halves | libdts/DTSQuat.h:68 | a packed quaternion takes four 16-bit values |
| ShapeRecords.RecordRoundTrips | libdts/DTSShape.h:29-119 | every record reads back from its words |
| ShapeRecords.WordRoundTrips | libdts/DTSShape.h:29-119 | every run of in-range words is the words of the record it reads as |
| ShapeRecords.NodesOf | libdts/DTSShape.cpp:198-199 | as many nodes as whole records in the words |
| ShapeRecords.ObjectsOf | libdts/DTSShape.cpp:203-208 | as many objects as whole records in the words |
| ShapeRecords.ObjectStatesOf | libdts/DTSShape.cpp:299-300 | as many object states as whole records in the words |
| ShapeRecords.TriggersOf | libdts/DTSShape.cpp:311-313 | as many triggers as whole records in the words |
| ShapeRecords.DetailsOf | libdts/DTSShape.cpp:318-319 | as many details as whole records in the words |
| ShapeRecords.Points3Of | libdts/DTSShape.cpp:246-252 | as many points as whole records in the words |
| ShapeRecords.Quats16Of | libdts/DTSShape.cpp:241-244 | as many quaternions as whole records in the 16-bit values |
| ShapeRecords.RecordsReadBack | libdts/DTSShape.cpp:198-319 | records written as words read back as themselves |
| ShapeRecords.NodeWordsReadBack | libdts/DTSShape.cpp:198-199 | a whole number of nodes' words is written back as the same words |
| ShapeRecords.DetailWordsReadBack | libdts/DTSShape.cpp:318-319 | the same for details |
| ShapeRecords.SmallestVisible | libdts/DTSShapeEdit.cpp:23-39 | the detail chosen is -1 or one of the first n |
| ShapeRecords.FltMaxFinite | libdts/DTSShapeEdit.cpp:27 | `FLT_MAX` is a finite float |
| ShapeRecords.SmallestVisibleFound | libdts/DTSShapeEdit.cpp:23-39 | -1 with `FLT_MAX` exactly when no detail is visible; otherwise a visible detail and its size |
| ShapeRecords.SmallestVisibleLeast | libdts/DTSShapeEdit.cpp:29-38 | the detail chosen is the first visible one of least size |
| ShapeWrite.InObjectRangeStep | libdts/DTSShape.cpp:633-638 | a slot is in one of the first n + 1 objects' ranges exactly when it is in one of the first n or in object n's |
| ShapeWrite.MarkMeshes | libdts/DTSShape.cpp:630-638 | slot k is marked exactly when it lies in some object's mesh range, empty or not |
| ShapeWrite.MarkObject | libdts/DTSShape.cpp:635-637 | every slot of one object's range is marked and no other mark changes |
| ShapeWrite.SlotTypeBelow | libdts/DTSShape.cpp:645 | the code written for a slot is below 8 and never the decal code |
| ShapeWrite.SlotReadBack | libdts/DTSShape.cpp:645 | the loader never makes a decal from a slot; an unmarked or empty slot, or one holding a decal, reads back as no mesh and consumes nothing |
| ShapeWrite.RunAll | libdts/DTSShapeAlloc.h:172-178 | a run of exactly the entries there are is those entries |
| ShapeWrite.HeadWords | libdts/DTSShape.cpp:542-560 | the head holds 19 words |
| ShapeWrite.FloatWords | libdts/DTSShape.cpp:601 | one word per float |
| ShapeWrite.Marks | libdts/DTSShape.cpp:630-638 | one mark per mesh slot |
| ShapeWrite.Int8Of | libdts/DTSShape.cpp:654 | a name byte as a signed 8-bit value |
| ShapeWrite.NameEntries | libdts/DTSShape.cpp:654 | a name is written with its terminating zero |
| ShapeWrite.SetWord | libdts/DTSShape.cpp:542-560 | one more head word appended |
| ShapeWrite.HeadFits | libdts/DTSShape.cpp:542-560 | every head word fits a signed 32-bit integer |
| ShapeWrite.PutHead | libdts/DTSShape.cpp:541-562 | the counts, the truncated smallest visible size and detail, and a guard are appended |
| ShapeWrite.PutBounds | libdts/DTSShape.cpp:564-570 | the radius, tube radius, center and box, then a guard |
| ShapeWrite.PutTables | libdts/DTSShape.cpp:573-576 | the nodes, a guard, the objects, a guard |
| ShapeWrite.PutSubShapes | libdts/DTSShape.cpp:577-588 | no decals and no IFL materials, then the subshape ranges with zero decal entries, each part closed by a guard |
| ShapeWrite.PutTransforms | libdts/DTSShape.cpp:590-598 | the default and animated rotations and translations, then a guard |
| ShapeWrite.PutScales | libdts/DTSShape.cpp:600-606 | the three kinds of scale and the scale rotations, then a guard |
| ShapeWrite.PutGround | libdts/DTSShape.cpp:608-611 | the ground translations and rotations, then a guard |
| ShapeWrite.PutStates | libdts/DTSShape.cpp:613-627 | the object states, no decal states, the triggers and the details, each closed by a guard |
| ShapeWrite.PutMesh | libdts/DTSShape.cpp:646-647 | a mesh writes its own data |
| ShapeWrite.PutSlot | libdts/DTSShape.cpp:641-647 | one slot: its type code, then the mesh's data when there is one |
| ShapeWrite.PutMeshes | libdts/DTSShape.cpp:630-650 | the marks, every slot in order, then a guard |
| ShapeWrite.PutNames | libdts/DTSShape.cpp:652-656 | each name with its terminator in the 8-bit buffer, then a guard |
| ShapeWrite.DisassembleShape | libdts/DTSShape.cpp:537-657 | the buffers hold what `Disassembled` gives for the shape's parts, section after section |
| TwoPass.GetPaired | libdts/DTSShapeAlloc.h:37-41 | `Get` reads the same value in a sizing and a copying run that are in step, and keeps them in step |
| TwoPass.GetIntoPaired | libdts/DTSShapeAlloc.h:43-47 | `Get(dest, num)` reads the same values in both runs and keeps them in step |
| TwoPass.GetPointerPaired | libdts/DTSShapeAlloc.h:64-70 | `GetPointer` answers the same input pointer in both runs |
| TwoPass.CopyPaired | libdts/DTSShapeAlloc.h:49-62 | `CopyToShape` copies in the copying run only, and both runs reserve the same room |
| TwoPass.AllocPaired | libdts/DTSShapeAlloc.h:72-80 | `AllocShape` answers null while sizing and a block address while copying, reserving the same room |
| TwoPass.GuardPaired | libdts/DTSShapeAlloc.cpp:35-43 | a guard check gives the same verdict in both runs |
| TwoPass.AlignPaired | libdts/DTSShapeAlloc.cpp:29-33 | alignment keeps the runs in step |
| TwoPass.SkipModePaired | libdts/DTSShapeAlloc.h:109 | switching skip mode keeps the runs in step |
| TwoPass.SharedPaired | libdts/DTSMesh.h:77-99 | `GetSharedData` keeps the runs in step whatever the two runs' scratch tables hold |
| TwoPass.HeaderPaired | libdts/DTSMesh.cpp:475-482 | a mesh header reads the same in both runs |
| TwoPass.VertexDataPaired | libdts/DTSMesh.cpp:484-507 | the vertex data keeps the runs in step |
| TwoPass.PrimitivesPaired | libdts/DTSMesh.cpp:509-540 | the primitives keep the runs in step |
| TwoPass.TailPaired | libdts/DTSMesh.cpp:542-551 | a mesh tail reads the same in both runs |
| TwoPass.MeshPaired | libdts/DTSMesh.cpp:473-552 | a whole mesh keeps the runs in step and agrees on its parent and guards |
| TwoPass.SkinVerticesPaired | libdts/DTSMesh.cpp:650-670 | a skin's initial vertices keep the runs in step |
| TwoPass.SkinListsPaired | libdts/DTSMesh.cpp:672-690 | a skin's lists keep the runs in step |
| TwoPass.SkinAfterPaired | libdts/DTSMesh.cpp:650-690 | a skin's part after the base mesh keeps the runs in step |
| TwoPass.ClustersPaired | libdts/DTSSortedMesh.cpp:14-20 | a sorted mesh's clusters keep the runs in step |
| TwoPass.FramesPaired | libdts/DTSSortedMesh.cpp:22-36 | a sorted mesh's frames keep the runs in step |
| TwoPass.SortedAfterPaired | libdts/DTSSortedMesh.cpp:14-36 | a sorted mesh's part after the base mesh keeps the runs in step, read as written and read corrected |
| TwoPass.OldHeadPaired | libdts/DTSDecal.cpp:12-17 | an old decal's head keeps the runs in step |
| TwoPass.DecalPrimitivesPaired | libdts/DTSDecal.cpp:19-27 | a decal's primitives keep the runs in step |
| TwoPass.DecalIndicesPaired | libdts/DTSDecal.cpp:29-32 | a decal's indices keep the runs in step |
| TwoPass.OldTailPaired | libdts/DTSDecal.cpp:34-39 | an old decal's tail keeps the runs in step |
| TwoPass.DecalFramesPaired | libdts/DTSDecal.cpp:41-52 | a decal's frames keep the runs in step |
| TwoPass.DecalPaired | libdts/DTSDecal.cpp:10-72 | a whole decal keeps the runs in step |
| TwoPass.PlacePaired | libdts/DTSMesh.cpp:384-452 | the mesh object's room is reserved alike in both runs |
| TwoPass.SectionTag | libdts/DTSMesh.cpp:646-648 | only a skin's section is a skin's |
| TwoPass.SectionPaired | libdts/DTSMesh.cpp:646-691 | the kind's section after the base mesh keeps the runs in step |
| TwoPass.MeshKindPaired | libdts/DTSMesh.cpp:454-460 | a mesh kind's reader keeps the runs in step |
| TwoPass.DecalKindPaired | libdts/DTSMesh.cpp:454-460 | the decal kind's reader keeps the runs in step |
| TwoPass.MadePaired | libdts/DTSMesh.cpp:454-460 | paired mesh reads make paired mesh objects |
| TwoPass.MeshObjectPaired | libdts/DTSMesh.cpp:454-460 | a made mesh object keeps the runs in step |
| TwoPass.KindPaired | libdts/DTSMesh.cpp:454-460 | the kind's reader keeps the runs in step and makes the same kind of object in both |
| TwoPass.AnyMeshPaired | libdts/DTSMesh.cpp:377-471 | the factory keeps the runs in step, agrees on the guards, and makes the same kind of object in both |
| TwoPass.AnimationCountsPaired | libdts/DTSShape.cpp:152-169 | both runs read the same animation counts |
| TwoPass.TableCountsPaired | libdts/DTSShape.cpp:170-182 | both runs read the same table counts |
| TwoPass.HeadPaired | libdts/DTSShape.cpp:147-187 | both runs read the same head |
| TwoPass.BoundsPaired | libdts/DTSShape.cpp:189-195 | both runs read the same bounds |
| TwoPass.TablesPaired | libdts/DTSShape.cpp:197-210 | the sizing run reserves the old skins' room by the allocation the copying run only skips: the same room either way |
| TwoPass.SubShapesPaired | libdts/DTSShape.cpp:212-238 | the subshape section keeps the runs in step |
| TwoPass.FrontPaired | libdts/DTSShape.cpp:147-238 | the front sections keep the runs in step and read the same head |
| TwoPass.CopyEachPaired | libdts/DTSShape.cpp:242-243 | a run of `CopyToShape` calls keeps the runs in step |
| TwoPass.CopyPointsPaired | libdts/DTSShape.cpp:247-251 | the point copies keep the runs in step |
| TwoPass.GetEachPaired | libdts/DTSShape.cpp:254-260 | both runs read the same elements |
| TwoPass.DefaultsPaired | libdts/DTSShape.cpp:240-263 | the default and animated transforms read the same in both runs |
| TwoPass.ScalesPaired | libdts/DTSShape.cpp:265-283 | the scales read the same in both runs |
| TwoPass.GroundPaired | libdts/DTSShape.cpp:285-296 | the ground frames read the same in both runs |
| TwoPass.StatesPaired | libdts/DTSShape.cpp:298-315 | the states and triggers read the same in both runs |
| TwoPass.DetailsPaired | libdts/DTSShape.cpp:317-338 | the details keep the runs in step |
| TwoPass.MiddlePaired | libdts/DTSShape.cpp:240-338 | the middle sections keep the runs in step |
| TwoPass.OneMeshPaired | libdts/DTSShape.cpp:368-401 | one mesh keeps the runs in step, and both record the same copied flag |
| TwoPass.MeshListPaired | libdts/DTSShape.cpp:368-401 | the mesh list keeps the runs in step |
| TwoPass.MeshSectionPaired | libdts/DTSShape.cpp:340-404 | the pointer table is null while sizing, but both runs read every mesh and stay in step |
| TwoPass.GuardedListsPaired | libdts/DTSShape.cpp:404 | a guard after paired mesh lists keeps the runs paired |
| TwoPass.NamesPaired | libdts/DTSShape.cpp:406-424 | both runs read the same names |
| TwoPass.SkinListPaired | libdts/DTSShape.cpp:436-447 | the sizing run has no meshes to append the old skins to, but both runs read every skin |
| TwoPass.SkinsPaired | libdts/DTSShape.cpp:426-450 | the old skins section keeps the runs in step |
| TwoPass.BackPaired | libdts/DTSShape.cpp:340-450 | the back sections keep the runs in step |
| TwoPass.ShapePaired | libdts/DTSShape.cpp:143-451 | the whole walk keeps the runs in step |
| TwoPass.LoadPassesAgree | libdts/DTSShape.cpp:523-530 | the sizing and copying walks end with the same counters, in particular the same size_ (the assertion at line 530) |
| TwoPass.CopyingWalkPaired | libdts/DTSShape.cpp:526-529 | whatever state the sizing walk ended in, the copying walk ends paired with a sizing walk over the same buffer |
| TwoPass.PairedEnds | libdts/DTSShapeAlloc.cpp:23-27 | paired walks, the copying one into the block of the size the sizing one counted |
| TwoPass.StartPaired | libdts/DTSShape.cpp:526-527 | `DoAlloc` and a `SetRead` without clearing start the copying walk paired with a fresh sizing walk |

## Left out

- Floating-point geometry is not modelled: matrices, quaternions (and `Quat16` quantisation), point arithmetic, `TSMesh::ComputeBounds`, `TSShape::GetNodeWorldTransform`, the world-transform helpers of `DTSShapeConstruct.cpp` (lines 20-98) and the normal averaging of `CreateTriMesh`. The codec only moves float bits, so floats are 32-bit words. The node world transform is a function parameter.
- Collision fitting (`PrimFit`, the box, sphere, capsule, k-DOP and convex-hull fits and their external library) is floating-point code outside the library. The meshes a fit produces, and whether each has an identity transform, come in as parameters. The integer index handling around them is modelled.
- `TSShape::AddMesh`, `CopyMesh` and `SetNodeTransform` are not part of this model. `ShapeConstruct.AddCollisionDetail` returns the edits it would make as a list of `Edit` values.
- File plumbing is not modelled: `LoadFromFile`, `WriteToFile`, `InitMeshFromFile` and the `std::istream`/`std::ostream` objects. Streams are byte strings with a good flag.
- Stream.OStream: errors of the output medium are not modelled. A write on a good stream always succeeds; a failed stream stays failed.
- Memory ownership is not modelled: `new`/`delete`, placement new, the destructor's check of which meshes lie in the shape block (`DTSShape.cpp` lines 33-54), and the page reallocation of `OMemBuffer::Extend` beyond its sizes. Pointers are `Ptr` values: null, an offset into the input image or the shape block, or the contents of a vector.
- The byte swap of `FixEndian` (`DTSShape.cpp` lines 659-669) is not modelled. The packed buffer is loaded and written on a little-endian host, where it does nothing. The stream layer keeps the host byte order as a parameter and proves that its integer reads and writes do not depend on it. Floats are the exception: the source swaps them with the numeric `EndianSwap(float)` (Findings), so on a big-endian host its float results differ; the stream reads and writes floats with the corrected byte swap.
- Record sizes that depend on the compiler (`sizeof(TSMesh)`, `sizeof(TSSkinMesh)`, a mesh pointer's size in words) are parameters of the walks.
- Bytes read past the end of an input read as zero, and a stream that runs out of bytes fails. The source reads whatever lies in memory there. On a short read the model yields zeros for all the bytes asked for, and so drops the bytes that were present before the end, which `istream::read` (`DTSStream.h` line 55) has already stored in the buffer.
- Stream.IStream.ReadFloat: reads the four bytes as a little-endian word on either host, the corrected half of the float swap. `DTSStream.h` lines 26-33 convert a float with the numeric `EndianSwap(float)` of `DTSEndian.h` lines 52-55, which on a big-endian host gives a different value (`Endian.SwapFloatAsWrittenIsNotAByteSwap`).
- Stream.OStream.WriteFloat: appends the float's bit pattern in little-endian order on either host, the corrected half of the float swap. `DTSStream.h` lines 85-90 convert it with the numeric `EndianSwap(float)` first, which on a big-endian host writes other bytes.
- ShapeRead.ReadSkins: appends the skins of a file older than version 23 to the shape's meshes, as intended. As written, `DTSShape.cpp` line 444 calls `Vector::Set(meshes_, Vector::Address(meshes_), size + 1)`: the `resize` in `Set` (`DTSVector.h` lines 48-57) may reallocate the vector and free `addr` before the `memcpy` reads from it. Reading freed memory is not modelled.
- IntegerSet.TSIntegerSet.LoadFromStream: a stored word count above 64 fails with an empty set. The source only asserts the bound and would write past its 64 words.
- ShapeLoad.LoadSequences: a negative sequence count fails the load with nothing more read. The source's `std::vector::resize` throws.
- Mesh.VectorAt: a negative count read from the file gives an empty vector (`Mesh.Count` maps it to 0). In the source `Vector::Set` (`DTSVector.h` lines 48-57) turns the count into a huge `size_t` and `resize` throws. The same holds for the shape tables read with `Vector::Set` in `ShapeRead.ReadTables`, `ShapeRead.ReadSubShapes`, `ShapeRead.ReadDefaults`, `ShapeRead.ReadStates`, `ShapeRead.ReadDetails` and `ShapeRead.ReadMeshes`, and for the tables the source sizes with `resize`: node translations and rotations in `ShapeRead.ReadDefaults` (`DTSShape.cpp` lines 255 and 258), the scales of `ShapeRead.ReadScales` (lines 268-277), the ground frames of `ShapeRead.ReadGround` (lines 287-290), the triggers of `ShapeRead.ReadStates` (line 312), the names of `ShapeRead.ReadNames` (line 410) and the scratch tables of `ShapeRead.ResetScratch` (lines 341-351). The model reads on with zero entries where the source throws.
- ShapeAlloc.CopyToShape: a negative `num` copies nothing and moves the input cursor, `size_` and `dest_` back by the element count it names. In the source's copying pass the `memcpy` of `DTSShapeAlloc.h` lines 53-54 receives `mult_ * num * sizeof(T)` as a huge `size_t` and runs past both buffers, which the model does not capture; the sizing pass moves the cursors as the model does.
- Normals.EncodeNormal takes the dot products as given real numbers. Rounding of the single-precision products, which can change which row wins, is not modelled.
- The decal writer (`TSDecalMesh::Disassemble`) is modelled as written. No loader reads what it writes, because `DisassembleShape` writes the null type code for decal slots. `Decal.DecalWriterLayout` and `Decal.DecalWriterGuardsOnly` state how its layout differs from the reader's. There is no round trip for it.
- ShapeEdit.MeshAddedAfter: requires a real mesh, or a mesh index inside the object's current range. For a null mesh past the range, the source does not pad with nulls, so the next object's first mesh is displaced; `ShapeEdit.NullPastRangeDisplaces` exhibits that case.
- MaterialLists.PutNameList: writes the material count in the four bytes the loader reads. As written, `MaterialList::WriteToStream` (`DTSMaterialList.cpp` line 52) writes `material_names_.size()`, a `size_t`. That is eight bytes on a 64-bit host: the same defect as the sequence count under Findings, and not exhibited separately.
- Guard checks: the source asserts that the guards match. The model returns the result of each check as an `ok` flag and does not stop on a mismatch.
- ShapeEdit.PlanNode: plans the corrected insertion: the slot is the end of the subshape's range (`first + num`) and the name and parent are found by `FindNodeAt`. As written (`DTSShapeEdit.cpp` lines 114, 123, 132) the slot is the subshape's node count and the search takes an unnamed node for a missing name; both halves are under Findings.
- ShapeEdit.AddNode: carries the corrected slot and lookups of `PlanNode`; the insertion as written is `ShapeEdit.WrittenSlotMisplaces` and the lookup as written `ShapeEdit.UnnamedNodeFound`.
- ShapeEdit.AddObject: inserts at the end of the subshape's range, where `DTSShapeEdit.cpp` line 193 inserts at the subshape's object count (`ShapeEdit.WrittenSlotMisplaces`).
- ShapeEdit.SetObjectNode: finds the object and node with the corrected `FindObjectAt` and `FindNodeAt`. `DTSShapeEdit.cpp` lines 258 and 269 search as written, so a missing name can match an unnamed entry.
- ShapeEdit.ObjectNodeSetFacts: its failure condition (the object or a named node is missing) holds for the corrected lookups of `SetObjectNode`, not for the name search as written.
- MeshFit.MeshFit.InitSourceGeometry: a named target is found by the corrected `FindObjectAt`, where `DTSMeshFit.cpp` line 78 calls `FindObject(target)` as written. Both `ShapeConstruct.AddCollisionDetail` and `ShapeConstruct.AddCollisionDetailAsWritten` gather their geometry through it.
- ShapeFile.WriteSequences: writes the sequence count in four bytes, the corrected width. `DTSShape.cpp` line 727 writes a `size_t`; `ShapeFile.SequenceCountMisread` under Findings shows what that does.
- ShapeFile.WriteBody: carries the four-byte sequence count of `WriteSequences`.
- ShapeFile.WriteToStream: the file it writes has the four-byte sequence count of `WriteSequences`.
- ShapeConstruct.AddCollisionDetail: gathers the target's geometry and finds the collision node with `FindNodeAt`; `AddCollisionDetailAsWritten` is the half as written.
- SortedMesh.AssembleSortedAfter: the corrected reading of the sorted section, which stores the start clusters into `start_cluster_`. The load path reads the section as written, through `SortedMesh.SortedAfterAsWritten`.
- ShapeWrite.DisassembleShape: requires every object's mesh range to lie inside the mesh table (`RangesInside`). For a range that runs past the table the source writes `is_mesh` out of bounds (`DTSShape.cpp` line 637); that case is not modelled. No lemma relates the packed shape it writes to `ShapeRead.ReadShape`. The whole-shape round trip is not proved; only the meshes (`RoundTrip.MeshReadBack`, `SkinRoundTrip.SkinReadBack`, `SortedMesh.SortedWritten`), single records (`ShapeRecords.RecordsReadBack`) and the file framing (`ShapeFile.BodyReadBack`) have one.
- RoundTrip.MeshReadBack: proved only for the copying pass, for a mesh without a parent, written after version 21. A mesh that shares its parent's vertices (`parent >= 0`), an older version and the skipping pass have no round trip. The mesh's counts, primitive fields and indices must fit the entries they are written in.
- SkinRoundTrip.SkinReadBack: the same conditions as `MeshReadBack`; in addition the bone indices and weights must have as many entries as the vertex indices, and the initial vertices as many as the current ones, since the writer stores one count for each of those groups.
- Integer widths: the allocator's `size_` and `mult_` (`DTSShapeAlloc.h` lines 19-20 and 182, updated at lines 60 and 78) and the numbers `Strings.Atoi` parses (`DTSString.h` lines 37-39) are unbounded integers. Overflow of the source's `int32_t` is not modelled, so a file whose counts push the sizing walk past 2^31 loads in the model where the source overflows.
- The trivial value records of `DTSPoint2.h`, `DTSPoint4.h` and `DTSBox.h` have nothing to model.

## Findings

| source | as written | input that shows it | evidently intended | confidence | as-written member | corrected member |
|---|---|---|---|---|---|---|
| libdts/DTSSortedMesh.cpp:18-20 | the start-cluster array read after the clusters is stored into `clusters_`, and `start_cluster_` stays empty | a sorted mesh with one cluster and no start clusters, written by `Disassemble` and read back: its cluster is lost | store the second array into `start_cluster_`, where the writer takes it from | not executed | SortedMesh.WrittenClusterLost | SortedMesh.SortedWritten |
| libdts/DTSShapeEdit.cpp:131-132, 193 | `AddNode` and `AddObject` insert at `sub_shape_num_nodes_[sub]` (or `_objects_`), the subshape's count | two subshapes of five and two entries: the second subshape's new entry lands at index 2, inside the first subshape's range | insert at `first[sub] + num[sub]`, the end of the subshape's range | not executed | ShapeEdit.WrittenSlotMisplaces | ShapeEdit.SlotLands |
| libdts/DTSShape.h:139, 142 | `FindNode(name)` and `FindObject(name)` search for name index `FindName(name)`, which is -1 for a missing name | a shape with one unnamed node (name index -1) and no names: a search for "Bip01" answers node 0 | answer -1 when the name is missing | not executed | ShapeEdit.UnnamedNodeFound | ShapeEdit.FindNodeAt |
| libdts/DTSShape.cpp:727 | the sequence count is written as `sequences_.size()`, a `size_t`, while the loader reads a 32-bit count | on a 64-bit host, a shape with no sequences and at least one material: the loader takes the count's high half as the start of the material list, so its names are lost | write the count as a 32-bit integer | not executed | ShapeFile.SequenceCountMisread | ShapeFile.BodyReadBack |
| libdts/DTSShapeConstruct.cpp:100-103 | `AddCollisionDetail` ignores its target argument and always gathers the source geometry from "bounds" | a shape whose only object is "hull" with one triangle and whose highest detail has no subshape (`sub_shape_num` -1): a detail fitted to "hull" finds no geometry and fails | gather the geometry from the target | not executed | ShapeConstruct.TargetIgnored | ShapeConstruct.AddCollisionDetail |
| libdts/DTSEndian.h:52-55 | the float swap converts the float's value to an integer, swaps that, and converts back | on a big-endian host the float 16777216.0 becomes 1.0 | swap the four bytes of the float's bit pattern | not executed | Endian.SwapFloatAsWrittenIsNotAByteSwap | Endian.SwapFloatInvolution |
