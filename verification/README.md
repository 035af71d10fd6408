# Struct layout under Swift and C rules, verified

The repository compares how one pair of nested structs is laid out in memory
under two ABIs on a 64-bit little-endian target:

- `SwiftInner { b: UInt64; c: UInt8 }` and `SwiftOuter { a: UInt32; inner: SwiftInner; d: UInt16 }`
  use Swift's fragile struct layout.
- `c_inner` and `c_outer`, with the same fields, use C's layout (section 6.7.2.1 of C11, paragraphs 15 and 17).

Both programs are straight-line lists of assertions:

- `Repr.swift` checks `MemoryLayout` alignment, size and stride for the four types.
- It then checks selected byte ranges of one instance of each type, read with `withUnsafeBytes(of:)`.
- `repr.c` checks `sizeof`/`alignof` and the same byte ranges through a `uint8_t` pointer.

This project models that core as pure Dafny functions and proves the assertions hold.

- `Layout` is one layout calculator with a policy parameter.
  - Both policies share one placement rule: each field goes at the cursor rounded up to its alignment, and the cursor advances by the field's size.
  - The policies differ only in a struct's size. Under `SwiftFragile` it is the end of the last field, so a later sibling may reuse an embedded struct's tail padding. Under `CStandard` it is rounded up to the alignment, so `sizeof` equals stride.
  - Stride is size rounded up to alignment under both.
  - Fields are found by index path (`Locate`) or by name (`Resolve`).
- `Encoding` is the little-endian encoding of an n-byte unsigned integer, and its decoder.
- `Memory` is the byte view of an instance: each scalar's encoding at its computed offset.
  - The view is partial: `None` at padding.
  - `Represents(mem, v, s, p)` says a raw image `mem` is exactly `size` bytes long and agrees with the view wherever it is defined. Padding may hold anything.
- `Checks` models `assertEqual`, `assertElementsEqual`, `ASSERT_EQUAL` and `ASSERT_BYTES_EQUAL` as results (`Pass` or `Fail` with a report).
  - A program is its list of checks, and it stops at the first failure (`Run`).
  - C's `main` returns 1 at the first failure and 0 otherwise.
- `ReprH` holds the two declarations of `repr.h` and their C layouts.
- `Samples` holds the instances both programs build, the expected byte arrays, and where those bytes land under either policy.
- `ReprC` models `main` of `repr.c`.
- `ReprSwift` models the top-level code of `Repr.swift`.

The raw bytes of each instance are parameters of the program models. The main theorems (`ReprC.MainSucceeds`, `ReprSwift.ProgramSucceeds`) hold for every image the layout admits, whatever the padding holds. `ReprC.MainPassesExactly` and `ReprSwift.ProgramPassesExactly` characterise exactly which bytes the programs inspect.

Two facts fix the sizes the byte checks work with:

- The raw view of an instance is `MemoryLayout<T>.size` bytes long. `withUnsafeBytes(of:)` covers the value's size, and Repr.swift:21 compares the whole 9-byte view of `swiftInner` with a 9-element array.
- `sizeof(c_outer)` is 32, because `sizeof` includes tail padding (repr.c:39, Repr.swift:93).

## Model

| member | source | states |
|---|---|---|
| Encoding.LE | repr.c:33 | The little-endian encoding of x in n bytes is n bytes long. |
| Encoding.FromLE | Repr.swift:17-18 | Decoding n bytes gives a value below 256^n, so it fits an n-byte field. |
| Encoding.LEByte | repr.c:33 | Byte i of the n-byte encoding of x is (x / 256^i) mod 256, so the least significant byte comes first. |
| Encoding.FromLEOfLE | repr.c:33 | Decoding the n-byte little-endian encoding of any x below 256^n gives back x. |
| Encoding.LEOfFromLE | Repr.swift:17-20 | Encoding the decoded value of any byte string in as many bytes gives back the same bytes. |
| Encoding.LEInjective | repr.c:44 | Two values that fit in n bytes have the same little-endian bytes only if they are equal. |
| Layout.ScalarAlign | repr.h:7-10 | Every scalar is aligned to exactly its own width (uint64_t to 8, uint8_t to 1), which is a target alignment. |
| Layout.Align | Repr.swift:11 | `MemoryLayout.alignment` / `alignof`: every type's alignment is 1, 2, 4 or 8. |
| Layout.Size | Repr.swift:80-88 | `MemoryLayout.size` / `sizeof`: a scalar's width; for a struct, the end of its last field, rounded up to the alignment only under C layout. |
| Layout.End | repr.h:12-16 | The placement cursor after the first n fields: where field n - 1's region ends. |
| Layout.Stride | Repr.swift:13 | `MemoryLayout.stride` is a multiple of the alignment, at least the size, and less than one alignment past it. |
| Layout.Misalignment | Repr.swift:80-86 | n mod a is below a, and it is 0 exactly when n is already a multiple of a. |
| Layout.AlignUp | Repr.swift:80-86 | The cursor rounded up to an alignment is a multiple of it, at least the cursor, and less than one alignment past it. |
| Layout.AlignUpIsLeast | repr.h:13-14 | No multiple of the alignment at or above the cursor lies below the rounded-up cursor (inner goes to 8, not 16). |
| Layout.AlignUpMonotone | repr.h:12-16 | Rounding up preserves order. |
| Layout.MaxAlign | Repr.swift:11 | A struct's alignment is a target alignment and at least every field's alignment. |
| Layout.MaxAlignAttained | repr.h:8 | A struct's alignment is 1 or the alignment of one of its fields (8 comes from b). |
| Layout.Offset | repr.h:12-16 | Every field's offset is a multiple of the field's own alignment. |
| Layout.OffsetIsRoundedCursor | Repr.swift:80-88 | A field starts at the least position at or after the cursor that is aligned for it: at the cursor or less than one alignment past it, with no aligned position in between. |
| Layout.FieldIndexFromFindsFirst | repr.c:42 | A name lookup returns the first field with that name, and None only when no field has it. |
| Layout.ResolvedPathLocates | Repr.swift:37 | A chain of field names that resolves gives a path that exists under either policy and passes through fields with exactly those names. |
| Layout.LocatedPathResolves | repr.h:12-16 | Conversely, when no struct repeats a member name, every existing path is exactly what the names along it resolve to. |
| ReprH.DeclarationsHaveDistinctNames | repr.h:7-16 | Neither c_inner nor c_outer repeats a member name, so the converse applies to both. |
| Layout.Locate | Repr.swift:41-51 | A nested field found by path lies inside the outer value's size, is aligned to its own alignment, and has no larger alignment than the outer value. |
| Layout.FieldAlignBelowStruct | repr.h:7-10 | No field's alignment exceeds its struct's alignment. |
| Layout.EndMonotone | repr.h:12-16 | The placement cursor never moves backwards as fields are placed. |
| Layout.FieldsDisjoint | repr.h:14-15 | Field regions never overlap: a later field starts at or after the end of every earlier field. |
| Layout.FieldWithinStruct | repr.h:12-16 | Every field's region lies within the struct's size. |
| Layout.FirstFieldAtZero | repr.h:12-13 | There is no leading padding: the first field is at offset 0 under both policies. |
| Layout.SwiftSizeEndsAtLastField | Repr.swift:12 | Unfolds the definition: under Swift layout a struct's size is exactly where its last field ends (no tail padding). |
| Layout.CSizeAddsOnlyTailPadding | repr.c:28 | Under C layout sizeof is the end of the last field plus less than one alignment of tail padding. |
| Layout.StrideIsLeastAlignedCover | Repr.swift:13 | Stride is the least multiple of the alignment that holds the size. |
| Layout.CSizeIsStride | Repr.swift:64-66 | Under C layout every type's size is a multiple of its alignment, so size equals stride. |
| Layout.CNeverReusesTailPadding | Repr.swift:80-86 | Under C layout every later field starts after an earlier field's full stride, so no tail padding is reused. |
| Layout.SwiftNoLargerThanC | Repr.swift:80-86 | For every shape, the Swift size and stride are at most the C ones. |
| Layout.SwiftEndNoLaterThanC | Repr.swift:80-86 | Every field is placed, and ends, no later under Swift layout than under C layout. |
| Memory.FieldContaining | Repr.swift:39 | A field found for a byte has that byte inside its region. |
| Memory.FieldContainingNone | Repr.swift:98 | When no field's region holds a byte, the search finds none. |
| Memory.FieldContainingIsUnique | repr.h:12-16 | A byte inside a field's region is attributed to exactly that field. |
| Memory.PaddingIsUndefined | Repr.swift:39 | A byte outside every field's region has no defined value in the view. |
| Memory.ByteAt | Repr.swift:16 | The view `withUnsafeBytes(of:)` exposes: byte k of an instance is the encoding byte of the scalar whose region holds k, and undefined in padding. |
| Memory.Represents | Repr.swift:38 | A raw image of an instance is exactly `size` bytes long and holds the view's byte wherever the view defines one. |
| Memory.ZeroPaddedImage | repr.c:31 | Every well-typed instance has a raw image: the view's bytes with padding set to 0 represent it, so the program theorems do not hold vacuously. |
| Memory.ByteAtWithinSize | Repr.swift:16 | The view defines no byte at or beyond the value's size. |
| Memory.ByteInField | repr.c:47-51 | Byte j of a field's own view is byte offset + j of the enclosing struct's view. |
| Memory.EmbeddedView | repr.c:47-51 | At any depth, a nested field's view is the outer view shifted by the field's offset, so inner keeps its own layout inside outer. |
| Memory.FieldBytes | repr.c:44-45 | The view of a scalar field, at its offset, is the little-endian encoding of the field's value. |
| Memory.DefinedByte | repr.c:20 | Unfolds Represents, with the bound from ByteAtWithinSize: a raw image holds the view's byte at every position the view defines. |
| Memory.FieldSlice | Repr.swift:41-51 | In any raw image, the bytes of a scalar field's range are the little-endian encoding of its value. |
| Memory.FieldRoundTrip | repr.c:42-54 | Decoding a scalar field's byte range of any raw image gives back the field's value. |
| Memory.FieldImage | repr.c:42-45 | A raw image holds x's little-endian bytes at the offset of a field whose value is x. |
| Checks.AssertEqual | Repr.swift:119-125 | assertEqual / ASSERT_EQUAL passes exactly when actual equals expected, and otherwise reports the name and both values. |
| Checks.ElementsEqual | Repr.swift:127-131 | elementsEqual holds exactly when both sequences have the same length and agree at every index. |
| Checks.AssertElementsEqual | Repr.swift:127-131 | assertElementsEqual passes exactly when the sequences are equal, and otherwise reports both. |
| Checks.AssertBytesEqual | repr.c:16-21 | ASSERT_BYTES_EQUAL passes exactly when actual[offset + i] equals expected[i] for all i < n. On failure it reports the first mismatching index, counted from the start of actual, with both bytes. |
| Checks.CompareFrom | repr.c:17-21 | The comparison loop from iteration i on has the same pass/fail result and first-mismatch report as the whole loop, given earlier iterations matched. |
| Checks.BytesEqualIffSlice | repr.c:16-21 | Comparing all n expected bytes passes exactly when actual[offset..offset+n] equals the expected array. |
| Checks.Run | repr.c:10-14 | A list of checks passes exactly when every check passes; a failure is the first failing check. |
| Checks.RunConcat | repr.c:24-60 | Running two lists back to back reports the first list's failure if any, and otherwise the second list's outcome. |
| Checks.ExitStatus | repr.c:13 | main's status is 0 or 1, and 0 exactly when no check failed. |
| ReprH.CInnerLayout | repr.h:7-10 | c_inner has alignment 8, b at 0, c at 8, members ending at 9, and sizeof and stride 16. |
| ReprH.COuterLayout | repr.h:12-16 | c_outer has alignment 8, a at 0, inner moved from 4 to 8, d at 24, members ending at 26, and sizeof and stride 32. |
| Samples.ExpectedBytesAreLittleEndian | repr.c:33-53 | The expected arrays are the little-endian encodings of a, b, c and d. |
| Samples.SamplesConform | repr.c:31-42 | The sample instances fit their declarations. |
| Samples.InnerLocations | Repr.swift:17-20 | Under both policies b is at 0 and c at 8 in the inner struct. |
| Samples.OuterLeadingOffsets | repr.h:12-14 | Under both policies a is at 0 and inner at 8 in the outer struct. |
| Samples.OuterLocations | Repr.swift:41-48 | Under both policies a is at 0, inner.b at 8 and inner.c at 16 in the outer struct. |
| Samples.OuterDOffset | Repr.swift:30 | d is at 18 under Swift layout and at 24 under C layout. |
| Samples.OuterLocationD | Repr.swift:50 | d's location from the start of the outer struct under each policy. |
| Samples.OuterValues | repr.c:42 | The field values of the outer instance, found by path. |
| Samples.InnerImage | repr.c:31-34 | Every raw image of the inner instance, under either policy, starts with the 9 bytes ef cd ab 89 67 45 23 01 01. |
| Samples.OuterImageA | repr.c:44-45 | Every raw image of the outer instance, under either policy, has df 9b 57 13 at bytes 0..4. |
| Samples.OuterImageB | repr.c:47-48 | Every raw image of the outer instance, under either policy, has ef cd ab 89 67 45 23 01 at bytes 8..16. |
| Samples.OuterImageC | repr.c:50-51 | Every raw image of the outer instance, under either policy, has 01 at byte 16. |
| Samples.OuterImageD | Repr.swift:50-51 | Every raw image of the outer instance has bf 37 at bytes 18..20 under Swift layout and at 24..26 under C layout. |
| ReprC.LayoutChecksPass | repr.c:28-40 | The sizeof/alignof checks of main pass. |
| ReprC.InnerByteChecksPassExactly | repr.c:31-34 | The byte check of inner passes exactly when its first 9 bytes are the expected ones. |
| ReprC.OuterByteChecksPassExactly | repr.c:42-54 | The byte checks of outer pass exactly when bytes 0..4, 8..16, 16..17 and 24..26 are the expected ones. |
| ReprC.Main | repr.c:24-60 | main returns 0 or 1. |
| ReprC.MainPassesExactly | repr.c:24-60 | main returns 0 exactly when every byte range it inspects holds the expected bytes. |
| ReprC.MainSucceeds | repr.c:24-60 | For any raw images of inner and outer, whatever their padding holds, main returns 0. |
| ReprC.OuterFieldPaths | repr.h:12-16 | The names a, inner.b, inner.c and d resolve to the paths [0], [1,0], [1,1] and [2] of c_outer, and an unknown name resolves to nothing. |
| ReprSwift.SameDeclarations | Repr.swift:6-31 | By definition: the Swift structs declare the same fields in the same order as the C structs. |
| ReprSwift.SwiftInnerLayout | Repr.swift:11-13 | SwiftInner has alignment 8, b at 0, c at 8, size 9 and stride 16. |
| ReprSwift.SwiftOuterLayout | Repr.swift:33-35 | SwiftOuter has alignment 8, a at 0, inner at 8, d at 18 after a cursor of 17, size 20 and stride 24. |
| ReprSwift.SwiftOuterReusesTailPadding | Repr.swift:80-88 | In SwiftOuter, d starts after inner's size but inside inner's stride; in c_outer, d starts exactly at the end of inner's stride. |
| ReprSwift.LayoutChecksPass | Repr.swift:64-66 | All twelve MemoryLayout checks pass: alignment, size and stride for each of the four types. |
| ReprSwift.SwiftByteChecksPassExactly | Repr.swift:37-52 | The Swift byte checks pass exactly when the 9-byte view of swiftInner and the four ranges of swiftOuter hold the expected bytes. |
| ReprSwift.CByteChecksPassExactly | Repr.swift:96-111 | The byte checks of cInner and cOuter pass exactly when the inspected ranges hold the expected bytes. |
| ReprSwift.ProgramPassesExactly | Repr.swift:11-114 | The program reaches print("OK!") exactly when every inspected byte range holds the expected bytes. |
| ReprSwift.SwiftViewsAsExpected | Repr.swift:15-22 | Any views of swiftInner and swiftOuter hold the expected bytes in every inspected range. |
| ReprSwift.CViewsAsExpected | Repr.swift:68-75 | Any views of cInner and cOuter hold the expected bytes in every inspected range. |
| ReprSwift.Program | Repr.swift:11-114 | The top-level code of Repr.swift: its 22 checks run in program order, stopping at the first failing assert. |
| ReprSwift.ProgramSucceeds | Repr.swift:11-114 | The byte views of the four instances are 9, 20, 16 and 32 bytes long, and whatever their padding holds, no assert traps. |

## Left out

- Messages and output: the failure texts (`fprintf`, `sprintf`, string interpolation, the padding of Swift's message) and the final "OK!" are not modelled. A failure keeps only the check's label and the compared values.
- Process control: `return 1` and a trapping Swift `assert` are modelled as the first `Fail` of the run. The model treats Swift's `assert` as always evaluated, as in a debug build; optimised builds drop it.
- The compiler itself: `MemoryLayout`, `sizeof` and `alignof` are given by the layout functions, not by modelling a compiler.
- Raw memory access: `withUnsafeBytes(of:)` and the `uint8_t *` casts are modelled by a parameter byte sequence that must represent the instance. Padding byte values are left free and never compared.
- Layouts the programs never use: empty structs (Swift gives stride at least 1), resilient Swift layout, enums, generics, bit-fields and big-endian targets.
- Labels: kept as plain strings as written, including their cosmetic slips: "outer" labels the c_inner byte check at repr.c:34, "rA" labels the rB check and "rC" labels the rD check at Repr.swift:45, 51, 104 and 110. They do not affect any outcome.
- Layout.Size: has no contract of its own. Its meaning is stated by Layout.FieldWithinStruct, Layout.SwiftSizeEndsAtLastField, Layout.CSizeAddsOnlyTailPadding, Layout.CSizeIsStride and Layout.SwiftNoLargerThanC.
- Layout.End: has no contract of its own. Its meaning is stated by Layout.EndMonotone and Layout.FieldsDisjoint.
- Layout.Align: its contract only says the result is a target alignment. Layout.MaxAlign, Layout.MaxAlignAttained and Layout.FieldAlignBelowStruct state that it is the largest field alignment.
- Encoding.LE and Encoding.FromLE: their contracts give only the length and the range. Encoding.LEByte states the byte order: byte i is digit i of x in base 256. Encoding.FromLEOfLE, Encoding.LEOfFromLE and Encoding.LEInjective state that the two are inverse bijections.
- Memory.ByteAt: has no contract of its own. Its meaning is stated by Memory.ByteAtWithinSize, Memory.PaddingIsUndefined, Memory.ByteInField, Memory.EmbeddedView and Memory.FieldBytes.
- Memory.Represents: a predicate without a contract. Memory.ZeroPaddedImage shows it can be met, and Memory.DefinedByte, Memory.FieldSlice and Memory.FieldRoundTrip state what it implies.
- ReprSwift.Program: has no contract of its own. What its outcome means is stated by ReprSwift.ProgramPassesExactly and ReprSwift.ProgramSucceeds.
- ReprC.Main: its contract only bounds the status. What the status means is stated by ReprC.MainPassesExactly.
- Layout.FieldIndex and Layout.Resolve: their own contracts only bound the result. The lookup's meaning is stated by Layout.FieldIndexFromFindsFirst, by Layout.ResolvedPathLocates (a found path is correct) and by Layout.LocatedPathResolves (the converse). The converse needs distinct member names: with a repeated name, Resolve follows the first field of that name and can miss a path through a later one. C and Swift reject such declarations.
