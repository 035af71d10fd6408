/**
 * The sample values both programs build, the little-endian bytes they expect
 * to find, and where those bytes are under either layout policy. The field
 * declarations are those of repr.h; Repr.swift declares the same fields in
 * the same order.
 */
module Samples {
  import opened Wrappers
  import opened Encoding
  import opened Layout
  import opened Memory
  import opened ReprH

  const bValue: nat := 0x0123456789abcdef
  const cValue: nat := 0x01
  const aValue: nat := 0x13579bdf
  const dValue: nat := 0x37bf

  /** inner: b = 0x0123456789abcdef, c = 0x01 */
  const inner: Value := Record([Num(bValue), Num(cValue)])

  /** outer: a = 0x13579bdf, inner = inner, d = 0x37bf */
  const outer: Value := Record([Num(aValue), inner, Num(dValue)])

  const expectedBytesA: seq<byte> := [0xdf, 0x9b, 0x57, 0x13]
  const expectedBytesB: seq<byte> := [0xef, 0xcd, 0xab, 0x89, 0x67, 0x45, 0x23, 0x01]
  const expectedBytesC: seq<byte> := [0x01]
  const expectedBytesD: seq<byte> := [0xbf, 0x37]

  /** b little-endian, then c: the nine bytes of inner that are not padding. */
  const innerExpectedBytes: seq<byte> := expectedBytesB + expectedBytesC

  /**
   * The bytes both programs inspect in a 16-byte c_inner image and a 32-byte
   * c_outer image, compared with the arrays they expect.
   */
  predicate CBytesAsExpected(innerMem: seq<byte>, outerMem: seq<byte>)
    requires |innerMem| == 16 && |outerMem| == 32
  {
    && innerMem[..9] == innerExpectedBytes
    && outerMem[0..4] == expectedBytesA
    && outerMem[8..16] == expectedBytesB
    && outerMem[16..17] == expectedBytesC
    && outerMem[24..26] == expectedBytesD
  }

  /** The expected byte arrays are the little-endian encodings of the values. */
  lemma ExpectedBytesAreLittleEndian()
    ensures LE(aValue, 4) == expectedBytesA
    ensures LE(bValue, 8) == expectedBytesB
    ensures LE(cValue, 1) == expectedBytesC
    ensures LE(dValue, 2) == expectedBytesD
  {
    assert LE(0x01, 1) == [0x01];
    assert LE(0x0123, 2) == [0x23, 0x01];
    assert LE(0x012345, 3) == [0x45, 0x23, 0x01];
    assert LE(0x01234567, 4) == [0x67, 0x45, 0x23, 0x01];
    assert LE(0x0123456789, 5) == [0x89, 0x67, 0x45, 0x23, 0x01];
    assert LE(0x0123456789ab, 6) == [0xab, 0x89, 0x67, 0x45, 0x23, 0x01];
    assert LE(0x0123456789abcd, 7) == [0xcd, 0xab, 0x89, 0x67, 0x45, 0x23, 0x01];
  }

  /** The values fit their declarations (no literal is wider than its field). */
  lemma SamplesConform()
    ensures Conforms(inner, CInner) && Conforms(outer, COuter)
  {
  }

  /** b at 0 and c at 8 under both policies: inner's fields precede any padding. */
  lemma InnerLocations(p: Policy)
    ensures Locate(CInner, [0], p) == Some(Loc(0, Int(U64)))
    ensures Locate(CInner, [1], p) == Some(Loc(8, Int(U8)))
  {
    assert Offset(CInner, 0, p) == 0;
    assert Offset(CInner, 1, p) == 8;
    assert Locate(Int(U64), [], p) == Some(Loc(0, Int(U64)));
    assert Locate(Int(U8), [], p) == Some(Loc(0, Int(U8)));
  }

  /** a at 0; inner moves from the cursor at 4 up to its alignment 8, under both policies. */
  lemma OuterLeadingOffsets(p: Policy)
    ensures Offset(COuter, 0, p) == 0 && Offset(COuter, 1, p) == 8
  {
    CInnerLayout();
    assert Offset(COuter, 0, p) == 0;
    assert End(COuter, 1, p) == 4;
  }

  /** a at 0, inner.b at 8, inner.c at 16 under both policies. */
  lemma OuterLocations(p: Policy)
    ensures Locate(COuter, [0], p) == Some(Loc(0, Int(U32)))
    ensures Locate(COuter, [1, 0], p) == Some(Loc(8, Int(U64)))
    ensures Locate(COuter, [1, 1], p) == Some(Loc(16, Int(U8)))
  {
    InnerLocations(p);
    OuterLeadingOffsets(p);
    assert [1, 0][1..] == [0] && [1, 1][1..] == [1];
    assert Locate(Int(U32), [], p) == Some(Loc(0, Int(U32)));
  }

  /** Any image of inner, under either policy, starts with b little-endian and then c. */
  lemma InnerImage(mem: seq<byte>, p: Policy)
    requires Represents(mem, inner, CInner, p)
    ensures 9 <= |mem| && mem[..9] == innerExpectedBytes
  {
    InnerLocations(p);
    ExpectedBytesAreLittleEndian();
    assert ValueAt(inner, [0]) == Some(Num(bValue));
    assert ValueAt(inner, [1]) == Some(Num(cValue));
    FieldImage(mem, inner, CInner, p, [0], Loc(0, Int(U64)), bValue, expectedBytesB);
    FieldImage(mem, inner, CInner, p, [1], Loc(8, Int(U8)), cValue, expectedBytesC);
    assert mem[..9] == mem[0..8] + mem[8..9];
  }

  /** The integers of outer, by field path. */
  lemma OuterValues()
    ensures ValueAt(outer, [0]) == Some(Num(aValue))
    ensures ValueAt(outer, [1, 0]) == Some(Num(bValue))
    ensures ValueAt(outer, [1, 1]) == Some(Num(cValue))
    ensures ValueAt(outer, [2]) == Some(Num(dValue))
  {
    assert [1, 0][1..] == [0] && [1, 1][1..] == [1];
    assert [0][1..] == [] && [1][1..] == [] && [2][1..] == [];
    assert ValueAt(inner, [0]) == Some(Num(bValue));
    assert ValueAt(inner, [1]) == Some(Num(cValue));
  }

  /** Any image of outer, under either policy, holds a little-endian at 0. */
  lemma OuterImageA(mem: seq<byte>, p: Policy)
    requires Represents(mem, outer, COuter, p)
    ensures 4 <= |mem| && mem[0..4] == expectedBytesA
  {
    OuterLocations(p);
    OuterValues();
    ExpectedBytesAreLittleEndian();
    FieldImage(mem, outer, COuter, p, [0], Loc(0, Int(U32)), aValue, expectedBytesA);
  }

  /** Any image of outer, under either policy, holds inner.b little-endian at 8. */
  lemma OuterImageB(mem: seq<byte>, p: Policy)
    requires Represents(mem, outer, COuter, p)
    ensures 16 <= |mem| && mem[8..16] == expectedBytesB
  {
    OuterLocations(p);
    OuterValues();
    ExpectedBytesAreLittleEndian();
    FieldImage(mem, outer, COuter, p, [1, 0], Loc(8, Int(U64)), bValue, expectedBytesB);
  }

  /** Any image of outer, under either policy, holds inner.c at 16. */
  lemma OuterImageC(mem: seq<byte>, p: Policy)
    requires Represents(mem, outer, COuter, p)
    ensures 17 <= |mem| && mem[16..17] == expectedBytesC
  {
    OuterLocations(p);
    OuterValues();
    ExpectedBytesAreLittleEndian();
    FieldImage(mem, outer, COuter, p, [1, 1], Loc(16, Int(U8)), cValue, expectedBytesC);
  }

  /**
   * d's offset in outer: 18 under Swift's layout, inside the tail padding of
   * inner's stride; 24 under C's, past all 16 bytes of sizeof(c_inner).
   */
  lemma OuterDOffset()
    ensures Offset(COuter, 2, SwiftFragile) == 18
    ensures Offset(COuter, 2, CStandard) == 24
  {
    CInnerLayout();
    COuterLayout();
    OuterLeadingOffsets(SwiftFragile);
    assert Size(CInner, SwiftFragile) == 9;
    assert End(COuter, 2, SwiftFragile) == 17;
  }

  /** d, located from the start of outer under each policy. */
  lemma OuterLocationD(p: Policy)
    ensures Locate(COuter, [2], p) == Some(Loc(if p == SwiftFragile then 18 else 24, Int(U16)))
  {
    OuterDOffset();
    assert Locate(Int(U16), [], p) == Some(Loc(0, Int(U16)));
  }

  /** Any image of outer holds d little-endian at 18 under Swift's layout and at 24 under C's. */
  lemma OuterImageD(mem: seq<byte>, p: Policy)
    requires Represents(mem, outer, COuter, p)
    ensures var d := if p == SwiftFragile then 18 else 24;
      d + 2 <= |mem| && mem[d..d + 2] == expectedBytesD
  {
    var d := if p == SwiftFragile then 18 else 24;
    OuterLocationD(p);
    OuterValues();
    ExpectedBytesAreLittleEndian();
    FieldImage(mem, outer, COuter, p, [2], Loc(d, Int(U16)), dValue, expectedBytesD);
  }
}
