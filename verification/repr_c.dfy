/**
 * main of repr.c: sizeof/alignof checks and byte-range checks of one c_inner
 * and one c_outer instance. The objects' raw bytes are parameters: any byte
 * image the C layout admits, padding included, is a possible input.
 */
module ReprC {
  import opened Wrappers
  import opened Encoding
  import opened Layout
  import opened Memory
  import opened Checks
  import opened ReprH
  import opened Samples

  /** main's sizeof/alignof checks of c_inner. */
  function InnerLayoutChecks(): (r: seq<Outcome<Failure>>)
    ensures |r| == 2
  {
    [ AssertEqual(Size(CInner, CStandard), 16, "sizeof(c_inner)"),
      AssertEqual(Align(CInner), 8, "alignof(c_inner)") ]
  }

  /** main's byte checks of inner, on its raw bytes. */
  function InnerByteChecks(innerMem: seq<byte>): (r: seq<Outcome<Failure>>)
    requires |innerMem| == Size(CInner, CStandard)
    ensures |r| == 1
  {
    CInnerLayout();
    [ AssertBytesEqual(innerMem, 0, innerExpectedBytes, 9, "outer") ]
  }

  /** main's sizeof/alignof checks of c_outer. */
  function OuterLayoutChecks(): (r: seq<Outcome<Failure>>)
    ensures |r| == 2
  {
    [ AssertEqual(Size(COuter, CStandard), 32, "sizeof(c_outer)"),
      AssertEqual(Align(COuter), 8, "alignof(c_outer)") ]
  }

  /** main's byte checks of outer, on its raw bytes. */
  function OuterByteChecks(outerMem: seq<byte>): (r: seq<Outcome<Failure>>)
    requires |outerMem| == Size(COuter, CStandard)
    ensures |r| == 4
  {
    COuterLayout();
    [ AssertBytesEqual(outerMem, 0, expectedBytesA, 4, "outer"),
      AssertBytesEqual(outerMem, 8, expectedBytesB, 8, "outer"),
      AssertBytesEqual(outerMem, 16, expectedBytesC, 1, "outer"),
      AssertBytesEqual(outerMem, 24, expectedBytesD, 2, "outer") ]
  }

  /** Every check of main, in program order. */
  function MainChecks(innerMem: seq<byte>, outerMem: seq<byte>): (r: seq<Outcome<Failure>>)
    requires |innerMem| == Size(CInner, CStandard) && |outerMem| == Size(COuter, CStandard)
    ensures |r| == 9
  {
    InnerLayoutChecks() + InnerByteChecks(innerMem) + OuterLayoutChecks() + OuterByteChecks(outerMem)
  }

  /** main's return value: 1 at the first failing check, otherwise 0. */
  function Main(innerMem: seq<byte>, outerMem: seq<byte>): (status: int)
    requires |innerMem| == Size(CInner, CStandard) && |outerMem| == Size(COuter, CStandard)
    ensures status == 0 || status == 1
  {
    ExitStatus(Run(MainChecks(innerMem, outerMem)))
  }

  /** The fields of c_outer by name, as index paths. */
  lemma OuterFieldPaths()
    ensures Resolve(COuter, ["a"]) == Some([0])
    ensures Resolve(COuter, ["inner", "b"]) == Some([1, 0])
    ensures Resolve(COuter, ["inner", "c"]) == Some([1, 1])
    ensures Resolve(COuter, ["d"]) == Some([2])
    ensures Resolve(COuter, ["e"]) == None
  {
    assert FieldIndexFrom(COuter.fields, "inner", 1) == Some(1);
    assert FieldIndexFrom(COuter.fields, "d", 2) == Some(2);
    assert FieldIndexFrom(COuter.fields, "d", 1) == Some(2);
    assert FieldIndexFrom(CInner.fields, "c", 1) == Some(1);
    assert FieldIndex(CInner.fields, "b") == Some(0);
    assert FieldIndex(CInner.fields, "c") == Some(1);
    assert ["inner", "b"][1..] == ["b"] && ["inner", "c"][1..] == ["c"];
    assert ["a"][1..] == [] && ["b"][1..] == [] && ["c"][1..] == [] && ["d"][1..] == [];
    assert Resolve(Int(U64), []) == Some([]) && Resolve(Int(U8), []) == Some([]);
    assert [0] + [] == [0] && [1] + [] == [1] && [2] + [] == [2];
    assert Resolve(CInner, ["b"]) == Some([0]) && Resolve(CInner, ["c"]) == Some([1]);
    assert [1] + [0] == [1, 0] && [1] + [1] == [1, 1];
    assert FieldIndexFrom(COuter.fields, "e", 3) == None;
    assert FieldIndexFrom(COuter.fields, "e", 2) == None;
    assert FieldIndexFrom(COuter.fields, "e", 1) == None;
  }

  /** The sizeof/alignof checks of main pass: C's rules give c_inner and c_outer the sizes and alignments the program expects. */
  lemma LayoutChecksPass()
    ensures Run(InnerLayoutChecks()).Pass? && Run(OuterLayoutChecks()).Pass?
  {
    CInnerLayout();
    COuterLayout();
    assert InnerLayoutChecks()[0].Pass? && InnerLayoutChecks()[1].Pass?;
    assert OuterLayoutChecks()[0].Pass? && OuterLayoutChecks()[1].Pass?;
  }

  /** The byte check of inner passes exactly when its first nine bytes are b and c little-endian. */
  lemma InnerByteChecksPassExactly(innerMem: seq<byte>)
    requires |innerMem| == 16
    ensures |innerMem| == Size(CInner, CStandard)
    ensures Run(InnerByteChecks(innerMem)).Pass? <==> innerMem[..9] == innerExpectedBytes
  {
    CInnerLayout();
    assert innerMem[..9] == innerMem[0..9];
    BytesEqualIffSlice(innerMem, 0, innerExpectedBytes, 9, "outer");
  }

  /** The byte checks of outer pass exactly when a, inner.b, inner.c and d are where C puts them. */
  lemma OuterByteChecksPassExactly(outerMem: seq<byte>)
    requires |outerMem| == 32
    ensures |outerMem| == Size(COuter, CStandard)
    ensures Run(OuterByteChecks(outerMem)).Pass? <==>
      && outerMem[0..4] == expectedBytesA
      && outerMem[8..16] == expectedBytesB
      && outerMem[16..17] == expectedBytesC
      && outerMem[24..26] == expectedBytesD
  {
    COuterLayout();
    BytesEqualIffSlice(outerMem, 0, expectedBytesA, 4, "outer");
    BytesEqualIffSlice(outerMem, 8, expectedBytesB, 8, "outer");
    BytesEqualIffSlice(outerMem, 16, expectedBytesC, 1, "outer");
    BytesEqualIffSlice(outerMem, 24, expectedBytesD, 2, "outer");
    var checks := OuterByteChecks(outerMem);
    assert checks[0] == AssertBytesEqual(outerMem, 0, expectedBytesA, 4, "outer");
    assert checks[1] == AssertBytesEqual(outerMem, 8, expectedBytesB, 8, "outer");
    assert checks[2] == AssertBytesEqual(outerMem, 16, expectedBytesC, 1, "outer");
    assert checks[3] == AssertBytesEqual(outerMem, 24, expectedBytesD, 2, "outer");
  }

  /** With the layout of repr.h, main returns 0 exactly when every inspected byte is as expected. */
  lemma MainPassesExactly(innerMem: seq<byte>, outerMem: seq<byte>)
    requires |innerMem| == 16 && |outerMem| == 32
    ensures |innerMem| == Size(CInner, CStandard) && |outerMem| == Size(COuter, CStandard)
    ensures Main(innerMem, outerMem) == 0 <==> CBytesAsExpected(innerMem, outerMem)
  {
    LayoutChecksPass();
    InnerByteChecksPassExactly(innerMem);
    OuterByteChecksPassExactly(outerMem);
    var a, b, c, d := InnerLayoutChecks(), InnerByteChecks(innerMem), OuterLayoutChecks(), OuterByteChecks(outerMem);
    RunConcat(a, b);
    RunConcat(a + b, c);
    RunConcat(a + b + c, d);
  }

  /** Whatever the padding bytes hold, main returns 0. */
  lemma MainSucceeds(innerMem: seq<byte>, outerMem: seq<byte>)
    requires Represents(innerMem, inner, CInner, CStandard)
    requires Represents(outerMem, outer, COuter, CStandard)
    ensures |innerMem| == Size(CInner, CStandard) && |outerMem| == Size(COuter, CStandard)
    ensures Main(innerMem, outerMem) == 0
  {
    CInnerLayout();
    COuterLayout();
    InnerImage(innerMem, CStandard);
    OuterImageA(outerMem, CStandard);
    OuterImageB(outerMem, CStandard);
    OuterImageC(outerMem, CStandard);
    OuterImageD(outerMem, CStandard);
    MainPassesExactly(innerMem, outerMem);
  }
}
