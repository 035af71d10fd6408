/**
 * The top-level code of Repr.swift: layout and byte checks of two Swift
 * structs and, through the imported C module, of the two C structs of
 * repr.h. Each check is a Swift assert; the program prints "OK!" only when
 * none traps. The raw bytes seen by withUnsafeBytes(of:) are parameters:
 * any image the layout admits, padding included, is a possible input.
 */
module ReprSwift {
  import opened Wrappers
  import opened Encoding
  import opened Layout
  import opened Memory
  import opened Checks
  import opened ReprH
  import opened Samples

  /** struct SwiftInner { let b: UInt64; let c: UInt8 } */
  const SwiftInner: Shape := Struct([Field("b", Int(U64)), Field("c", Int(U8))])

  /** struct SwiftOuter { let a: UInt32; let inner: SwiftInner; let d: UInt16 } */
  const SwiftOuter: Shape := Struct([Field("a", Int(U32)), Field("inner", SwiftInner), Field("d", Int(U16))])

  /** The Swift structs declare the same fields, in the same order, as the C structs: only the layout policy differs. */
  lemma SameDeclarations()
    ensures SwiftInner == CInner && SwiftOuter == COuter
  {
  }

  /** SwiftInner: alignment 8; size 9, ending at c; stride 16. */
  lemma SwiftInnerLayout()
    ensures Align(SwiftInner) == 8
    ensures Offset(SwiftInner, 0, SwiftFragile) == 0 && Offset(SwiftInner, 1, SwiftFragile) == 8
    ensures Size(SwiftInner, SwiftFragile) == 9 && Stride(SwiftInner, SwiftFragile) == 16
  {
    CInnerLayout();
    assert End(SwiftInner, 2, SwiftFragile) == 9;
  }

  /**
   * SwiftOuter: a at 0; inner at 8 occupies only its 9-byte size, so d goes
   * to 18, the first 2-aligned offset after 17; size 20, stride 24.
   */
  lemma SwiftOuterLayout()
    ensures Align(SwiftOuter) == 8
    ensures Offset(SwiftOuter, 0, SwiftFragile) == 0 && Offset(SwiftOuter, 1, SwiftFragile) == 8
    ensures End(SwiftOuter, 2, SwiftFragile) == 17 && Offset(SwiftOuter, 2, SwiftFragile) == 18
    ensures Size(SwiftOuter, SwiftFragile) == 20 && Stride(SwiftOuter, SwiftFragile) == 24
  {
    SwiftInnerLayout();
    COuterLayout();
    OuterLeadingOffsets(SwiftFragile);
    OuterDOffset();
    assert End(SwiftOuter, 3, SwiftFragile) == 20;
  }

  /**
   * d lies inside the stride of inner (its tail padding) in SwiftOuter,
   * while c_outer places d only after inner's whole stride.
   */
  lemma SwiftOuterReusesTailPadding()
    ensures Offset(SwiftOuter, 1, SwiftFragile) + Size(SwiftInner, SwiftFragile) <= Offset(SwiftOuter, 2, SwiftFragile)
    ensures Offset(SwiftOuter, 2, SwiftFragile) < Offset(SwiftOuter, 1, SwiftFragile) + Stride(SwiftInner, SwiftFragile)
    ensures Offset(COuter, 2, CStandard) == Offset(COuter, 1, CStandard) + Stride(CInner, CStandard)
  {
    SwiftOuterLayout();
    SwiftInnerLayout();
    COuterLayout();
    CInnerLayout();
  }

  // The checks, section by section and in program order.

  function SwiftInnerLayoutChecks(): (r: seq<Outcome<Failure>>)
    ensures |r| == 3
  {
    [ AssertEqual(Align(SwiftInner), 8, "MemoryLayout<(Swift) …Inner>.alignment"),
      AssertEqual(Size(SwiftInner, SwiftFragile), 9, "MemoryLayout<(Swift) …Inner>.size"),
      AssertEqual(Stride(SwiftInner, SwiftFragile), 16, "MemoryLayout<(Swift) …Inner>.stride") ]
  }

  /** The whole byte view of swiftInner, all 9 bytes of its size, against b and c little-endian. */
  function SwiftInnerByteChecks(innerBytes: seq<byte>): (r: seq<Outcome<Failure>>)
    requires |innerBytes| == Size(SwiftInner, SwiftFragile)
    ensures |r| == 1
  {
    [ AssertElementsEqual(innerBytes, innerExpectedBytes, "(Swift) inner…") ]
  }

  function SwiftOuterLayoutChecks(): (r: seq<Outcome<Failure>>)
    ensures |r| == 3
  {
    [ AssertEqual(Align(SwiftOuter), 8, "MemoryLayout<(Swift) …Outer>.alignment"),
      AssertEqual(Size(SwiftOuter, SwiftFragile), 20, "MemoryLayout<(Swift) …Outer>.size"),
      AssertEqual(Stride(SwiftOuter, SwiftFragile), 24, "MemoryLayout<(Swift) …Outer>.stride") ]
  }

  /** The ranges rA, rB, rC, rD of swiftOuter's byte view; d's range is 18..<20. */
  function SwiftOuterByteChecks(outerBytes: seq<byte>): (r: seq<Outcome<Failure>>)
    requires |outerBytes| == Size(SwiftOuter, SwiftFragile)
    ensures |r| == 4
  {
    SwiftOuterLayout();
    [ AssertElementsEqual(outerBytes[0..4], expectedBytesA, "(Swift) outer…[rA: 0..<4]"),
      AssertElementsEqual(outerBytes[8..16], expectedBytesB, "(Swift) outer…[rA: 8..<16]"),
      AssertElementsEqual(outerBytes[16..17], expectedBytesC, "(Swift) outer…[rC: 16..<17]"),
      AssertElementsEqual(outerBytes[18..20], expectedBytesD, "(Swift) outer…[rC: 18..<20]") ]
  }

  function CInnerLayoutChecks(): (r: seq<Outcome<Failure>>)
    ensures |r| == 3
  {
    [ AssertEqual(Align(CInner), 8, "MemoryLayout<(C) …Inner>.alignment"),
      AssertEqual(Size(CInner, CStandard), 16, "MemoryLayout<(C) …Inner>.size"),
      AssertEqual(Stride(CInner, CStandard), 16, "MemoryLayout<(c) …Inner>.stride") ]
  }

  /** The first 9 of the 16 bytes of cInner's view; the rest is tail padding. */
  function CInnerByteChecks(innerBytes: seq<byte>): (r: seq<Outcome<Failure>>)
    requires |innerBytes| == Size(CInner, CStandard)
    ensures |r| == 1
  {
    CInnerLayout();
    [ AssertElementsEqual(innerBytes[..9], innerExpectedBytes, "(C) inner…") ]
  }

  function COuterLayoutChecks(): (r: seq<Outcome<Failure>>)
    ensures |r| == 3
  {
    [ AssertEqual(Align(COuter), 8, "MemoryLayout<(C) …Outer>.alignment"),
      AssertEqual(Size(COuter, CStandard), 32, "MemoryLayout<(C) …Outer>.size"),
      AssertEqual(Stride(COuter, CStandard), 32, "MemoryLayout<(C) …Outer>.stride") ]
  }

  /** The ranges rA, rB, rC, rD of cOuter's byte view; d's range is 24..<26. */
  function COuterByteChecks(outerBytes: seq<byte>): (r: seq<Outcome<Failure>>)
    requires |outerBytes| == Size(COuter, CStandard)
    ensures |r| == 4
  {
    COuterLayout();
    [ AssertElementsEqual(outerBytes[0..4], expectedBytesA, "(C) outer…[rA: 0..<4]"),
      AssertElementsEqual(outerBytes[8..16], expectedBytesB, "(C) outer…[rA: 8..<16]"),
      AssertElementsEqual(outerBytes[16..17], expectedBytesC, "(C) outer…[rC: 16..<17]"),
      AssertElementsEqual(outerBytes[24..26], expectedBytesD, "(C) outer…[rC: 24..<26]") ]
  }

  /** Every check of the program, in order, on the byte views of swiftInner, swiftOuter, cInner and cOuter. */
  function ProgramChecks(swiftInnerBytes: seq<byte>, swiftOuterBytes: seq<byte>, cInnerBytes: seq<byte>, cOuterBytes: seq<byte>): (r: seq<Outcome<Failure>>)
    requires |swiftInnerBytes| == Size(SwiftInner, SwiftFragile) && |swiftOuterBytes| == Size(SwiftOuter, SwiftFragile)
    requires |cInnerBytes| == Size(CInner, CStandard) && |cOuterBytes| == Size(COuter, CStandard)
    ensures |r| == 22
  {
    SwiftInnerLayoutChecks() + SwiftInnerByteChecks(swiftInnerBytes)
    + SwiftOuterLayoutChecks() + SwiftOuterByteChecks(swiftOuterBytes)
    + CInnerLayoutChecks() + CInnerByteChecks(cInnerBytes)
    + COuterLayoutChecks() + COuterByteChecks(cOuterBytes)
  }

  /** The program's outcome: the first assert that traps, or Pass when it reaches print("OK!"). */
  function Program(swiftInnerBytes: seq<byte>, swiftOuterBytes: seq<byte>, cInnerBytes: seq<byte>, cOuterBytes: seq<byte>): (r: Outcome<Failure>)
    requires |swiftInnerBytes| == Size(SwiftInner, SwiftFragile) && |swiftOuterBytes| == Size(SwiftOuter, SwiftFragile)
    requires |cInnerBytes| == Size(CInner, CStandard) && |cOuterBytes| == Size(COuter, CStandard)
  {
    Run(ProgramChecks(swiftInnerBytes, swiftOuterBytes, cInnerBytes, cOuterBytes))
  }

  /** Every MemoryLayout check of the program passes: both policies give the sizes, strides and alignments it expects. */
  lemma LayoutChecksPass()
    ensures Run(SwiftInnerLayoutChecks()).Pass? && Run(SwiftOuterLayoutChecks()).Pass?
    ensures Run(CInnerLayoutChecks()).Pass? && Run(COuterLayoutChecks()).Pass?
  {
    SwiftInnerLayout();
    SwiftOuterLayout();
    CInnerLayout();
    COuterLayout();
    assert SwiftInnerLayoutChecks()[0].Pass? && SwiftInnerLayoutChecks()[1].Pass? && SwiftInnerLayoutChecks()[2].Pass?;
    assert SwiftOuterLayoutChecks()[0].Pass? && SwiftOuterLayoutChecks()[1].Pass? && SwiftOuterLayoutChecks()[2].Pass?;
    assert CInnerLayoutChecks()[0].Pass? && CInnerLayoutChecks()[1].Pass? && CInnerLayoutChecks()[2].Pass?;
    assert COuterLayoutChecks()[0].Pass? && COuterLayoutChecks()[1].Pass? && COuterLayoutChecks()[2].Pass?;
  }

  /** The bytes the program inspects in the views of swiftInner (9 bytes) and swiftOuter (20 bytes). */
  predicate SwiftBytesAsExpected(innerBytes: seq<byte>, outerBytes: seq<byte>)
    requires |innerBytes| == 9 && |outerBytes| == 20
  {
    && innerBytes == innerExpectedBytes
    && outerBytes[0..4] == expectedBytesA
    && outerBytes[8..16] == expectedBytesB
    && outerBytes[16..17] == expectedBytesC
    && outerBytes[18..20] == expectedBytesD
  }

  /** The Swift byte checks pass exactly when the inspected bytes are as expected. */
  lemma SwiftByteChecksPassExactly(innerBytes: seq<byte>, outerBytes: seq<byte>)
    requires |innerBytes| == 9 && |outerBytes| == 20
    ensures |innerBytes| == Size(SwiftInner, SwiftFragile) && |outerBytes| == Size(SwiftOuter, SwiftFragile)
    ensures Run(SwiftInnerByteChecks(innerBytes)).Pass? && Run(SwiftOuterByteChecks(outerBytes)).Pass?
      <==> SwiftBytesAsExpected(innerBytes, outerBytes)
  {
    SwiftInnerLayout();
    SwiftOuterLayout();
    var checks := SwiftOuterByteChecks(outerBytes);
    assert checks[0].Pass? <==> outerBytes[0..4] == expectedBytesA;
    assert checks[1].Pass? <==> outerBytes[8..16] == expectedBytesB;
    assert checks[2].Pass? <==> outerBytes[16..17] == expectedBytesC;
    assert checks[3].Pass? <==> outerBytes[18..20] == expectedBytesD;
  }

  /** The C byte checks pass exactly when the inspected bytes are as expected. */
  lemma CByteChecksPassExactly(innerBytes: seq<byte>, outerBytes: seq<byte>)
    requires |innerBytes| == 16 && |outerBytes| == 32
    ensures |innerBytes| == Size(CInner, CStandard) && |outerBytes| == Size(COuter, CStandard)
    ensures Run(CInnerByteChecks(innerBytes)).Pass? && Run(COuterByteChecks(outerBytes)).Pass?
      <==> CBytesAsExpected(innerBytes, outerBytes)
  {
    CInnerLayout();
    COuterLayout();
    var checks := COuterByteChecks(outerBytes);
    assert checks[0].Pass? <==> outerBytes[0..4] == expectedBytesA;
    assert checks[1].Pass? <==> outerBytes[8..16] == expectedBytesB;
    assert checks[2].Pass? <==> outerBytes[16..17] == expectedBytesC;
    assert checks[3].Pass? <==> outerBytes[24..26] == expectedBytesD;
  }

  /** The program reaches print("OK!") exactly when every inspected byte is as expected. */
  lemma ProgramPassesExactly(swiftInnerBytes: seq<byte>, swiftOuterBytes: seq<byte>, cInnerBytes: seq<byte>, cOuterBytes: seq<byte>)
    requires |swiftInnerBytes| == 9 && |swiftOuterBytes| == 20 && |cInnerBytes| == 16 && |cOuterBytes| == 32
    ensures |swiftInnerBytes| == Size(SwiftInner, SwiftFragile) && |swiftOuterBytes| == Size(SwiftOuter, SwiftFragile)
    ensures |cInnerBytes| == Size(CInner, CStandard) && |cOuterBytes| == Size(COuter, CStandard)
    ensures Program(swiftInnerBytes, swiftOuterBytes, cInnerBytes, cOuterBytes).Pass?
      <==> SwiftBytesAsExpected(swiftInnerBytes, swiftOuterBytes) && CBytesAsExpected(cInnerBytes, cOuterBytes)
  {
    LayoutChecksPass();
    SwiftByteChecksPassExactly(swiftInnerBytes, swiftOuterBytes);
    CByteChecksPassExactly(cInnerBytes, cOuterBytes);
    var c0, c1, c2, c3 := SwiftInnerLayoutChecks(), SwiftInnerByteChecks(swiftInnerBytes), SwiftOuterLayoutChecks(), SwiftOuterByteChecks(swiftOuterBytes);
    var c4, c5, c6, c7 := CInnerLayoutChecks(), CInnerByteChecks(cInnerBytes), COuterLayoutChecks(), COuterByteChecks(cOuterBytes);
    RunConcat(c0, c1);
    RunConcat(c0 + c1, c2);
    RunConcat(c0 + c1 + c2, c3);
    RunConcat(c0 + c1 + c2 + c3, c4);
    RunConcat(c0 + c1 + c2 + c3 + c4, c5);
    RunConcat(c0 + c1 + c2 + c3 + c4 + c5, c6);
    RunConcat(c0 + c1 + c2 + c3 + c4 + c5 + c6, c7);
  }

  /** Whatever the padding bytes hold, the program prints "OK!": no assert traps. */
  lemma ProgramSucceeds(swiftInnerBytes: seq<byte>, swiftOuterBytes: seq<byte>, cInnerBytes: seq<byte>, cOuterBytes: seq<byte>)
    requires Represents(swiftInnerBytes, inner, SwiftInner, SwiftFragile)
    requires Represents(swiftOuterBytes, outer, SwiftOuter, SwiftFragile)
    requires Represents(cInnerBytes, inner, CInner, CStandard)
    requires Represents(cOuterBytes, outer, COuter, CStandard)
    ensures |swiftInnerBytes| == 9 && |swiftOuterBytes| == 20 && |cInnerBytes| == 16 && |cOuterBytes| == 32
    ensures |swiftInnerBytes| == Size(SwiftInner, SwiftFragile) && |swiftOuterBytes| == Size(SwiftOuter, SwiftFragile)
    ensures |cInnerBytes| == Size(CInner, CStandard) && |cOuterBytes| == Size(COuter, CStandard)
    ensures Program(swiftInnerBytes, swiftOuterBytes, cInnerBytes, cOuterBytes).Pass?
  {
    SwiftViewsAsExpected(swiftInnerBytes, swiftOuterBytes);
    CViewsAsExpected(cInnerBytes, cOuterBytes);
    ProgramPassesExactly(swiftInnerBytes, swiftOuterBytes, cInnerBytes, cOuterBytes);
  }

  /** Any views of swiftInner and swiftOuter hold the bytes the program expects. */
  lemma SwiftViewsAsExpected(innerBytes: seq<byte>, outerBytes: seq<byte>)
    requires Represents(innerBytes, inner, SwiftInner, SwiftFragile)
    requires Represents(outerBytes, outer, SwiftOuter, SwiftFragile)
    ensures |innerBytes| == 9 && |outerBytes| == 20
    ensures SwiftBytesAsExpected(innerBytes, outerBytes)
  {
    SwiftInnerLayout();
    SwiftOuterLayout();
    InnerImage(innerBytes, SwiftFragile);
    assert innerBytes == innerBytes[..9];
    OuterImageA(outerBytes, SwiftFragile);
    OuterImageB(outerBytes, SwiftFragile);
    OuterImageC(outerBytes, SwiftFragile);
    OuterImageD(outerBytes, SwiftFragile);
  }

  /** Any views of cInner and cOuter hold the bytes the program expects. */
  lemma CViewsAsExpected(innerBytes: seq<byte>, outerBytes: seq<byte>)
    requires Represents(innerBytes, inner, CInner, CStandard)
    requires Represents(outerBytes, outer, COuter, CStandard)
    ensures |innerBytes| == 16 && |outerBytes| == 32
    ensures CBytesAsExpected(innerBytes, outerBytes)
  {
    CInnerLayout();
    COuterLayout();
    InnerImage(innerBytes, CStandard);
    OuterImageA(outerBytes, CStandard);
    OuterImageB(outerBytes, CStandard);
    OuterImageC(outerBytes, CStandard);
    OuterImageD(outerBytes, CStandard);
  }
}
