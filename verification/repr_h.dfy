/**
 * The two C declarations of repr.h and the layout facts C's rules give them
 * on the 64-bit little-endian target.
 */
module ReprH {
  import opened Wrappers
  import opened Layout

  /** typedef struct { uint64_t b; uint8_t c; } c_inner; */
  const CInner: Shape := Struct([Field("b", Int(U64)), Field("c", Int(U8))])

  /** typedef struct { uint32_t a; c_inner inner; uint16_t d; } c_outer; */
  const COuter: Shape := Struct([Field("a", Int(U32)), Field("inner", CInner), Field("d", Int(U16))])

  /** c_inner: alignment 8, sizeof 16 (9 bytes of members and 7 of tail padding), stride 16. */
  lemma CInnerLayout()
    ensures Align(CInner) == 8
    ensures Offset(CInner, 0, CStandard) == 0 && Offset(CInner, 1, CStandard) == 8
    ensures End(CInner, 2, CStandard) == 9
    ensures Size(CInner, CStandard) == 16 && Stride(CInner, CStandard) == 16
  {
  }

  /**
   * c_outer: a at 0 (no leading padding); inner moves from cursor 4 up to 8,
   * leaving 4 bytes of padding; inner occupies its full sizeof, so d is at 24;
   * members end at 26 and sizeof rounds up to 32.
   */
  lemma COuterLayout()
    ensures Align(COuter) == 8
    ensures Offset(COuter, 0, CStandard) == 0
    ensures End(COuter, 1, CStandard) == 4 && Offset(COuter, 1, CStandard) == 8
    ensures Offset(COuter, 2, CStandard) == 24
    ensures End(COuter, 3, CStandard) == 26
    ensures Size(COuter, CStandard) == 32 && Stride(COuter, CStandard) == 32
  {
    CInnerLayout();
  }

  /** Neither declaration repeats a member name, so a member chain names exactly one path. */
  lemma DeclarationsHaveDistinctNames()
    ensures DistinctNames(CInner) && DistinctNames(COuter)
  {
  }
}
