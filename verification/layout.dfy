/**
 * Struct layout on a 64-bit little-endian target, under two policies:
 *  - SwiftFragile: Swift's fragile struct layout. An embedded struct occupies
 *    only its size, so a later sibling may sit in its tail padding; the
 *    struct's size is the end of its last field.
 *  - CStandard: C layout (C11 section 6.7.2.1, paragraphs 15 and 17). The
 *    same placement rule, but sizeof includes trailing padding, so an
 *    embedded struct occupies its full sizeof and size equals stride.
 */
module Layout {
  import opened Wrappers

  /** The fixed-width unsigned integers the declarations use (UIntN / uintN_t). */
  datatype Scalar = U8 | U16 | U32 | U64

  /** A type's shape: a scalar, or a struct whose fields are in declaration order. */
  datatype Shape = Int(kind: Scalar) | Struct(fields: seq<Field>)

  datatype Field = Field(name: string, shape: Shape)

  datatype Policy = SwiftFragile | CStandard

  /** Where a (possibly nested) field lives, relative to the start of the outermost value. */
  datatype Loc = Loc(offset: nat, shape: Shape)

  function Width(k: Scalar): (r: nat)
  {
    match k
    case U8 => 1
    case U16 => 2
    case U32 => 4
    case U64 => 8
  }

  /** The alignments a type can have on the target. */
  predicate IsAlignment(a: nat)
  {
    a == 1 || a == 2 || a == 4 || a == 8
  }

  /** On the target every integer is aligned to its own width (uint64_t to 8). */
  function ScalarAlign(k: Scalar): (r: nat)
    ensures r == Width(k)
    ensures IsAlignment(r)
    ensures Aligned(Width(k), r)
  {
    match k
    case U8 => 1
    case U16 => 2
    case U32 => 4
    case U64 => 8
  }

  /**
   * n is a multiple of the target alignment a. Spelled out per alignment so
   * that every remainder is by a constant.
   */
  predicate Aligned(n: nat, a: nat)
  {
    if a == 8 then n % 8 == 0
    else if a == 4 then n % 4 == 0
    else if a == 2 then n % 2 == 0
    else a == 1
  }

  /** n mod a, for a target alignment a. */
  function Misalignment(n: nat, a: nat): (r: nat)
    requires IsAlignment(a)
    ensures r < a
    ensures r == 0 <==> Aligned(n, a)
  {
    if a == 8 then n % 8
    else if a == 4 then n % 4
    else if a == 2 then n % 2
    else 0
  }

  /** The smallest multiple of the alignment a that is at least n. */
  function AlignUp(n: nat, a: nat): (r: nat)
    requires IsAlignment(a)
    ensures Aligned(r, a)
    ensures n <= r < n + a
  {
    var m := Misalignment(n, a);
    if m == 0 then n else n + (a - m)
  }

  /** No multiple of a that is at least n lies below AlignUp(n, a). */
  lemma AlignUpIsLeast(n: nat, a: nat, m: nat)
    requires IsAlignment(a)
    requires Aligned(m, a) && n <= m
    ensures AlignUp(n, a) <= m
  {
    if a == 8 {
      assert n == 8 * (n / 8) + n % 8 && m == 8 * (m / 8);
      if n % 8 != 0 { assert n / 8 < m / 8; }
    } else if a == 4 {
      assert n == 4 * (n / 4) + n % 4 && m == 4 * (m / 4);
      if n % 4 != 0 { assert n / 4 < m / 4; }
    } else if a == 2 {
      assert n == 2 * (n / 2) + n % 2 && m == 2 * (m / 2);
      if n % 2 != 0 { assert n / 2 < m / 2; }
    }
  }

  /** Rounding up preserves order. */
  lemma AlignUpMonotone(m: nat, n: nat, a: nat)
    requires IsAlignment(a) && m <= n
    ensures AlignUp(m, a) <= AlignUp(n, a)
  {
    AlignUpIsLeast(m, a, AlignUp(n, a));
  }

  /** For target alignments, a multiple of the larger one is a multiple of the smaller one. */
  lemma AlignmentDivides(x: nat, small: nat, large: nat)
    requires IsAlignment(small) && IsAlignment(large) && small <= large
    requires Aligned(x, large)
    ensures Aligned(x, small)
  {
  }

  /** A struct is aligned to the largest alignment among its fields (1 when it has none). */
  function Align(s: Shape): (r: nat)
    ensures IsAlignment(r)
    decreases s, 1
  {
    match s
    case Int(k) => ScalarAlign(k)
    case Struct(fs) => MaxAlign(s, |fs|)
  }

  /** The largest alignment among the first n fields of s, starting from 1. */
  function MaxAlign(s: Shape, n: nat): (r: nat)
    requires s.Struct? && n <= |s.fields|
    ensures IsAlignment(r)
    ensures forall i :: 0 <= i < n ==> Align(s.fields[i].shape) <= r
    decreases s, 0, n
  {
    if n == 0 then 1
    else
      var prev := MaxAlign(s, n - 1);
      var here := Align(s.fields[n - 1].shape);
      if here <= prev then prev else here
  }

  /** The maximum is attained: it is 1 or the alignment of one of the first n fields. */
  lemma {:induction false} MaxAlignAttained(s: Shape, n: nat)
    requires s.Struct? && n <= |s.fields|
    ensures MaxAlign(s, n) == 1 || exists i :: 0 <= i < n && MaxAlign(s, n) == Align(s.fields[i].shape)
  {
    if n > 0 {
      MaxAlignAttained(s, n - 1);
    }
  }

  /**
   * The number of bytes a value of shape s occupies: for a scalar its width;
   * for a struct the end of its last field, rounded up to its alignment only
   * under C layout.
   */
  function Size(s: Shape, p: Policy): (r: nat)
    decreases s, 1
  {
    match s
    case Int(k) => Width(k)
    case Struct(fs) =>
      var last := End(s, |fs|, p);
      if p == SwiftFragile then last else AlignUp(last, Align(s))
  }

  /** The cursor after placing the first n fields: the end of field n - 1's region. */
  function End(s: Shape, n: nat, p: Policy): (r: nat)
    requires s.Struct? && n <= |s.fields|
    decreases s, 0, n, 1
  {
    if n == 0 then 0 else Offset(s, n - 1, p) + Size(s.fields[n - 1].shape, p)
  }

  /** Field i goes at the cursor rounded up to the field's alignment. */
  function Offset(s: Shape, i: nat, p: Policy): (r: nat)
    requires s.Struct? && i < |s.fields|
    ensures Aligned(r, Align(s.fields[i].shape))
    decreases s, 0, i + 1, 0
  {
    AlignUp(End(s, i, p), Align(s.fields[i].shape))
  }

  /**
   * The placement rule: a field starts at the least position at or after the
   * cursor that is aligned for it, so no padding beyond what alignment needs
   * is inserted.
   */
  lemma OffsetIsRoundedCursor(s: Shape, i: nat, p: Policy)
    requires s.Struct? && i < |s.fields|
    ensures End(s, i, p) <= Offset(s, i, p) < End(s, i, p) + Align(s.fields[i].shape)
    ensures forall m :: Aligned(m, Align(s.fields[i].shape)) && End(s, i, p) <= m ==> Offset(s, i, p) <= m
  {
    forall m | Aligned(m, Align(s.fields[i].shape)) && End(s, i, p) <= m
      ensures Offset(s, i, p) <= m
    {
      AlignUpIsLeast(End(s, i, p), Align(s.fields[i].shape), m);
    }
  }

  /** The distance between consecutive elements of an array: size rounded up to alignment. */
  function Stride(s: Shape, p: Policy): (r: nat)
    ensures Size(s, p) <= r < Size(s, p) + Align(s)
    ensures Aligned(r, Align(s))
  {
    AlignUp(Size(s, p), Align(s))
  }

  /** The index of the first field called name. */
  function FieldIndex(fs: seq<Field>, name: string): (r: Option<nat>)
    ensures r.Some? ==> r.value < |fs|
  {
    FieldIndexFrom(fs, name, 0)
  }

  /** The index of the first field called name at or after start. */
  function FieldIndexFrom(fs: seq<Field>, name: string, start: nat): (r: Option<nat>)
    requires start <= |fs|
    ensures r.Some? ==> start <= r.value < |fs|
    decreases |fs| - start
  {
    if start == |fs| then None
    else if fs[start].name == name then Some(start)
    else FieldIndexFrom(fs, name, start + 1)
  }

  /** The search finds the first field called name at or after start, and reports None only when there is none. */
  lemma {:induction false} FieldIndexFromFindsFirst(fs: seq<Field>, name: string, start: nat)
    requires start <= |fs|
    ensures match FieldIndexFrom(fs, name, start)
      case Some(i) => fs[i].name == name && forall j :: start <= j < i ==> fs[j].name != name
      case None => forall j :: start <= j < |fs| ==> fs[j].name != name
    decreases |fs| - start
  {
    if start < |fs| && fs[start].name != name {
      FieldIndexFromFindsFirst(fs, name, start + 1);
    }
  }

  /**
   * The field path of a chain of field names (outer.inner.b is ["inner", "b"]):
   * the index of each name in its enclosing struct; None if a name does not exist.
   */
  function Resolve(s: Shape, names: seq<string>): (r: Option<seq<nat>>)
    ensures r.Some? ==> |r.value| == |names|
    decreases s
  {
    if |names| == 0 then Some([])
    else
      match s
      case Int(_) => None
      case Struct(fs) =>
        match FieldIndex(fs, names[0])
        case None => None
        case Some(i) =>
          match Resolve(fs[i].shape, names[1..])
          case None => None
          case Some(rest) => Some([i] + rest)
  }

  /**
   * The location of the field reached by following path (field indices,
   * outermost first) from a value of shape s; None if the path leaves the shape.
   */
  function Locate(s: Shape, path: seq<nat>, p: Policy): (r: Option<Loc>)
    ensures r.Some? ==> r.value.offset + Size(r.value.shape, p) <= Size(s, p)
    ensures r.Some? ==> Align(r.value.shape) <= Align(s)
    ensures r.Some? ==> Aligned(r.value.offset, Align(r.value.shape))
    decreases s
  {
    if |path| == 0 then Some(Loc(0, s))
    else
      match s
      case Int(_) => None
      case Struct(fs) =>
        var i := path[0];
        if i >= |fs| then None
        else
          match Locate(fs[i].shape, path[1..], p)
          case None => None
          case Some(l) =>
            FieldWithinStruct(s, i, p);
            FieldAlignBelowStruct(s, i);
            var off := Offset(s, i, p);
            AlignmentDivides(off, Align(l.shape), Align(fs[i].shape));
            AlignedSum(off, l.offset, Align(l.shape));
            Some(Loc(off + l.offset, l.shape))
  }

  /** A resolved name chain is a path that exists in s, under either policy, and names the fields it passes. */
  lemma {:induction false} ResolvedPathLocates(s: Shape, names: seq<string>, p: Policy)
    requires Resolve(s, names).Some?
    ensures Locate(s, Resolve(s, names).value, p).Some?
    ensures NamesAlong(s, Resolve(s, names).value) == names
    decreases s
  {
    if |names| > 0 {
      var fs := s.fields;
      var i := FieldIndex(fs, names[0]).value;
      FieldIndexFromFindsFirst(fs, names[0], 0);
      ResolvedPathLocates(fs[i].shape, names[1..], p);
      var rest := Resolve(fs[i].shape, names[1..]).value;
      assert Resolve(s, names).value == [i] + rest;
      assert ([i] + rest)[1..] == rest;
    }
  }

  /** Within every struct of s, no two fields share a name (C and Swift both reject duplicates). */
  predicate DistinctNames(s: Shape)
    decreases s
  {
    match s
    case Int(_) => true
    case Struct(fs) =>
      && (forall i, j :: 0 <= i < j < |fs| ==> fs[i].name != fs[j].name)
      && (forall i :: 0 <= i < |fs| ==> DistinctNames(fs[i].shape))
  }

  /** Conversely, when names are distinct, every existing path is what its own names resolve to. */
  lemma {:induction false} LocatedPathResolves(s: Shape, path: seq<nat>, p: Policy)
    requires DistinctNames(s) && Locate(s, path, p).Some?
    ensures Resolve(s, NamesAlong(s, path)) == Some(path)
    decreases s
  {
    if |path| > 0 {
      var fs := s.fields;
      var i := path[0];
      var names := NamesAlong(s, path);
      assert names == [fs[i].name] + NamesAlong(fs[i].shape, path[1..]);
      FieldIndexFromFindsFirst(fs, fs[i].name, 0);
      assert FieldIndex(fs, names[0]) == Some(i);
      assert names[1..] == NamesAlong(fs[i].shape, path[1..]);
      LocatedPathResolves(fs[i].shape, path[1..], p);
      assert path == [i] + path[1..];
    }
  }

  /** The names of the fields a path passes through, outermost first. */
  function NamesAlong(s: Shape, path: seq<nat>): (r: seq<string>)
    decreases s
  {
    if |path| == 0 then []
    else
      match s
      case Int(_) => []
      case Struct(fs) =>
        if path[0] < |fs| then [fs[path[0]].name] + NamesAlong(fs[path[0]].shape, path[1..]) else []
  }

  lemma AlignedSum(x: nat, y: nat, a: nat)
    requires IsAlignment(a) && Aligned(x, a) && Aligned(y, a)
    ensures Aligned(x + y, a)
  {
    if a == 8 {
      var k := x / 8 + y / 8;
      assert x + y == 8 * k && (x + y) / 8 == k;
    } else if a == 4 {
      var k := x / 4 + y / 4;
      assert x + y == 4 * k && (x + y) / 4 == k;
    } else if a == 2 {
      var k := x / 2 + y / 2;
      assert x + y == 2 * k && (x + y) / 2 == k;
    }
  }

  // ---------------------------------------------------------------------------
  // Properties of the layout
  // ---------------------------------------------------------------------------

  /** A struct's alignment is at least that of every field. */
  lemma FieldAlignBelowStruct(s: Shape, i: nat)
    requires s.Struct? && i < |s.fields|
    ensures Align(s.fields[i].shape) <= Align(s)
  {
  }

  /** The cursor after field i is the end of field i's region. */
  lemma EndAfterField(s: Shape, i: nat, n: nat, p: Policy)
    requires s.Struct? && i < |s.fields| && n == i + 1
    ensures End(s, n, p) == Offset(s, i, p) + Size(s.fields[i].shape, p)
  {
  }

  /** The cursor never moves backwards. */
  lemma {:induction false} EndMonotone(s: Shape, i: nat, j: nat, p: Policy)
    requires s.Struct? && i <= j <= |s.fields|
    ensures End(s, i, p) <= End(s, j, p)
    decreases j
  {
    if i < j {
      EndMonotone(s, i, j - 1, p);
      EndAfterField(s, j - 1, j, p);
    }
  }

  /** Fields never overlap: a later field starts no earlier than an earlier one ends. */
  lemma FieldsDisjoint(s: Shape, i: nat, j: nat, p: Policy)
    requires s.Struct? && i < j < |s.fields|
    ensures Offset(s, i, p) + Size(s.fields[i].shape, p) <= Offset(s, j, p)
  {
    EndAfterField(s, i, i + 1, p);
    EndMonotone(s, i + 1, j, p);
    assert End(s, j, p) <= Offset(s, j, p);
  }

  /** Every field's region lies inside the struct's size. */
  lemma FieldWithinStruct(s: Shape, i: nat, p: Policy)
    requires s.Struct? && i < |s.fields|
    ensures Offset(s, i, p) + Size(s.fields[i].shape, p) <= Size(s, p)
  {
    EndAfterField(s, i, i + 1, p);
    EndMonotone(s, i + 1, |s.fields|, p);
  }

  /** There is no leading padding: the first field is at offset 0. */
  lemma FirstFieldAtZero(s: Shape, p: Policy)
    requires s.Struct? && |s.fields| > 0
    ensures Offset(s, 0, p) == 0
  {
  }

  /** Under Swift layout the last field ends exactly at the size: size excludes tail padding. */
  lemma SwiftSizeEndsAtLastField(s: Shape)
    requires s.Struct? && |s.fields| > 0
    ensures var n := |s.fields| - 1;
      Size(s, SwiftFragile) == Offset(s, n, SwiftFragile) + Size(s.fields[n].shape, SwiftFragile)
  {
  }

  /** Under C layout the size is the end of the last field plus less than one alignment of padding. */
  lemma CSizeAddsOnlyTailPadding(s: Shape)
    requires s.Struct? && |s.fields| > 0
    ensures var n := |s.fields| - 1;
      var last := Offset(s, n, CStandard) + Size(s.fields[n].shape, CStandard);
      last <= Size(s, CStandard) < last + Align(s)
  {
  }

  /** Stride is the least multiple of the alignment that holds the size. */
  lemma StrideIsLeastAlignedCover(s: Shape, p: Policy, m: nat)
    requires Aligned(m, Align(s)) && Size(s, p) <= m
    ensures Size(s, p) <= Stride(s, p) <= m
    ensures Aligned(Stride(s, p), Align(s))
  {
    AlignUpIsLeast(Size(s, p), Align(s), m);
  }

  /** Under C layout sizeof is already a multiple of the alignment, so size equals stride. */
  lemma CSizeIsStride(s: Shape)
    ensures Aligned(Size(s, CStandard), Align(s))
    ensures Size(s, CStandard) == Stride(s, CStandard)
  {
    match s
    case Int(k) =>
    case Struct(fs) =>
  }

  /**
   * C layout never lets a field land in an earlier field's tail padding:
   * each later field starts at or after the earlier one's full stride.
   */
  lemma CNeverReusesTailPadding(s: Shape, i: nat, j: nat)
    requires s.Struct? && i < j < |s.fields|
    ensures Offset(s, i, CStandard) + Stride(s.fields[i].shape, CStandard) <= Offset(s, j, CStandard)
  {
    FieldsDisjoint(s, i, j, CStandard);
    CSizeIsStride(s.fields[i].shape);
  }

  /** Swift layout is never larger than C layout: sizes, and so strides, are bounded by C's. */
  lemma {:induction false} SwiftNoLargerThanC(s: Shape)
    ensures Size(s, SwiftFragile) <= Size(s, CStandard)
    ensures Stride(s, SwiftFragile) <= Stride(s, CStandard)
    decreases s, 1
  {
    match s
    case Int(k) =>
    case Struct(fs) =>
      SwiftEndNoLaterThanC(s, |fs|);
    AlignUpMonotone(Size(s, SwiftFragile), Size(s, CStandard), Align(s));
  }

  /** Every field is placed at least as early under Swift layout as under C layout. */
  lemma {:induction false} SwiftEndNoLaterThanC(s: Shape, n: nat)
    requires s.Struct? && n <= |s.fields|
    ensures End(s, n, SwiftFragile) <= End(s, n, CStandard)
    ensures n < |s.fields| ==> Offset(s, n, SwiftFragile) <= Offset(s, n, CStandard)
    decreases s, 0, n
  {
    if n > 0 {
      SwiftEndNoLaterThanC(s, n - 1);
      SwiftNoLargerThanC(s.fields[n - 1].shape);
    }
    if n < |s.fields| {
      AlignUpMonotone(End(s, n, SwiftFragile), End(s, n, CStandard), Align(s.fields[n].shape));
    }
  }
}
