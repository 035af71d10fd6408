/**
 * The raw bytes of an instance: each scalar field's little-endian encoding
 * placed at the field's computed offset. Padding bytes have no defined
 * value, so the view is partial (None at padding) and a concrete byte image
 * is any sequence of the right length that agrees with it where it is defined.
 */
module Memory {
  import opened Wrappers
  import opened Encoding
  import opened Layout

  /** An instance: a number for a scalar field, the field values for a struct. */
  datatype Value = Num(n: nat) | Record(fields: seq<Value>)

  /** v is a well-typed instance of s: every number fits its field's width. */
  predicate Conforms(v: Value, s: Shape)
    decreases s
  {
    match s
    case Int(k) => v.Num? && v.n < Pow256(Width(k))
    case Struct(fs) =>
      && v.Record?
      && |v.fields| == |fs|
      && forall i {:trigger Conforms(v.fields[i], fs[i].shape)} :: 0 <= i < |fs| ==> Conforms(v.fields[i], fs[i].shape)
  }

  /** The value reached by following path (field indices) from v. */
  function ValueAt(v: Value, path: seq<nat>): (r: Option<Value>)
  {
    if |path| == 0 then Some(v)
    else if v.Record? && path[0] < |v.fields| then ValueAt(v.fields[path[0]], path[1..])
    else None
  }

  /** Byte k lies in the region field i occupies. */
  predicate InField(s: Shape, i: nat, k: nat, p: Policy)
    requires s.Struct? && i < |s.fields|
  {
    Offset(s, i, p) <= k < Offset(s, i, p) + Size(s.fields[i].shape, p)
  }

  /** The field among the first n of s whose region holds byte k, if any (searched from the last). */
  function FieldContaining(s: Shape, k: nat, p: Policy, n: nat): (r: Option<nat>)
    requires s.Struct? && n <= |s.fields|
    ensures r.Some? ==> r.value < n && InField(s, r.value, k, p)
  {
    if n == 0 then None
    else if InField(s, n - 1, k, p) then Some(n - 1)
    else FieldContaining(s, k, p, n - 1)
  }

  /** Byte k of an instance: Some(b) inside a field, None in padding. */
  function ByteAt(v: Value, s: Shape, p: Policy, k: nat): (r: Option<byte>)
    requires Conforms(v, s)
    decreases s
  {
    match s
    case Int(kind) => if k < Width(kind) then Some(LE(v.n, Width(kind))[k]) else None
    case Struct(fs) =>
      match FieldContaining(s, k, p, |fs|)
      case None => None
      case Some(i) => ByteAt(v.fields[i], fs[i].shape, p, k - Offset(s, i, p))
  }

  /** The view defines no byte at or past the value's size. */
  lemma ByteAtWithinSize(v: Value, s: Shape, p: Policy, k: nat)
    requires Conforms(v, s) && ByteAt(v, s, p, k).Some?
    ensures k < Size(s, p)
  {
    if s.Struct? {
      var i := FieldContaining(s, k, p, |s.fields|).value;
      FieldWithinStruct(s, i, p);
    }
  }

  /**
   * mem is a possible raw image of v laid out under p: it is exactly Size bytes
   * long (the buffer withUnsafeBytes(of:) or a byte pointer to the object sees)
   * and holds the defined byte wherever the view has one. Padding is free.
   */
  predicate Represents(mem: seq<byte>, v: Value, s: Shape, p: Policy)
  {
    && Conforms(v, s)
    && |mem| == Size(s, p)
    && forall k {:trigger ByteAt(v, s, p, k)} :: 0 <= k < |mem| && ByteAt(v, s, p, k).Some? ==> mem[k] == ByteAt(v, s, p, k).value
  }

  /**
   * One raw image of v: the view's byte wherever it is defined, 0 in padding.
   * Every conforming instance has an image, so Represents can always be met.
   */
  function ZeroPaddedImage(v: Value, s: Shape, p: Policy): (mem: seq<byte>)
    requires Conforms(v, s)
    ensures Represents(mem, v, s, p)
  {
    seq(Size(s, p), k requires 0 <= k => if ByteAt(v, s, p, k).Some? then ByteAt(v, s, p, k).value else 0)
  }

  /** A byte outside every field's region is found in no field. */
  lemma {:induction false} FieldContainingNone(s: Shape, k: nat, p: Policy, n: nat)
    requires s.Struct? && n <= |s.fields|
    requires forall i :: 0 <= i < n ==> !InField(s, i, k, p)
    ensures FieldContaining(s, k, p, n).None?
  {
    if n > 0 {
      FieldContainingNone(s, k, p, n - 1);
    }
  }

  /** Padding has no defined value: a byte outside every field's region reads as None. */
  lemma PaddingIsUndefined(v: Value, s: Shape, p: Policy, k: nat)
    requires Conforms(v, s) && s.Struct?
    requires forall i :: 0 <= i < |s.fields| ==> !InField(s, i, k, p)
    ensures ByteAt(v, s, p, k) == None
  {
    FieldContainingNone(s, k, p, |s.fields|);
  }

  /** Byte k belongs to field i only: no other field's region holds it. */
  lemma {:induction false} FieldContainingIsUnique(s: Shape, i: nat, k: nat, p: Policy, n: nat)
    requires s.Struct? && i < n <= |s.fields|
    requires InField(s, i, k, p)
    ensures FieldContaining(s, k, p, n) == Some(i)
    decreases n
  {
    if i < n - 1 {
      FieldsDisjoint(s, i, n - 1, p);
      FieldContainingIsUnique(s, i, k, p, n - 1);
    }
  }

  /** Inside a struct, a byte that falls in field i's region is read from field i. */
  lemma ByteAtStep(v: Value, s: Shape, p: Policy, i: nat, k: nat, k': nat)
    requires Conforms(v, s) && s.Struct? && i < |s.fields|
    requires FieldContaining(s, k, p, |s.fields|) == Some(i)
    requires k == Offset(s, i, p) + k'
    ensures ByteAt(v, s, p, k) == ByteAt(v.fields[i], s.fields[i].shape, p, k')
  {
    assert k - Offset(s, i, p) == k';
  }

  /** Byte k' of field i's own view is byte Offset(i) + k' of the struct's view. */
  lemma ByteInField(v: Value, s: Shape, p: Policy, i: nat, k: nat, k': nat)
    requires Conforms(v, s) && s.Struct? && i < |s.fields|
    requires k' < Size(s.fields[i].shape, p)
    requires k == Offset(s, i, p) + k'
    ensures Conforms(v.fields[i], s.fields[i].shape)
    ensures ByteAt(v, s, p, k) == ByteAt(v.fields[i], s.fields[i].shape, p, k')
  {
    assert InField(s, i, k, p);
    FieldContainingIsUnique(s, i, k, p, |s.fields|);
    ByteAtStep(v, s, p, i, k, k');
  }

  /** One step of Locate: the field's location is the inner location shifted by the field's offset. */
  lemma LocateStep(s: Shape, path: seq<nat>, p: Policy, l: Loc) returns (l': Loc)
    requires |path| > 0 && Locate(s, path, p) == Some(l)
    ensures s.Struct? && path[0] < |s.fields|
    ensures Locate(s.fields[path[0]].shape, path[1..], p) == Some(l')
    ensures l == Loc(Offset(s, path[0], p) + l'.offset, l'.shape)
  {
    l' := Locate(s.fields[path[0]].shape, path[1..], p).value;
  }

  /**
   * An embedded value keeps its own layout, shifted by its location: the bytes
   * of the outer instance over the field's region are the bytes of the field's
   * own instance, padding included.
   */
  lemma {:induction false} EmbeddedView(v: Value, s: Shape, p: Policy, path: seq<nat>, l: Loc, j: nat, k: nat)
    requires Conforms(v, s)
    requires Locate(s, path, p) == Some(l)
    requires j < Size(l.shape, p) && k == l.offset + j
    ensures ValueAt(v, path).Some? && Conforms(ValueAt(v, path).value, l.shape)
    ensures ByteAt(v, s, p, k) == ByteAt(ValueAt(v, path).value, l.shape, p, j)
    decreases s
  {
    if |path| == 0 {
      assert ValueAt(v, path) == Some(v);
      assert k == j;
    } else {
      var l' := LocateStep(s, path, p, l);
      var i := path[0];
      var k' := l'.offset + j;
      assert ValueAt(v, path) == ValueAt(v.fields[i], path[1..]);
      EmbeddedView(v.fields[i], s.fields[i].shape, p, path[1..], l', j, k');
      ByteInField(v, s, p, i, k, k');
    }
  }

  /** The bytes of a scalar field are the little-endian encoding of its value, at its offset. */
  lemma FieldBytes(v: Value, s: Shape, p: Policy, path: seq<nat>, l: Loc, j: nat, k: nat)
    requires Conforms(v, s)
    requires Locate(s, path, p) == Some(l) && l.shape.Int?
    requires j < Width(l.shape.kind) && k == l.offset + j
    ensures ValueAt(v, path).Some? && ValueAt(v, path).value.Num?
    ensures ByteAt(v, s, p, k) == Some(LE(ValueAt(v, path).value.n, Width(l.shape.kind))[j])
  {
    EmbeddedView(v, s, p, path, l, j, k);
  }

  /** A raw image holds the defined byte wherever the view has one. */
  lemma DefinedByte(mem: seq<byte>, v: Value, s: Shape, p: Policy, k: nat)
    requires Represents(mem, v, s, p)
    requires ByteAt(v, s, p, k).Some?
    ensures k < |mem| && mem[k] == ByteAt(v, s, p, k).value
  {
    ByteAtWithinSize(v, s, p, k);
  }

  /** Element j of the slice s[lo..hi] is element lo + j of s. */
  lemma SliceIndex<T>(s: seq<T>, lo: nat, hi: nat, j: nat, k: nat)
    requires lo <= hi <= |s| && j < hi - lo && k == lo + j
    ensures s[lo..hi][j] == s[k]
  {
  }

  /** In any raw image of v, byte j of a scalar field's region is byte j of the value's encoding. */
  lemma FieldByteInImage(mem: seq<byte>, v: Value, s: Shape, p: Policy, path: seq<nat>, l: Loc, j: nat)
    requires Represents(mem, v, s, p)
    requires Locate(s, path, p) == Some(l) && l.shape.Int?
    requires j < Width(l.shape.kind)
    ensures ValueAt(v, path).Some? && ValueAt(v, path).value.Num?
    ensures l.offset + Width(l.shape.kind) <= |mem|
    ensures mem[l.offset..l.offset + Width(l.shape.kind)][j] == LE(ValueAt(v, path).value.n, Width(l.shape.kind))[j]
  {
    var k := l.offset + j;
    FieldBytes(v, s, p, path, l, j, k);
    DefinedByte(mem, v, s, p, k);
    SliceIndex(mem, l.offset, l.offset + Width(l.shape.kind), j, k);
  }

  /**
   * In any raw image of v, the bytes over a scalar field's region are exactly
   * the little-endian encoding of the field's value.
   */
  lemma FieldSlice(mem: seq<byte>, v: Value, s: Shape, p: Policy, path: seq<nat>, l: Loc)
    requires Represents(mem, v, s, p)
    requires Locate(s, path, p) == Some(l) && l.shape.Int?
    ensures ValueAt(v, path).Some? && ValueAt(v, path).value.Num?
    ensures l.offset + Width(l.shape.kind) <= |mem|
    ensures mem[l.offset..l.offset + Width(l.shape.kind)] == LE(ValueAt(v, path).value.n, Width(l.shape.kind))
  {
    FieldByteInImage(mem, v, s, p, path, l, 0);
    forall j | 0 <= j < Width(l.shape.kind)
      ensures mem[l.offset..l.offset + Width(l.shape.kind)][j] == LE(ValueAt(v, path).value.n, Width(l.shape.kind))[j]
    {
      FieldByteInImage(mem, v, s, p, path, l, j);
    }
  }

  /** Reading a scalar field's bytes back out of any raw image gives the field's value. */
  lemma FieldRoundTrip(mem: seq<byte>, v: Value, s: Shape, p: Policy, path: seq<nat>, l: Loc)
    requires Represents(mem, v, s, p)
    requires Locate(s, path, p) == Some(l) && l.shape.Int?
    ensures ValueAt(v, path).Some? && ValueAt(v, path).value.Num?
    ensures l.offset + Width(l.shape.kind) <= |mem|
    ensures FromLE(mem[l.offset..l.offset + Width(l.shape.kind)]) == ValueAt(v, path).value.n
  {
    FieldSlice(mem, v, s, p, path, l);
    EmbeddedView(v, s, p, path, l, 0, l.offset);
    FromLEOfLE(ValueAt(v, path).value.n, Width(l.shape.kind));
  }

  /** The image of a value whose field at path holds x has x's little-endian bytes at that field's offset. */
  lemma FieldImage(mem: seq<byte>, v: Value, s: Shape, p: Policy, path: seq<nat>, l: Loc, x: nat, bytes: seq<byte>)
    requires Represents(mem, v, s, p)
    requires Locate(s, path, p) == Some(l) && l.shape.Int?
    requires ValueAt(v, path) == Some(Num(x)) && LE(x, Width(l.shape.kind)) == bytes
    ensures l.offset + |bytes| <= |mem| && mem[l.offset..l.offset + |bytes|] == bytes
  {
    FieldSlice(mem, v, s, p, path, l);
  }
}
