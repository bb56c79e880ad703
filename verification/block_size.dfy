/** Byte size of a uniform/buffer block: the field size table (`BlockField::byte_size`),
    the power-of-two alignment rule (`alignment`) and the block size
    (`BlockDeclaration::byte_size`). The alignment rule is the analyser's own: every field
    is rounded up to a power of two no smaller than 4, which is not the std140/std430
    rule of the OpenGL specification. */
module BlockSize {
  import opened Wrappers
  import opened Glsl
  import opened LayoutQualifiers
  import opened Declarations

  function Pow2(e: nat): (r: nat)
    ensures r >= 1
  {
    if e == 0 then 1 else 2 * Pow2(e - 1)
  }

  /** The size table; types without an entry make the source panic. */
  function TypeSize(t: TypeSpecifierNonArray): Option<nat> {
    match t
    case Void => Some(1)
    case Bool => Some(1)
    case Int => Some(4)
    case UInt => Some(4)
    case Float => Some(4)
    case Double => Some(8)
    case Vec2 => Some(8)
    case Vec3 => Some(12)
    case Vec4 => Some(16)
    case IVec2 => Some(8)
    case IVec3 => Some(12)
    case IVec4 => Some(16)
    case UVec2 => Some(8)
    case UVec3 => Some(12)
    case UVec4 => Some(16)
    case Mat2 => Some(4 * 4)
    case Mat3 => Some(9 * 4)
    case Mat4 => Some(16 * 4)
    case Mat23 => Some(6 * 4)
    case Mat24 => Some(8 * 4)
    case Mat32 => Some(6 * 4)
    case Mat34 => Some(12 * 4)
    case Mat42 => Some(8 * 4)
    case Mat43 => Some(12 * 4)
    case _ => None
  }

  predicate HasSizeEntry(t: TypeSpecifierNonArray) {
    TypeSize(t).Some?
  }

  /** `BlockField::byte_size`: the size of one element of the field's type; array
      dimensions are not taken into account. */
  function FieldByteSize(f: BlockField): (r: nat)
    requires HasSizeEntry(f.typeSpecifier)
    ensures 1 <= r <= 64
  {
    TypeSize(f.typeSpecifier).value
  }

  function AlignmentExponentFrom(x: nat, e: nat): (r: nat)
    requires e >= 2 && (e == 2 || Pow2(e - 1) < x)
    ensures r >= e && Pow2(r) >= x && (r == 2 || Pow2(r - 1) < x)
    decreases x - Pow2(e)
  {
    if Pow2(e) >= x then e else AlignmentExponentFrom(x, e + 1)
  }

  /** The exponent of `alignment(x)`: the least e >= 2 with 2^e >= x. */
  function AlignmentExponent(x: nat): (e: nat)
    ensures e >= 2 && Pow2(e) >= x
    ensures e == 2 || Pow2(e - 1) < x
  {
    AlignmentExponentFrom(x, 2)
  }

  /** `alignment(x)`: the smallest power of two that is at least `x` and at least 4. */
  function Alignment(x: nat): (r: nat)
    ensures exists e: nat :: e >= 2 && r == Pow2(e)
    ensures r >= 4 && r >= x
    ensures r == 4 || r < 2 * x
  {
    var e := AlignmentExponent(x);
    assert Pow2(e) == 2 * Pow2(e - 1);
    Pow2(e)
  }

  lemma {:induction false} Pow2Monotone(a: nat, b: nat)
    requires a <= b
    ensures Pow2(a) <= Pow2(b)
    decreases b - a
  {
    if a < b {
      Pow2Monotone(a, b - 1);
    }
  }

  /** No power of two with exponent at least 2 that covers `x` is smaller than the
      alignment of `x`. */
  lemma AlignmentIsLeast(x: nat, e: nat)
    requires e >= 2 && Pow2(e) >= x
    ensures Alignment(x) <= Pow2(e)
  {
    var a := AlignmentExponent(x);
    if a > e {
      Pow2Monotone(e, a - 1);
    }
    Pow2Monotone(a, e);
  }

  /** The documented values: 1, 2 and 4 align to 4; 8 to 8; 12 (vec3) to 16;
      36 (mat3) to 64. */
  lemma AlignmentExamples()
    ensures Alignment(1) == 4 && Alignment(2) == 4 && Alignment(4) == 4
    ensures Alignment(8) == 8 && Alignment(12) == 16 && Alignment(36) == 64
  {
    assert Pow2(2) == 4 && Pow2(3) == 8 && Pow2(4) == 16 && Pow2(5) == 32 && Pow2(6) == 64;
  }

  // ---------------------------------------------------------------------------

  /** One field's step of the size loop: an unknown type panics, a missing offset ends
      the loop with no size. */
  function FieldSizeStatus(f: BlockField): Status {
    if !HasSizeEntry(f.typeSpecifier) then Aborts
    else if f.offset.None? then Rejects
    else Accepts
  }

  function FieldsSizeStatus(fs: seq<BlockField>): Status
    decreases |fs|
  {
    if |fs| == 0 then Accepts
    else Then(FieldsSizeStatus(fs[..|fs| - 1]), FieldSizeStatus(fs[|fs| - 1]))
  }

  /** The end of a field within the block: its offset plus its aligned size. */
  function Extent(f: BlockField): nat
    requires HasSizeEntry(f.typeSpecifier) && f.offset.Some?
  {
    f.offset.value + Alignment(FieldByteSize(f))
  }

  predicate Sized(f: BlockField) {
    HasSizeEntry(f.typeSpecifier) && f.offset.Some?
  }

  /** Given that the loop does not panic, it stops without a size exactly when some
      field lacks an offset. */
  lemma {:induction false} FieldsSizeStatusRejects(fs: seq<BlockField>)
    requires FieldsSizeStatus(fs) != Aborts
    ensures FieldsSizeStatus(fs) == Rejects <==> exists i :: 0 <= i < |fs| && fs[i].offset.None?
    decreases |fs|
  {
    if |fs| > 0 {
      var p := fs[..|fs| - 1];
      FieldsSizeStatusRejects(p);
      if exists i :: 0 <= i < |p| && p[i].offset.None? {
        var i :| 0 <= i < |p| && p[i].offset.None?;
        assert fs[i] == p[i];
      }
      if exists i :: 0 <= i < |fs| && fs[i].offset.None? {
        var i :| 0 <= i < |fs| && fs[i].offset.None?;
        if i < |p| {
          assert p[i] == fs[i];
        }
      }
    }
  }

  /** The running maximum of the size loop over the fields. */
  function FieldsByteSize(fs: seq<BlockField>): (r: Option<nat>)
    requires FieldsSizeStatus(fs) != Aborts
    ensures r.None? <==> FieldsSizeStatus(fs) == Rejects
    decreases |fs|
  {
    if |fs| == 0 then Some(0)
    else
      var front := FieldsByteSize(fs[..|fs| - 1]);
      var last := fs[|fs| - 1];
      if front.None? || last.offset.None? then None
      else
        var extent := Extent(last);
        Some(if front.value >= extent then front.value else extent)
  }

  /** `m` is the largest extent among the fields, all of which are sized (0 when there
      are none). */
  predicate IsMaxExtent(fs: seq<BlockField>, m: nat) {
    (forall i :: 0 <= i < |fs| ==> Sized(fs[i]) && Extent(fs[i]) <= m) &&
    (|fs| == 0 ==> m == 0) &&
    (|fs| > 0 ==> exists i :: 0 <= i < |fs| && Sized(fs[i]) && m == Extent(fs[i]))
  }

  /** The loop's result is the largest field extent. */
  lemma {:induction false} FieldsByteSizeIsMax(fs: seq<BlockField>)
    requires FieldsSizeStatus(fs) != Aborts
    ensures FieldsByteSize(fs).Some? ==> IsMaxExtent(fs, FieldsByteSize(fs).value)
    decreases |fs|
  {
    if |fs| > 0 && FieldsByteSize(fs).Some? {
      var p := fs[..|fs| - 1];
      var last := fs[|fs| - 1];
      FieldsByteSizeIsMax(p);
      var front := FieldsByteSize(p).value;
      var m := FieldsByteSize(fs).value;
      forall i | 0 <= i < |fs|
        ensures Sized(fs[i]) && Extent(fs[i]) <= m
      {
        if i < |p| {
          assert fs[i] == p[i];
        }
      }
      if m == Extent(last) {
        assert Sized(fs[|fs| - 1]) && m == Extent(fs[|fs| - 1]);
      } else {
        var j :| 0 <= j < |p| && Sized(p[j]) && front == Extent(p[j]);
        assert fs[j] == p[j];
      }
    }
  }

  /** `BlockDeclaration::byte_size`: `None` if some field has no offset, otherwise the
      largest field extent (0 for an empty block). */
  function ByteSize(b: BlockDeclaration): (r: Option<nat>)
    requires FieldsSizeStatus(b.fields) != Aborts
    ensures r.None? <==> exists i :: 0 <= i < |b.fields| && b.fields[i].offset.None?
    ensures r.Some? ==> IsMaxExtent(b.fields, r.value)
  {
    FieldsSizeStatusRejects(b.fields);
    FieldsByteSizeIsMax(b.fields);
    FieldsByteSize(b.fields)
  }

  /** Two field lists with the same fields have the same largest extent. */
  lemma MaxExtentPermutation(a: seq<BlockField>, b: seq<BlockField>, ma: nat, mb: nat)
    requires multiset(a) == multiset(b)
    requires IsMaxExtent(a, ma) && IsMaxExtent(b, mb)
    ensures ma == mb
  {
    if |a| == 0 {
      assert |multiset(b)| == 0;
    } else {
      assert |multiset(b)| > 0;
      var i :| 0 <= i < |a| && Sized(a[i]) && ma == Extent(a[i]);
      var j :| 0 <= j < |b| && Sized(b[j]) && mb == Extent(b[j]);
      assert a[i] in multiset(b);
      assert b[j] in multiset(a);
      var i' :| 0 <= i' < |b| && b[i'] == a[i];
      var j' :| 0 <= j' < |a| && a[j'] == b[j];
      assert Extent(b[i']) <= mb;
      assert Extent(a[j']) <= ma;
    }
  }

  /** Two field lists with the same fields either both lack an offset somewhere or
      neither does. */
  lemma MissingOffsetPermutation(a: seq<BlockField>, b: seq<BlockField>, i: nat)
    requires multiset(a) == multiset(b)
    requires i < |a| && a[i].offset.None?
    ensures exists j :: 0 <= j < |b| && b[j].offset.None?
  {
    assert a[i] in multiset(b);
    var j :| 0 <= j < |b| && b[j] == a[i];
  }

  /** The block size does not depend on the order of the fields. */
  lemma ByteSizeOrderIndependent(b1: BlockDeclaration, b2: BlockDeclaration)
    requires multiset(b1.fields) == multiset(b2.fields)
    requires FieldsSizeStatus(b1.fields) != Aborts && FieldsSizeStatus(b2.fields) != Aborts
    ensures ByteSize(b1) == ByteSize(b2)
  {
    var r1, r2 := ByteSize(b1), ByteSize(b2);
    if r1.None? {
      var i :| 0 <= i < |b1.fields| && b1.fields[i].offset.None?;
      MissingOffsetPermutation(b1.fields, b2.fields, i);
    } else if r2.None? {
      var i :| 0 <= i < |b2.fields| && b2.fields[i].offset.None?;
      MissingOffsetPermutation(b2.fields, b1.fields, i);
    } else {
      MaxExtentPermutation(b1.fields, b2.fields, r1.value, r2.value);
    }
  }
}
