/**
 * The validity-range analysis behind the invalid-value checks: the wrapping ranges rustc
 * attaches to scalars, containment between them, the requirements a type imposes at each
 * byte offset, the requirements an assignment to a field must check, and the condition a
 * check evaluates.
 */
module CheckValues {
  import opened Wrappers
  import OperandCodegen
  import Goto

  function Pow2(n: nat): (r: nat)
    ensures r >= 1
  {
    if n == 0 then 1 else 2 * Pow2(n - 1)
  }

  // ---------------------------------------------------------------------------
  // Wrapping ranges
  // ---------------------------------------------------------------------------

  /**
   * rustc's valid range of a scalar: `start..=end`, wrapping around the top of the
   * scalar's width when `start > end`.
   */
  datatype WrappingRange = WrappingRange(start: nat, end: nat)

  predicate WrapsAround(r: WrappingRange) { r.start > r.end }

  /** Whether the scalar value `v` is in the range. */
  predicate InRange(r: WrappingRange, v: nat)
  {
    if WrapsAround(r) then v >= r.start || v <= r.end else r.start <= v <= r.end
  }

  /** Both bounds are values of a `bits`-wide scalar. */
  predicate FitsIn(r: WrappingRange, bits: nat)
  {
    r.start < Pow2(bits) && r.end < Pow2(bits)
  }

  /** rustc's `is_full`: the value after `end`, wrapping at the top of the width, is `start`. */
  predicate IsFull(r: WrappingRange, bits: nat)
  {
    r.start == if r.end + 1 == Pow2(bits) then 0 else r.end + 1
  }

  /** A range is full exactly when it admits every value of its width. */
  lemma {:induction false} IsFullIffAll(r: WrappingRange, bits: nat)
    requires FitsIn(r, bits)
    ensures IsFull(r, bits) <==> forall v :: 0 <= v < Pow2(bits) ==> InRange(r, v)
  {
    var m := Pow2(bits);
    if !IsFull(r, bits) {
      if WrapsAround(r) {
        assert !InRange(r, r.end + 1);
      } else if r.start > 0 {
        assert !InRange(r, 0);
      } else {
        assert !InRange(r, m - 1);
      }
    }
  }

  /** Whether `r1` contains `r2`, decided on the bounds and the wrap status alone. */
  predicate RangeContains(r1: WrappingRange, r2: WrappingRange, bits: nat)
  {
    match (WrapsAround(r1), WrapsAround(r2))
    case (true, true) => r1.start <= r2.start && r1.end >= r2.end
    case (false, false) => r1.start <= r2.start && r1.end >= r2.end
    case (true, false) => r1.start <= r2.start || r1.end >= r2.end
    case (false, true) => IsFull(r1, bits)
  }

  /** The decision is sound: when it says `r1` contains `r2`, every value in `r2` is in `r1`. */
  lemma {:induction false} RangeContainsSound(r1: WrappingRange, r2: WrappingRange, bits: nat, v: nat)
    requires FitsIn(r1, bits) && FitsIn(r2, bits) && v < Pow2(bits)
    requires RangeContains(r1, r2, bits) && InRange(r2, v)
    ensures InRange(r1, v)
  {
    if !WrapsAround(r1) && WrapsAround(r2) {
      IsFullIffAll(r1, bits);
    }
  }

  /** The decision is exact between non-wrapping, non-empty ranges. */
  lemma {:induction false} RangeContainsExact(r1: WrappingRange, r2: WrappingRange, bits: nat)
    requires !WrapsAround(r1) && !WrapsAround(r2)
    requires forall v: nat :: InRange(r2, v) ==> InRange(r1, v)
    ensures RangeContains(r1, r2, bits)
  {
    assert InRange(r2, r2.start);
    assert InRange(r2, r2.end);
  }

  // ---------------------------------------------------------------------------
  // Requirements
  // ---------------------------------------------------------------------------

  /** The valid values: one range, or the union of two (only `char` has two). */
  datatype ValidityRange = Single(range: WrappingRange) | Multiple(first: WrappingRange, second: WrappingRange)

  /** The value stored at byte `offset`, `size` bytes wide, must be in `validRange`. */
  datatype ValidValueReq = ValidValueReq(offset: nat, size: nat, validRange: ValidityRange)

  predicate Accepts(vr: ValidityRange, v: nat)
  {
    match vr
    case Single(r) => InRange(r, v)
    case Multiple(r1, r2) => InRange(r1, v) || InRange(r2, v)
  }

  predicate ReqFits(req: ValidValueReq)
  {
    match req.validRange
    case Single(r) => FitsIn(r, 8 * req.size)
    case Multiple(r1, r2) => FitsIn(r1, 8 * req.size) && FitsIn(r2, 8 * req.size)
  }

  /** A requirement every value meets; never the case for two ranges. */
  predicate ReqIsFull(req: ValidValueReq)
  {
    req.validRange.Single? && IsFull(req.validRange.range, 8 * req.size)
  }

  /** A full requirement rules out no value. */
  lemma {:induction false} ReqIsFullAcceptsAll(req: ValidValueReq, v: nat)
    requires ReqFits(req) && ReqIsFull(req) && v < Pow2(8 * req.size)
    ensures Accepts(req.validRange, v)
  {
    IsFullIffAll(req.validRange.range, 8 * req.size);
  }

  /**
   * Whether `a`'s valid values include `b`'s, range by range: a single range inside two
   * must be inside one of them, and two ranges must each be inside.
   */
  predicate Contains(a: ValidValueReq, b: ValidValueReq)
    requires a.size == b.size
  {
    var bits := 8 * a.size;
    match (a.validRange, b.validRange)
    case (Single(r), Single(s)) => RangeContains(r, s, bits)
    case (Multiple(r1, r2), Single(s)) => RangeContains(r1, s, bits) || RangeContains(r2, s, bits)
    case (Single(r), Multiple(s1, s2)) => RangeContains(r, s1, bits) && RangeContains(r, s2, bits)
    case (Multiple(r1, r2), Multiple(s1, s2)) =>
      (RangeContains(r1, s1, bits) || RangeContains(r2, s1, bits))
      && (RangeContains(r1, s2, bits) || RangeContains(r2, s2, bits))
  }

  /** Containment is sound: a value `b` accepts, `a` accepts. */
  lemma {:induction false} ContainsSound(a: ValidValueReq, b: ValidValueReq, v: nat)
    requires a.size == b.size && ReqFits(a) && ReqFits(b) && v < Pow2(8 * a.size)
    requires Contains(a, b) && Accepts(b.validRange, v)
    ensures Accepts(a.validRange, v)
  {
    var bits := 8 * a.size;
    match (a.validRange, b.validRange) {
      case (Single(r), Single(s)) =>
        RangeContainsSound(r, s, bits, v);
      case (Multiple(r1, r2), Single(s)) =>
        if RangeContains(r1, s, bits) {
          RangeContainsSound(r1, s, bits, v);
        } else {
          RangeContainsSound(r2, s, bits, v);
        }
      case (Single(r), Multiple(s1, s2)) =>
        if InRange(s1, v) {
          RangeContainsSound(r, s1, bits, v);
        } else {
          RangeContainsSound(r, s2, bits, v);
        }
      case (Multiple(r1, r2), Multiple(s1, s2)) =>
        var s := if InRange(s1, v) then s1 else s2;
        if RangeContains(r1, s, bits) {
          RangeContainsSound(r1, s, bits, v);
        } else {
          RangeContainsSound(r2, s, bits, v);
        }
    }
  }

  /** The requirement of `char`: 4 bytes at offset 0, `0..=0xD7FF` or `0xE000..=0x10FFFF`. */
  const CHAR_REQ: ValidValueReq :=
    ValidValueReq(0, 4, Multiple(WrappingRange(0, 0xD7FF), WrappingRange(0xE000, 0x10FFFF)))

  /** A Unicode scalar value: a code point that is not a surrogate (Unicode Standard, section 3.9, D76). */
  predicate IsUnicodeScalarValue(v: nat)
  {
    v <= 0x10FFFF && !(0xD800 <= v <= 0xDFFF)
  }

  /** The `char` requirement accepts exactly the Unicode scalar values. */
  lemma {:induction false} CharReqIsScalarValues(v: nat)
    ensures Accepts(CHAR_REQ.validRange, v) <==> IsUnicodeScalarValue(v)
    ensures ReqFits(CHAR_REQ) && !ReqIsFull(CHAR_REQ)
  {
    assert Pow2(32) == 0x1_0000_0000 by {
      assert Pow2(8) == 0x100;
      assert Pow2(16) == 0x1_0000;
      assert Pow2(24) == 0x100_0000;
    }
  }

  // ---------------------------------------------------------------------------
  // Types
  // ---------------------------------------------------------------------------

  /** A field at its byte offset; field lists are in memory (offset) order. */
  datatype FieldAt = FieldAt(offset: nat, ty: Ty)

  /**
   * A type as the analysis sees it: whether it is `char`, the size and valid range of
   * its first scalar when its ABI is an initialised scalar or scalar pair, the shape of
   * its layout, and the index of its first sized field in memory order (for structs).
   */
  datatype Ty = Ty(isChar: bool, scalar: Option<Scalar>, shape: Shape, firstSizedField: Option<nat>)

  datatype Scalar = Scalar(size: nat, validRange: WrappingRange)

  datatype Shape =
    | PrimitiveShape
    | ArrayShape(elem: Ty, stride: nat, count: nat)
    | UnionShape
    | EnumShape(name: string, variants: EnumVariants)
    | StructShape(fields: seq<FieldAt>)
    | PatShape(base: Ty)
    | TupleShape(fields: seq<FieldAt>)
    | PointerShape
    | UnsupportedShape(description: string)

  /** How an enum's variants are laid out. */
  datatype EnumVariants =
    | NoVariants
    | SingleVariant(fields: seq<FieldAt>)
    | NicheVariants
    | TaggedVariants(variants: seq<Variant>)

  datatype Variant = Variant(fields: seq<FieldAt>)

  /** The requirement a type's own ABI imposes at offset 0, if its ABI is a scalar (or `char`). */
  function TryFromTy(ty: Ty): (r: Option<ValidValueReq>)
    ensures ty.isChar ==> r == Some(CHAR_REQ)
    ensures !ty.isChar ==> (r.Some? <==> ty.scalar.Some?)
    ensures r.Some? ==> r.value.offset == 0
  {
    if ty.isChar then Some(CHAR_REQ)
    else match ty.scalar
      case Some(s) => Some(ValidValueReq(0, s.size, Single(s.validRange)))
      case None => None
  }

  /** The type's own requirement moved to `offset`, unless it has none or it is full. */
  function TyReq(ty: Ty, offset: nat): (reqs: seq<ValidValueReq>)
    ensures |reqs| <= 1
    ensures forall r :: r in reqs ==> !ReqIsFull(r) && r.offset == offset
    ensures reqs != [] <==> TryFromTy(ty).Some? && !ReqIsFull(TryFromTy(ty).value)
    ensures reqs != [] ==> reqs[0].size == TryFromTy(ty).value.size && reqs[0].validRange == TryFromTy(ty).value.validRange
  {
    match TryFromTy(ty)
    case Some(req) => if ReqIsFull(req) then [] else [req.(offset := offset)]
    case None => []
  }

  function Shift(reqs: seq<ValidValueReq>, delta: nat): (shifted: seq<ValidValueReq>)
    ensures |shifted| == |reqs|
    ensures forall k :: 0 <= k < |reqs| ==> shifted[k] == reqs[k].(offset := reqs[k].offset + delta)
  {
    seq(|reqs|, k requires 0 <= k < |reqs| => reqs[k].(offset := reqs[k].offset + delta))
  }

  /** The requirements of `count` array elements: the element's, shifted by `idx * stride` for each index in turn. */
  function Repeat(reqs: seq<ValidValueReq>, stride: nat, count: nat): seq<ValidValueReq>
  {
    if count == 0 then [] else Repeat(reqs, stride, count - 1) + Shift(reqs, (count - 1) * stride)
  }

  const UNSUPPORTED_ENUM_PREFIX: string := "Unsupported Enum `"

  function EnumMessage(name: string): string { UNSUPPORTED_ENUM_PREFIX + name + "` check" }

  /**
   * The requirements of a type at `offset`, or why they cannot be expressed: primitives
   * carry their own, arrays repeat their element's, structs add their fields' (in memory
   * order) to their own, pattern types add their base's (at offset 0), single-variant enums
   * behave like structs, tagged enums carry only the tag's requirement and fail when a
   * field has one, niche enums and unsupported types fail, and unions, empty arrays and
   * pointers' metadata impose nothing beyond their own.
   */
  function Validity(ty: Ty, offset: nat): Result<seq<ValidValueReq>, string>
    decreases ty, 2
  {
    match ty.shape
    case PrimitiveShape => Ok(TyReq(ty, offset))
    case ArrayShape(elem, stride, count) =>
      if count == 0 then Ok([])
      else match Validity(elem, offset) {
        case Err(e) => Err(e)
        case Ok(elemReqs) => Ok(if elemReqs == [] then [] else Repeat(elemReqs, stride, count))
      }
    case UnionShape => Ok([])
    case EnumShape(name, variants) => match variants {
      case NoVariants => Ok([])
      case SingleVariant(fields) => FieldsValidity(fields, offset, ty)
      case NicheVariants => Err(EnumMessage(name))
      case TaggedVariants(vs) =>
        match VariantsValidity(vs, offset, ty) {
          case Err(e) => Err(e)
          case Ok(fieldReqs) => if fieldReqs == [] then Ok(TyReq(ty, offset)) else Err(EnumMessage(name))
        }
    }
    case StructShape(fields) =>
      match FieldsValidity(fields, offset, ty) {
        case Err(e) => Err(e)
        case Ok(fieldReqs) => Ok(TyReq(ty, offset) + fieldReqs)
      }
    case PatShape(base) =>
      match Validity(base, 0) {
        case Err(e) => Err(e)
        case Ok(baseReqs) => Ok(TyReq(ty, offset) + baseReqs)
      }
    case TupleShape(fields) => FieldsValidity(fields, offset, ty)
    case PointerShape => Ok(TyReq(ty, offset))
    case UnsupportedShape(description) => Err("Unsupported " + description)
  }

  /** The fields' requirements, in order, each at the field's offset; the first failure wins. */
  function FieldsValidity(fields: seq<FieldAt>, offset: nat, ghost parent: Ty): Result<seq<ValidValueReq>, string>
    requires forall i :: 0 <= i < |fields| ==> fields[i].ty < parent
    decreases parent, 0, |fields|
  {
    if fields == [] then Ok([])
    else
      var last := fields[|fields| - 1];
      match FieldsValidity(fields[..|fields| - 1], offset, parent) {
        case Err(e) => Err(e)
        case Ok(before) => match Validity(last.ty, last.offset + offset) {
          case Err(e) => Err(e)
          case Ok(here) => Ok(before + here)
        }
      }
  }

  /** The requirements of every variant's fields, variant by variant. */
  function VariantsValidity(vs: seq<Variant>, offset: nat, ghost parent: Ty): Result<seq<ValidValueReq>, string>
    requires forall v :: 0 <= v < |vs| ==> vs[v] < parent
    decreases parent, 1, |vs|
  {
    if vs == [] then Ok([])
    else
      var last := vs[|vs| - 1];
      match VariantsValidity(vs[..|vs| - 1], offset, parent) {
        case Err(e) => Err(e)
        case Ok(before) => match FieldsValidity(last.fields, offset, parent) {
          case Err(e) => Err(e)
          case Ok(here) => Ok(before + here)
        }
      }
  }

  predicate NoneFull(reqs: seq<ValidValueReq>)
  {
    forall r :: r in reqs ==> !ReqIsFull(r)
  }

  lemma {:induction false} RepeatNoneFull(reqs: seq<ValidValueReq>, stride: nat, count: nat)
    requires NoneFull(reqs)
    ensures NoneFull(Repeat(reqs, stride, count))
  {
    if count > 0 {
      RepeatNoneFull(reqs, stride, count - 1);
      var shifted := Shift(reqs, (count - 1) * stride);
      forall r | r in shifted ensures !ReqIsFull(r) {
        var k :| 0 <= k < |shifted| && shifted[k] == r;
        assert reqs[k] in reqs;
      }
    }
  }

  /** Every shifted copy has exactly the element's requirements, so `count` copies hold `count` times as many. */
  lemma {:induction false} RepeatLength(reqs: seq<ValidValueReq>, stride: nat, count: nat)
    ensures |Repeat(reqs, stride, count)| == count * |reqs|
  {
    if count > 0 {
      RepeatLength(reqs, stride, count - 1);
      assert (count - 1) * |reqs| + |reqs| == count * |reqs|;
    }
  }

  lemma {:induction false} MulLe(a: nat, b: nat, n: nat)
    requires a <= b
    ensures a * n <= b * n
    decreases b - a
  {
    if a < b {
      MulLe(a, b - 1, n);
      assert b * n == (b - 1) * n + n;
    }
  }

  /** Requirement `j` of copy `idx` is the element's requirement `j`, `idx * stride` bytes further. */
  lemma {:induction false} RepeatAt(reqs: seq<ValidValueReq>, stride: nat, count: nat, idx: nat, j: nat)
    requires idx < count && j < |reqs|
    ensures idx * |reqs| + j < |Repeat(reqs, stride, count)|
    ensures Repeat(reqs, stride, count)[idx * |reqs| + j] == reqs[j].(offset := reqs[j].offset + idx * stride)
  {
    var n := |reqs|;
    var k := idx * n + j;
    var before := Repeat(reqs, stride, count - 1);
    RepeatLength(reqs, stride, count - 1);
    assert |before| == (count - 1) * n;
    assert Repeat(reqs, stride, count) == before + Shift(reqs, (count - 1) * stride);
    if idx < count - 1 {
      MulLe(idx + 1, count - 1, n);
      assert (idx + 1) * n == k - j + n;
      RepeatAt(reqs, stride, count - 1, idx, j);
    } else {
      assert k == |before| + j;
    }
  }

  /** Full ranges never become requirements: everything the analysis returns restricts something. */
  lemma {:induction false} ValidityNoneFull(ty: Ty, offset: nat)
    requires Validity(ty, offset).Ok?
    ensures NoneFull(Validity(ty, offset).value)
    decreases ty, 2
  {
    match ty.shape {
      case PrimitiveShape =>
      case ArrayShape(elem, stride, count) =>
        if count > 0 {
          ValidityNoneFull(elem, offset);
          RepeatNoneFull(Validity(elem, offset).value, stride, count);
        }
      case UnionShape =>
      case EnumShape(name, variants) =>
        if variants.SingleVariant? {
          FieldsNoneFull(variants.fields, offset, ty);
        }
      case StructShape(fields) =>
        FieldsNoneFull(fields, offset, ty);
      case PatShape(base) =>
        ValidityNoneFull(base, 0);
      case TupleShape(fields) =>
        FieldsNoneFull(fields, offset, ty);
      case PointerShape =>
      case UnsupportedShape(_) =>
    }
  }

  lemma {:induction false} FieldsNoneFull(fields: seq<FieldAt>, offset: nat, parent: Ty)
    requires forall i :: 0 <= i < |fields| ==> fields[i].ty < parent
    requires FieldsValidity(fields, offset, parent).Ok?
    ensures NoneFull(FieldsValidity(fields, offset, parent).value)
    decreases parent, 0, |fields|
  {
    if fields != [] {
      var last := fields[|fields| - 1];
      FieldsNoneFull(fields[..|fields| - 1], offset, parent);
      ValidityNoneFull(last.ty, last.offset + offset);
    }
  }

  /** A failure in any field is the failure of the whole list. */
  lemma {:induction false} FieldsErrPropagates(fields: seq<FieldAt>, n: nat, offset: nat, parent: Ty)
    requires forall i :: 0 <= i < |fields| ==> fields[i].ty < parent
    requires n <= |fields| && FieldsValidity(fields[..n], offset, parent).Err?
    ensures FieldsValidity(fields, offset, parent) == FieldsValidity(fields[..n], offset, parent)
    decreases |fields| - n
  {
    if n < |fields| {
      assert fields[..n + 1][..n] == fields[..n];
      FieldsErrPropagates(fields, n + 1, offset, parent);
    } else {
      assert fields[..n] == fields;
    }
  }

  lemma {:induction false} VariantsErrPropagates(vs: seq<Variant>, n: nat, offset: nat, parent: Ty)
    requires forall v :: 0 <= v < |vs| ==> vs[v] < parent
    requires n <= |vs| && VariantsValidity(vs[..n], offset, parent).Err?
    ensures VariantsValidity(vs, offset, parent) == VariantsValidity(vs[..n], offset, parent)
    decreases |vs| - n
  {
    if n < |vs| {
      assert vs[..n + 1][..n] == vs[..n];
      VariantsErrPropagates(vs, n + 1, offset, parent);
    } else {
      assert vs[..n] == vs;
    }
  }

  /**
   * `ty_validity_per_offset`: the requirements of `ty` at `offset`, accumulated field by
   * field and element by element.
   */
  method TyValidityPerOffset(ty: Ty, offset: nat) returns (r: Result<seq<ValidValueReq>, string>)
    ensures r == Validity(ty, offset)
    decreases ty, 1
  {
    match ty.shape {
      case PrimitiveShape =>
        r := Ok(TyReq(ty, offset));
      case ArrayShape(elem, stride, count) =>
        if count == 0 {
          return Ok([]);
        }
        var elemValidity := TyValidityPerOffset(elem, offset);
        if elemValidity.Err? {
          return Err(elemValidity.error);
        }
        var result: seq<ValidValueReq> := [];
        if elemValidity.value != [] {
          for idx := 0 to count
            invariant result == Repeat(elemValidity.value, stride, idx)
          {
            result := result + Shift(elemValidity.value, idx * stride);
          }
        }
        r := Ok(result);
      case UnionShape =>
        r := Ok([]);
      case EnumShape(name, variants) =>
        match variants {
          case NoVariants =>
            r := Ok([]);
          case SingleVariant(fields) =>
            r := FieldsValidityPerOffset(fields, offset, ty);
          case NicheVariants =>
            r := Err(EnumMessage(name));
          case TaggedVariants(vs) =>
            var enumValidity := TyReq(ty, offset);
            var fieldsValidity: seq<ValidValueReq> := [];
            for v := 0 to |vs|
              invariant VariantsValidity(vs[..v], offset, ty) == Ok(fieldsValidity)
            {
              var here := FieldsValidityPerOffset(vs[v].fields, offset, ty);
              assert vs[..v + 1][..v] == vs[..v];
              if here.Err? {
                VariantsErrPropagates(vs, v + 1, offset, ty);
                return Err(here.error);
              }
              fieldsValidity := fieldsValidity + here.value;
            }
            assert vs[..|vs|] == vs;
            if fieldsValidity == [] {
              r := Ok(enumValidity);
            } else {
              r := Err(EnumMessage(name));
            }
        }
      case StructShape(fields) =>
        var structValidity := TyReq(ty, offset);
        var fieldsValidity := FieldsValidityPerOffset(fields, offset, ty);
        if fieldsValidity.Err? {
          return Err(fieldsValidity.error);
        }
        r := Ok(structValidity + fieldsValidity.value);
      case PatShape(base) =>
        var patValidity := TyReq(ty, offset);
        var baseValidity := TyValidityPerOffset(base, 0);
        if baseValidity.Err? {
          return Err(baseValidity.error);
        }
        r := Ok(patValidity + baseValidity.value);
      case TupleShape(fields) =>
        r := FieldsValidityPerOffset(fields, offset, ty);
      case PointerShape =>
        r := Ok(TyReq(ty, offset));
      case UnsupportedShape(description) =>
        r := Err("Unsupported " + description);
    }
  }

  /** The loop over a list of fields in memory order, stopping at the first failure. */
  method FieldsValidityPerOffset(fields: seq<FieldAt>, offset: nat, ghost parent: Ty)
    returns (r: Result<seq<ValidValueReq>, string>)
    requires forall i :: 0 <= i < |fields| ==> fields[i].ty < parent
    ensures r == FieldsValidity(fields, offset, parent)
    decreases parent, 0
  {
    var acc: seq<ValidValueReq> := [];
    for i := 0 to |fields|
      invariant FieldsValidity(fields[..i], offset, parent) == Ok(acc)
    {
      var here := TyValidityPerOffset(fields[i].ty, fields[i].offset + offset);
      assert fields[..i + 1][..i] == fields[..i];
      if here.Err? {
        FieldsErrPropagates(fields, i + 1, offset, parent);
        return Err(here.error);
      }
      acc := acc + here.value;
    }
    assert fields[..|fields|] == fields;
    r := Ok(acc);
  }

  // ---------------------------------------------------------------------------
  // Tagged enums: the field offsets as written
  // ---------------------------------------------------------------------------

  /** A variant's field with its index in the variant, as `fields_by_offset_order` yields them. */
  datatype IndexedField = IndexedField(index: nat, field: FieldAt)

  /**
   * The field walk of a tagged enum's variant as written: the offset of field `index` is
   * read from the enum's own field offsets, which for a tagged enum hold only the tag, and
   * an index past them is the out-of-bounds panic, `None`.
   */
  function TaggedFieldsAsWritten(fields: seq<IndexedField>, enumOffsets: seq<nat>, offset: nat): (r: Option<Result<seq<ValidValueReq>, string>>)
    ensures (forall k :: 0 <= k < |fields| ==> fields[k].index < |enumOffsets|) ==> r.Some?
    ensures |fields| > 0 && fields[0].index >= |enumOffsets| ==> r.None?
  {
    if fields == [] then Some(Ok([]))
    else if fields[0].index >= |enumOffsets| then None
    else match Validity(fields[0].field.ty, enumOffsets[fields[0].index] + offset)
      case Err(e) => Some(Err(e))
      case Ok(here) => match TaggedFieldsAsWritten(fields[1..], enumOffsets, offset)
        case Some(Ok(rest)) => Some(Ok(here + rest))
        case other => other
  }

  /** Every variant's fields in turn, as written; the first failure or panic ends the walk. */
  function TaggedVariantsAsWritten(vs: seq<seq<IndexedField>>, enumOffsets: seq<nat>, offset: nat): Option<Result<seq<ValidValueReq>, string>>
  {
    if vs == [] then Some(Ok([]))
    else match TaggedFieldsAsWritten(vs[0], enumOffsets, offset)
      case Some(Ok(here)) => (match TaggedVariantsAsWritten(vs[1..], enumOffsets, offset)
        case Some(Ok(rest)) => Some(Ok(here + rest))
        case other => other)
      case other => other
  }

  /** The `Multiple` arm of `ty_validity_per_offset` as written; `None` is the panic. */
  function TaggedEnumAsWritten(ty: Ty, name: string, vs: seq<seq<IndexedField>>, enumOffsets: seq<nat>, offset: nat): Option<Result<seq<ValidValueReq>, string>>
  {
    match TaggedVariantsAsWritten(vs, enumOffsets, offset)
    case None => None
    case Some(Err(e)) => Some(Err(e))
    case Some(Ok(reqs)) => Some(if reqs == [] then Ok(TyReq(ty, offset)) else Err(EnumMessage(name)))
  }

  /** `u8`: a one-byte scalar whose valid range is full. */
  const U8: Ty := Ty(false, Some(Scalar(1, WrappingRange(0, 255))), PrimitiveShape, None)

  /** `enum E { A(u8, u8), B }` with a one-byte tag at offset 0: `A`'s fields sit at 1 and 2. */
  const TWO_FIELD_ENUM: Ty :=
    Ty(false, Some(Scalar(1, WrappingRange(0, 1))),
       EnumShape("E", TaggedVariants([Variant([FieldAt(1, U8), FieldAt(2, U8)]), Variant([])])), None)

  /**
   * For `enum E { A(u8, u8), B }` the walk as written reads the offset of `A`'s second
   * field at index 1 of the enum's offsets, which hold only the tag, and panics; walking
   * each variant's fields at their own offsets finds no field requirement and keeps the
   * tag's.
   */
  lemma TaggedEnumPanicsAsWritten()
    ensures TaggedEnumAsWritten(TWO_FIELD_ENUM, "E",
      [[IndexedField(0, FieldAt(1, U8)), IndexedField(1, FieldAt(2, U8))], []], [0], 0).None?
    ensures Validity(TWO_FIELD_ENUM, 0) == Ok([ValidValueReq(0, 1, Single(WrappingRange(0, 1)))])
  {
    var a := [IndexedField(0, FieldAt(1, U8)), IndexedField(1, FieldAt(2, U8))];
    assert TaggedFieldsAsWritten(a[1..], [0], 0).None?;
    assert Pow2(8) == 256 by {
      assert Pow2(4) == 16;
    }
    assert TyReq(U8, 1) == [] && TyReq(U8, 2) == [];
    assert Validity(U8, 1) == Ok([]) && Validity(U8, 2) == Ok([]);
    var fields := [FieldAt(1, U8), FieldAt(2, U8)];
    var vs := [Variant(fields), Variant([])];
    assert TWO_FIELD_ENUM.shape == EnumShape("E", TaggedVariants(vs));
    assert vs[0] in vs && fields[0] in fields && fields[1] in fields;
    assert U8 < TWO_FIELD_ENUM;
    assert NoFieldReqs(fields, 0) by {
      assert Validity(fields[0].ty, fields[0].offset + 0) == Ok([]);
      assert Validity(fields[1].ty, fields[1].offset + 0) == Ok([]);
    }
    assert NoFieldReqs(vs[1].fields, 0);
    VariantsValidityEmpty(vs, 0, TWO_FIELD_ENUM);
    assert Pow2(8) != 2;
  }

  /** No field has a requirement at its own offset. */
  ghost predicate NoFieldReqs(fields: seq<FieldAt>, offset: nat)
  {
    forall i :: 0 <= i < |fields| ==> Validity(fields[i].ty, fields[i].offset + offset) == Ok([])
  }

  lemma {:induction false} FieldsValidityEmpty(fields: seq<FieldAt>, offset: nat, parent: Ty)
    requires forall i :: 0 <= i < |fields| ==> fields[i].ty < parent
    ensures FieldsValidity(fields, offset, parent) == Ok([]) <==> NoFieldReqs(fields, offset)
  {
    if fields != [] {
      var n := |fields|;
      var prefix := fields[..n - 1];
      var last := Validity(fields[n - 1].ty, fields[n - 1].offset + offset);
      FieldsValidityEmpty(prefix, offset, parent);
      assert NoFieldReqs(fields, offset) <==> NoFieldReqs(prefix, offset) && last == Ok([]) by {
        assert forall i :: 0 <= i < n - 1 ==> prefix[i] == fields[i];
      }
      match FieldsValidity(prefix, offset, parent) {
        case Err(_) =>
        case Ok(before) =>
          if last.Ok? {
            assert FieldsValidity(fields, offset, parent) == Ok(before + last.value);
            assert before + last.value == [] <==> before == [] && last.value == [];
          }
      }
    } else {
      assert NoFieldReqs(fields, offset);
    }
  }

  lemma {:induction false} VariantsValidityEmpty(vs: seq<Variant>, offset: nat, parent: Ty)
    requires forall v :: 0 <= v < |vs| ==> vs[v] < parent
    ensures VariantsValidity(vs, offset, parent) == Ok([]) <==> forall v :: 0 <= v < |vs| ==> NoFieldReqs(vs[v].fields, offset)
  {
    if vs != [] {
      var n := |vs|;
      var prefix := vs[..n - 1];
      var last := FieldsValidity(vs[n - 1].fields, offset, parent);
      VariantsValidityEmpty(prefix, offset, parent);
      FieldsValidityEmpty(vs[n - 1].fields, offset, parent);
      assert (forall v :: 0 <= v < n ==> NoFieldReqs(vs[v].fields, offset)) <==>
        (forall v :: 0 <= v < n - 1 ==> NoFieldReqs(prefix[v].fields, offset)) && NoFieldReqs(vs[n - 1].fields, offset) by {
        assert forall v :: 0 <= v < n - 1 ==> prefix[v] == vs[v];
      }
      match VariantsValidity(prefix, offset, parent) {
        case Err(_) =>
        case Ok(before) =>
          if last.Ok? {
            assert VariantsValidity(vs, offset, parent) == Ok(before + last.value);
            assert before + last.value == [] <==> before == [] && last.value == [];
          }
      }
    }
  }

  /**
   * A tagged enum is accepted exactly when no field of any variant has a requirement at
   * the field's own offset, and then it carries only the tag's requirement: the walk reads
   * no offset from the enum's own layout, so it cannot run past it.
   */
  lemma {:induction false} TaggedEnumValidity(ty: Ty, offset: nat)
    requires ty.shape.EnumShape? && ty.shape.variants.TaggedVariants?
    ensures Validity(ty, offset).Ok? <==>
      forall v :: 0 <= v < |ty.shape.variants.variants| ==> NoFieldReqs(ty.shape.variants.variants[v].fields, offset)
    ensures Validity(ty, offset).Ok? ==> Validity(ty, offset) == Ok(TyReq(ty, offset))
  {
    VariantsValidityEmpty(ty.shape.variants.variants, offset, ty);
  }

  // ---------------------------------------------------------------------------
  // Assignments to fields
  // ---------------------------------------------------------------------------

  /** A projection of a place: a field with its type, or any other step with the type it yields. */
  datatype Proj = FieldProj(idx: nat, fieldTy: Ty) | OtherProj(resultTy: Ty)

  /**
   * Whether assigning through field `idx` of `ty` must keep `ty`'s requirement: the field
   * is the first sized one in memory, `ty` has a requirement that is not full, and it is
   * as wide as the assigned value's.
   */
  predicate RestrictsField(ty: Ty, idx: nat, rvalueReq: ValidValueReq)
  {
    && ty.firstSizedField == Some(idx)
    && TryFromTy(ty).Some?
    && !ReqIsFull(TryFromTy(ty).value)
    && TryFromTy(ty).value.size == rvalueReq.size
  }

  /** The type reached and the requirements collected after the projections `projs` from `ty`. */
  function CheckPointsAfter(ty: Ty, projs: seq<Proj>, rvalueReq: ValidValueReq): (Ty, seq<ValidValueReq>)
  {
    if projs == [] then (ty, [])
    else
      var (cur, ranges) := CheckPointsAfter(ty, projs[..|projs| - 1], rvalueReq);
      match projs[|projs| - 1]
      case FieldProj(idx, fieldTy) =>
        if RestrictsField(cur, idx, rvalueReq) then
          var dest := TryFromTy(cur).value;
          (fieldTy, if !Contains(dest, rvalueReq) then ranges + [dest] else ranges)
        else
          (fieldTy, [])
      case OtherProj(resultTy) => (resultTy, ranges)
  }

  /**
   * `assignment_check_points`: the requirements an assignment of a value of type
   * `rvalueTy` to the place `local.projs` must check.
   */
  method AssignmentCheckPoints(localTy: Ty, projs: seq<Proj>, rvalueTy: Ty) returns (ranges: seq<ValidValueReq>)
    ensures TryFromTy(rvalueTy).None? ==> ranges == []
    ensures TryFromTy(rvalueTy).Some? ==> ranges == CheckPointsAfter(localTy, projs, TryFromTy(rvalueTy).value).1
  {
    var ty := localTy;
    var rvalueRange := TryFromTy(rvalueTy);
    if rvalueRange.None? {
      return [];
    }
    ranges := [];
    for i := 0 to |projs|
      invariant CheckPointsAfter(localTy, projs[..i], rvalueRange.value) == (ty, ranges)
    {
      assert projs[..i + 1][..i] == projs[..i];
      match projs[i] {
        case FieldProj(idx, fieldTy) =>
          if RestrictsField(ty, idx, rvalueRange.value) {
            var destValid := TryFromTy(ty).value;
            if !Contains(destValid, rvalueRange.value) {
              ranges := ranges + [destValid];
            }
          } else {
            ranges := [];
          }
          ty := fieldTy;
        case OtherProj(resultTy) =>
          ty := resultTy;
      }
    }
    assert projs[..|projs|] == projs;
  }

  /**
   * Every requirement kept is one the assigned value may violate: it is not full, as wide
   * as the value, sits at offset 0 of its type, and does not contain the value's range.
   */
  lemma {:induction false} CheckPointsNeeded(ty: Ty, projs: seq<Proj>, rvalueReq: ValidValueReq)
    ensures forall r :: r in CheckPointsAfter(ty, projs, rvalueReq).1 ==>
      && !ReqIsFull(r) && r.size == rvalueReq.size && r.offset == 0 && !Contains(r, rvalueReq)
  {
    if projs != [] {
      CheckPointsNeeded(ty, projs[..|projs| - 1], rvalueReq);
    }
  }

  /** A path ending in a field that is not the restricted first field checks nothing. */
  lemma {:induction false} CheckPointsResetByOtherField(ty: Ty, projs: seq<Proj>, idx: nat, fieldTy: Ty, rvalueReq: ValidValueReq)
    requires !RestrictsField(CheckPointsAfter(ty, projs, rvalueReq).0, idx, rvalueReq)
    ensures CheckPointsAfter(ty, projs + [FieldProj(idx, fieldTy)], rvalueReq) == (fieldTy, [])
  {
    assert (projs + [FieldProj(idx, fieldTy)])[..|projs|] == projs;
  }

  /** A path without field projections checks nothing. */
  lemma {:induction false} CheckPointsNeedField(ty: Ty, projs: seq<Proj>, rvalueReq: ValidValueReq)
    requires forall i :: 0 <= i < |projs| ==> projs[i].OtherProj?
    ensures CheckPointsAfter(ty, projs, rvalueReq).1 == []
  {
    if projs != [] {
      CheckPointsNeedField(ty, projs[..|projs| - 1], rvalueReq);
    }
  }

  // ---------------------------------------------------------------------------
  // The emitted check
  // ---------------------------------------------------------------------------

  /** The unsigned type of a requirement's width in bytes; other widths cannot occur. */
  function UintTyOf(bytes: nat): (r: Option<OperandCodegen.UintTy>)
    ensures r.Some? <==> bytes in {1, 2, 4, 8, 16}
    ensures r.Some? ==> OperandCodegen.GotoType(OperandCodegen.UintT(r.value)) == Goto.Unsigned(8 * bytes)
  {
    match bytes
    case 1 => Some(OperandCodegen.U8)
    case 2 => Some(OperandCodegen.U16)
    case 4 => Some(OperandCodegen.U32)
    case 8 => Some(OperandCodegen.U64)
    case 16 => Some(OperandCodegen.U128)
    case _ => None
  }

  /** The boolean the inserted statements compute from the value read. */
  datatype Cond = Ge(lower: nat) | Le(upper: nat) | BitOr(l: Cond, r: Cond) | BitAnd(l: Cond, r: Cond)

  function Eval(c: Cond, v: nat): bool
  {
    match c
    case Ge(lower) => v >= lower
    case Le(upper) => v <= upper
    case BitOr(l, r) => Eval(l, v) || Eval(r, v)
    case BitAnd(l, r) => Eval(l, v) && Eval(r, v)
  }

  /** What `build_limits` inserts: read the value at `offset` as `width`, then compute `cond`. */
  datatype Limits = Limits(offset: nat, width: OperandCodegen.UintTy, cond: Cond)

  function SingleLimit(r: WrappingRange): Cond
  {
    if WrapsAround(r) then BitOr(Ge(r.start), Le(r.end)) else BitAnd(Ge(r.start), Le(r.end))
  }

  function BuildLimits(req: ValidValueReq): Option<Limits>
  {
    match UintTyOf(req.size)
    case None => None
    case Some(width) =>
      var cond := match req.validRange {
        case Single(r) => SingleLimit(r)
        case Multiple(r1, r2) => BitOr(SingleLimit(r1), SingleLimit(r2))
      };
      Some(Limits(req.offset, width, cond))
  }

  /**
   * The check reads the requirement's bytes as an unsigned integer of the requirement's
   * width and holds exactly for the values the requirement accepts.
   */
  lemma {:induction false} BuildLimitsExact(req: ValidValueReq, v: nat)
    requires req.size in {1, 2, 4, 8, 16}
    ensures BuildLimits(req).Some?
    ensures BuildLimits(req).value.offset == req.offset
    ensures OperandCodegen.GotoType(OperandCodegen.UintT(BuildLimits(req).value.width)) == Goto.Unsigned(8 * req.size)
    ensures Eval(BuildLimits(req).value.cond, v) <==> Accepts(req.validRange, v)
  {
    match req.validRange {
      case Single(r) =>
        assert Eval(SingleLimit(r), v) == InRange(r, v);
      case Multiple(r1, r2) =>
        assert Eval(SingleLimit(r1), v) == InRange(r1, v);
        assert Eval(SingleLimit(r2), v) == InRange(r2, v);
    }
  }
}
