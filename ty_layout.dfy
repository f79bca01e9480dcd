/**
 * Byte-mask layouts for the uninitialised-memory checks: which bytes of a type hold data
 * and which are padding, the layout of what a pointer points to, and the comparisons of
 * two such layouts that decide whether a transmute or a copy keeps initialisation intact.
 */
module TyLayout {
  import opened Wrappers

  // ---------------------------------------------------------------------------
  // Data chunks and byte masks
  // ---------------------------------------------------------------------------

  /** A run of data bytes: `size` bytes starting at byte `offset`. */
  datatype DataBytes = DataBytes(offset: nat, size: nat)

  predicate InChunk(c: DataBytes, i: nat)
  {
    c.offset <= i < c.offset + c.size
  }

  /** Whether byte `i` lies in one of the chunks. */
  predicate Covers(chunks: seq<DataBytes>, i: nat)
  {
    exists k :: 0 <= k < |chunks| && InChunk(chunks[k], i)
  }

  /** The data/padding mask of the `size` bytes that start at byte `origin`. */
  function Window(origin: nat, size: nat, chunks: seq<DataBytes>): seq<bool>
  {
    seq(size, i requires 0 <= i < size => Covers(chunks, origin + i))
  }

  /** The data/padding mask of bytes `0 .. n`: `true` marks a data byte, `false` padding. */
  function ByteMask(n: nat, chunks: seq<DataBytes>): seq<bool>
  {
    Window(0, n, chunks)
  }

  lemma {:induction false} CoversSnoc(chunks: seq<DataBytes>, c: DataBytes, i: nat)
    ensures Covers(chunks + [c], i) <==> Covers(chunks, i) || InChunk(c, i)
  {
    var all := chunks + [c];
    if Covers(all, i) {
      var k :| 0 <= k < |all| && InChunk(all[k], i);
      if k < |chunks| {
        assert all[k] == chunks[k];
      }
    }
    if Covers(chunks, i) {
      var k :| 0 <= k < |chunks| && InChunk(chunks[k], i);
      assert all[k] == chunks[k];
    }
    if InChunk(c, i) {
      assert all[|chunks|] == c;
    }
  }

  /**
   * `generate_byte_mask`: start from `n` padding bytes and mark every byte of every chunk
   * as data, ignoring the part of a chunk that lies beyond the mask.
   */
  method GenerateByteMask(n: nat, chunks: seq<DataBytes>) returns (mask: seq<bool>)
    ensures |mask| == n
    ensures forall i :: 0 <= i < n ==> (mask[i] <==> exists k :: 0 <= k < |chunks| && chunks[k].offset <= i < chunks[k].offset + chunks[k].size)
    ensures mask == ByteMask(n, chunks)
  {
    var a := new bool[n](_ => false);
    for k := 0 to |chunks|
      invariant forall i :: 0 <= i < n ==> (a[i] <==> Covers(chunks[..k], i))
    {
      var c := chunks[k];
      var lo := if c.offset < n then c.offset else n;
      var hi := if c.offset + c.size < n then c.offset + c.size else n;
      for j := lo to hi
        invariant forall i :: 0 <= i < n ==> (a[i] <==> Covers(chunks[..k], i) || lo <= i < j)
      {
        a[j] := true;
      }
      assert chunks[..k + 1] == chunks[..k] + [c];
      forall i | 0 <= i < n
        ensures a[i] <==> Covers(chunks[..k + 1], i)
      {
        CoversSnoc(chunks[..k], c, i);
      }
    }
    assert chunks[..|chunks|] == chunks;
    mask := a[..];
    assert mask == ByteMask(n, chunks);
  }

  /** The mask of two chunk lists together marks a byte iff either list's mask does. */
  lemma {:induction false} ByteMaskAppend(n: nat, a: seq<DataBytes>, b: seq<DataBytes>, i: nat)
    requires i < n
    ensures ByteMask(n, a + b)[i] <==> ByteMask(n, a)[i] || ByteMask(n, b)[i]
  {
    var ab := a + b;
    if Covers(ab, i) {
      var k :| 0 <= k < |ab| && InChunk(ab[k], i);
      if k < |a| {
        assert ab[k] == a[k];
      } else {
        assert ab[k] == b[k - |a|];
      }
    }
    if Covers(a, i) {
      var k :| 0 <= k < |a| && InChunk(a[k], i);
      assert ab[k] == a[k];
    }
    if Covers(b, i) {
      var k :| 0 <= k < |b| && InChunk(b[k], i);
      assert ab[|a| + k] == b[k];
    }
  }

  // ---------------------------------------------------------------------------
  // Types as the layout computation sees them
  // ---------------------------------------------------------------------------

  /** A field at its byte offset; field lists are given in memory (offset) order. */
  datatype FieldAt = FieldAt(offset: nat, ty: Ty)

  datatype Variant = Variant(fields: seq<FieldAt>)

  /** How an enum's variants are laid out. */
  datatype EnumVariants =
    | NoVariants
    | SingleVariant(fields: seq<FieldAt>)
    | NicheVariants
      /** A tag of `tagSize` bytes at offset 0, then each variant's fields. */
    | TaggedVariants(tagSize: nat, variants: seq<Variant>)

  /**
   * A type: its size in bytes, whether it is sized, and the shape of its layout together
   * with the kind of type where the computation depends on it.
   */
  datatype Ty = Ty(size: nat, isSized: bool, shape: Shape)

  datatype Shape =
      /** A primitive whose ABI is an initialised scalar of `scalarSize` bytes. */
    | ScalarShape(scalarSize: nat)
    | ArrayShape(elem: Ty, stride: nat, count: nat)
    | StructShape(fields: seq<FieldAt>)
    | TupleShape(fields: seq<FieldAt>)
      /** A pattern type over `base`. */
    | PatShape(base: Ty)
    | EnumShape(variants: EnumVariants)
      /** A thin raw pointer or reference: a single scalar. */
    | ThinPtrShape(ptrSize: nat)
      /** A fat raw pointer or reference: a scalar pair at the given offsets. */
    | FatPtrShape(data: DataBytes, metadata: DataBytes)
      /** A union, with the types of its fields. */
    | UnionShape(members: seq<Ty>)
    | StrShape
    | SliceShape(elem: Ty)
      /** A trait object. */
    | DynShape
      /** Function items and pointers, closures, coroutines and foreign types. */
    | UnsupportedShape

  datatype LayoutError =
    | UnknownUnsizedLayout(ty: Ty)
    | EnumWithNicheEncoding(ty: Ty)
    | EnumWithMultiplePaddingVariants(ty: Ty)
    | UnsupportedType(ty: Ty)
    | UnionAsField(ty: Ty)

  function ShiftChunks(chunks: seq<DataBytes>, delta: nat): (shifted: seq<DataBytes>)
    ensures |shifted| == |chunks|
    ensures forall k :: 0 <= k < |chunks| ==> shifted[k] == chunks[k].(offset := chunks[k].offset + delta)
  {
    seq(|chunks|, k requires 0 <= k < |chunks| => chunks[k].(offset := chunks[k].offset + delta))
  }

  /** The chunks of `count` array elements: the element's, moved by `idx * stride` for each index in turn. */
  function Repeat(chunks: seq<DataBytes>, stride: nat, count: nat): seq<DataBytes>
  {
    if count == 0 then [] else Repeat(chunks, stride, count - 1) + ShiftChunks(chunks, (count - 1) * stride)
  }

  /**
   * Which bytes the masks of a tagged enum's variants are compared over: bytes
   * `0 .. size` of the whole object (`FromZero`), or the enum's own bytes
   * `offset .. offset + size` (`FromOffset`).
   */
  datatype MaskWindow = FromZero | FromOffset

  /** Whether every variant has the same data/padding mask as the first one, over `size` bytes from `origin`. */
  predicate SameMasks(perVariant: seq<seq<DataBytes>>, origin: nat, size: nat)
  {
    |perVariant| > 0 && forall v :: 0 <= v < |perVariant| ==> Window(origin, size, perVariant[v]) == Window(origin, size, perVariant[0])
  }

  /**
   * The data chunks of `ty` placed at `offset`, or why they cannot be computed:
   * - a primitive is one chunk of its scalar's size;
   * - an array of `count > 0` elements repeats its element's chunks every `stride`
   *   bytes, while empty arrays, slices and `str` have none;
   * - structs, tuples and single-variant enums are the concatenation of their fields'
   *   chunks in memory order;
   * - a pattern type has its base's chunks, computed at offset 0;
   * - a directly tagged enum is its tag chunk, followed by the first variant's chunks
   *   when every variant has the same mask, and fails otherwise;
   * - a niche-encoded enum, a union, and function, closure, coroutine, foreign and trait
   *   object types fail;
   * - a thin pointer is one chunk, a fat pointer two.
   */
  function Chunks(ty: Ty, offset: nat, window: MaskWindow): Result<seq<DataBytes>, LayoutError>
    decreases ty, 2
  {
    match ty.shape
    case ScalarShape(scalarSize) => Ok([DataBytes(offset, scalarSize)])
    case ArrayShape(elem, stride, count) =>
      if count == 0 then Ok([])
      else match Chunks(elem, offset, window) {
        case Err(e) => Err(e)
        case Ok(elemChunks) => Ok(if elemChunks == [] then [] else Repeat(elemChunks, stride, count))
      }
    case StructShape(fields) => FieldChunks(fields, offset, window, ty)
    case TupleShape(fields) => FieldChunks(fields, offset, window, ty)
    case PatShape(base) => Chunks(base, 0, window)
    case EnumShape(variants) => match variants {
      case NoVariants => Ok([])
      case SingleVariant(fields) => FieldChunks(fields, offset, window, ty)
      case NicheVariants => Err(EnumWithNicheEncoding(ty))
      case TaggedVariants(tagSize, vs) =>
        var tag := [DataBytes(offset, tagSize)];
        match VariantChunks(vs, offset, window, ty) {
          case Err(e) => Err(e)
          case Ok(perVariant) =>
            var origin := if window == FromZero then 0 else offset;
            if perVariant == [] then Ok(tag)
            else if SameMasks(perVariant, origin, ty.size) then Ok(tag + perVariant[0])
            else Err(EnumWithMultiplePaddingVariants(ty))
        }
    }
    case ThinPtrShape(ptrSize) => Ok([DataBytes(offset, ptrSize)])
    case FatPtrShape(data, metadata) =>
      Ok([DataBytes(offset + data.offset, data.size), DataBytes(offset + metadata.offset, metadata.size)])
    case UnionShape(_) => Err(UnionAsField(ty))
    case StrShape => Ok([])
    case SliceShape(_) => Ok([])
    case DynShape => Err(UnsupportedType(ty))
    case UnsupportedShape => Err(UnsupportedType(ty))
  }

  /** The fields' chunks, in memory order, each at the field's offset; the first failure wins. */
  function FieldChunks(fields: seq<FieldAt>, offset: nat, window: MaskWindow, ghost parent: Ty): Result<seq<DataBytes>, LayoutError>
    requires forall i :: 0 <= i < |fields| ==> fields[i].ty < parent
    decreases parent, 0, |fields|
  {
    if fields == [] then Ok([])
    else
      var last := fields[|fields| - 1];
      match FieldChunks(fields[..|fields| - 1], offset, window, parent) {
        case Err(e) => Err(e)
        case Ok(before) => match Chunks(last.ty, last.offset + offset, window) {
          case Err(e) => Err(e)
          case Ok(here) => Ok(before + here)
        }
      }
  }

  /** The chunks of each variant's fields, one list per variant. */
  function VariantChunks(vs: seq<Variant>, offset: nat, window: MaskWindow, ghost parent: Ty): Result<seq<seq<DataBytes>>, LayoutError>
    requires forall v :: 0 <= v < |vs| ==> vs[v] < parent
    decreases parent, 1, |vs|
  {
    if vs == [] then Ok([])
    else
      match VariantChunks(vs[..|vs| - 1], offset, window, parent) {
        case Err(e) => Err(e)
        case Ok(before) => match FieldChunks(vs[|vs| - 1].fields, offset, window, parent) {
          case Err(e) => Err(e)
          case Ok(here) => Ok(before + [here])
        }
      }
  }

  lemma {:induction false} FieldChunksErr(fields: seq<FieldAt>, n: nat, offset: nat, parent: Ty)
    requires forall i :: 0 <= i < |fields| ==> fields[i].ty < parent
    requires n <= |fields| && FieldChunks(fields[..n], offset, FromZero, parent).Err?
    ensures FieldChunks(fields, offset, FromZero, parent) == FieldChunks(fields[..n], offset, FromZero, parent)
    decreases |fields| - n
  {
    if n < |fields| {
      assert fields[..n + 1][..n] == fields[..n];
      FieldChunksErr(fields, n + 1, offset, parent);
    } else {
      assert fields[..n] == fields;
    }
  }

  lemma {:induction false} VariantChunksErr(vs: seq<Variant>, n: nat, offset: nat, parent: Ty)
    requires forall v :: 0 <= v < |vs| ==> vs[v] < parent
    requires n <= |vs| && VariantChunks(vs[..n], offset, FromZero, parent).Err?
    ensures VariantChunks(vs, offset, FromZero, parent) == VariantChunks(vs[..n], offset, FromZero, parent)
    decreases |vs| - n
  {
    if n < |vs| {
      assert vs[..n + 1][..n] == vs[..n];
      VariantChunksErr(vs, n + 1, offset, parent);
    } else {
      assert vs[..n] == vs;
    }
  }

  /**
   * `data_bytes_for_ty` as written: the fields' chunks are appended one field at a time,
   * the array element's chunks once per index, and a tagged enum's variant masks are
   * generated over bytes `0 .. size` of the object, whatever the enum's offset.
   */
  method DataBytesForTy(ty: Ty, offset: nat) returns (r: Result<seq<DataBytes>, LayoutError>)
    ensures r == Chunks(ty, offset, FromZero)
    decreases ty, 1
  {
    match ty.shape {
      case ScalarShape(scalarSize) =>
        r := Ok([DataBytes(offset, scalarSize)]);
      case ArrayShape(elem, stride, count) =>
        if count == 0 {
          return Ok([]);
        }
        var elemChunks := DataBytesForTy(elem, offset);
        if elemChunks.Err? {
          return Err(elemChunks.error);
        }
        var result: seq<DataBytes> := [];
        if elemChunks.value != [] {
          for idx := 0 to count
            invariant result == Repeat(elemChunks.value, stride, idx)
          {
            result := result + ShiftChunks(elemChunks.value, idx * stride);
          }
        }
        r := Ok(result);
      case StructShape(fields) =>
        r := FieldsDataBytes(fields, offset, ty);
      case TupleShape(fields) =>
        r := FieldsDataBytes(fields, offset, ty);
      case PatShape(base) =>
        r := DataBytesForTy(base, 0);
      case EnumShape(variants) =>
        match variants {
          case NoVariants =>
            r := Ok([]);
          case SingleVariant(fields) =>
            r := FieldsDataBytes(fields, offset, ty);
          case NicheVariants =>
            r := Err(EnumWithNicheEncoding(ty));
          case TaggedVariants(tagSize, vs) =>
            var tag := [DataBytes(offset, tagSize)];
            var perVariant: seq<seq<DataBytes>> := [];
            for v := 0 to |vs|
              invariant VariantChunks(vs[..v], offset, FromZero, ty) == Ok(perVariant)
            {
              var here := FieldsDataBytes(vs[v].fields, offset, ty);
              assert vs[..v + 1][..v] == vs[..v];
              if here.Err? {
                VariantChunksErr(vs, v + 1, offset, ty);
                return Err(here.error);
              }
              perVariant := perVariant + [here.value];
            }
            assert vs[..|vs|] == vs;
            if perVariant == [] {
              return Ok(tag);
            }
            var first := GenerateByteMask(ty.size, perVariant[0]);
            var all := true;
            for v := 0 to |perVariant|
              invariant all <==> forall w :: 0 <= w < v ==> ByteMask(ty.size, perVariant[w]) == ByteMask(ty.size, perVariant[0])
            {
              var mask := GenerateByteMask(ty.size, perVariant[v]);
              if mask != first {
                all := false;
              }
            }
            if all {
              r := Ok(tag + perVariant[0]);
            } else {
              r := Err(EnumWithMultiplePaddingVariants(ty));
            }
        }
      case ThinPtrShape(ptrSize) =>
        r := Ok([DataBytes(offset, ptrSize)]);
      case FatPtrShape(data, metadata) =>
        r := Ok([DataBytes(offset + data.offset, data.size), DataBytes(offset + metadata.offset, metadata.size)]);
      case UnionShape(_) =>
        r := Err(UnionAsField(ty));
      case StrShape =>
        r := Ok([]);
      case SliceShape(_) =>
        r := Ok([]);
      case DynShape =>
        r := Err(UnsupportedType(ty));
      case UnsupportedShape =>
        r := Err(UnsupportedType(ty));
    }
  }

  /** The loop over a list of fields in memory order, stopping at the first failure. */
  method FieldsDataBytes(fields: seq<FieldAt>, offset: nat, ghost parent: Ty) returns (r: Result<seq<DataBytes>, LayoutError>)
    requires forall i :: 0 <= i < |fields| ==> fields[i].ty < parent
    ensures r == FieldChunks(fields, offset, FromZero, parent)
    decreases parent, 0
  {
    var acc: seq<DataBytes> := [];
    for i := 0 to |fields|
      invariant FieldChunks(fields[..i], offset, FromZero, parent) == Ok(acc)
    {
      var here := DataBytesForTy(fields[i].ty, fields[i].offset + offset);
      assert fields[..i + 1][..i] == fields[..i];
      if here.Err? {
        FieldChunksErr(fields, i + 1, offset, parent);
        return Err(here.error);
      }
      acc := acc + here.value;
    }
    assert fields[..|fields|] == fields;
    r := Ok(acc);
  }

  /** The chunk computation fails only for reasons of its own: it never reports an unknown unsized layout. */
  lemma {:induction false} ChunksKnownErrors(ty: Ty, offset: nat, window: MaskWindow)
    ensures Chunks(ty, offset, window).Err? ==> !Chunks(ty, offset, window).error.UnknownUnsizedLayout?
    decreases ty, 2
  {
    match ty.shape {
      case ArrayShape(elem, _, _) => ChunksKnownErrors(elem, offset, window);
      case StructShape(fields) => FieldsKnownErrors(fields, offset, window, ty);
      case TupleShape(fields) => FieldsKnownErrors(fields, offset, window, ty);
      case PatShape(base) => ChunksKnownErrors(base, 0, window);
      case EnumShape(variants) =>
        if variants.SingleVariant? {
          FieldsKnownErrors(variants.fields, offset, window, ty);
        } else if variants.TaggedVariants? {
          VariantsKnownErrors(variants.variants, offset, window, ty);
        }
      case _ =>
    }
  }

  lemma {:induction false} FieldsKnownErrors(fields: seq<FieldAt>, offset: nat, window: MaskWindow, parent: Ty)
    requires forall i :: 0 <= i < |fields| ==> fields[i].ty < parent
    ensures FieldChunks(fields, offset, window, parent).Err? ==> !FieldChunks(fields, offset, window, parent).error.UnknownUnsizedLayout?
    decreases parent, 0, |fields|
  {
    if fields != [] {
      var last := fields[|fields| - 1];
      FieldsKnownErrors(fields[..|fields| - 1], offset, window, parent);
      ChunksKnownErrors(last.ty, last.offset + offset, window);
    }
  }

  lemma {:induction false} VariantsKnownErrors(vs: seq<Variant>, offset: nat, window: MaskWindow, parent: Ty)
    requires forall v :: 0 <= v < |vs| ==> vs[v] < parent
    ensures VariantChunks(vs, offset, window, parent).Err? ==> !VariantChunks(vs, offset, window, parent).error.UnknownUnsizedLayout?
    decreases parent, 1, |vs|
  {
    if vs != [] {
      VariantsKnownErrors(vs[..|vs| - 1], offset, window, parent);
      FieldsKnownErrors(vs[|vs| - 1].fields, offset, window, parent);
    }
  }

  // ---------------------------------------------------------------------------
  // Properties of the chunk computation
  // ---------------------------------------------------------------------------

  lemma {:induction false} RepeatLength(chunks: seq<DataBytes>, stride: nat, count: nat)
    ensures |Repeat(chunks, stride, count)| == count * |chunks|
  {
    if count > 0 {
      RepeatLength(chunks, stride, count - 1);
      assert (count - 1) * |chunks| + |chunks| == count * |chunks|;
    }
  }

  lemma {:induction false} MulMono(a: nat, b: nat, n: nat)
    requires a <= b
    ensures a * n <= b * n
    decreases b - a
  {
    if a < b {
      MulMono(a, b - 1, n);
      assert b * n == (b - 1) * n + n;
    }
  }

  /** Chunk `j` of copy `idx` is the element's chunk `j`, `idx * stride` bytes further. */
  lemma {:induction false} RepeatAt(chunks: seq<DataBytes>, stride: nat, count: nat, idx: nat, j: nat)
    requires idx < count && j < |chunks|
    ensures idx * |chunks| + j < |Repeat(chunks, stride, count)|
    ensures Repeat(chunks, stride, count)[idx * |chunks| + j] == chunks[j].(offset := chunks[j].offset + idx * stride)
  {
    var n := |chunks|;
    var k := idx * n + j;
    var before := Repeat(chunks, stride, count - 1);
    RepeatLength(chunks, stride, count - 1);
    assert |before| == (count - 1) * n;
    assert Repeat(chunks, stride, count) == before + ShiftChunks(chunks, (count - 1) * stride);
    if idx < count - 1 {
      MulMono(idx + 1, count - 1, n);
      assert (idx + 1) * n == k - j + n;
      RepeatAt(chunks, stride, count - 1, idx, j);
    } else {
      assert k == |before| + j;
    }
  }

  /**
   * An array of `count > 0` elements has `count` copies of its element's chunks, copy
   * `idx` moved by `idx * stride`; an empty array has none.
   */
  lemma {:induction false} ArrayChunks(ty: Ty, offset: nat, window: MaskWindow, idx: nat, j: nat)
    requires ty.shape.ArrayShape?
    ensures ty.shape.count == 0 ==> Chunks(ty, offset, window) == Ok([])
    ensures var elemChunks := Chunks(ty.shape.elem, offset, window);
      idx < ty.shape.count && elemChunks.Ok? && j < |elemChunks.value| ==>
        Chunks(ty, offset, window).Ok?
        && |Chunks(ty, offset, window).value| == ty.shape.count * |elemChunks.value|
        && idx * |elemChunks.value| + j < |Chunks(ty, offset, window).value|
        && Chunks(ty, offset, window).value[idx * |elemChunks.value| + j]
           == elemChunks.value[j].(offset := elemChunks.value[j].offset + idx * ty.shape.stride)
  {
    var elemChunks := Chunks(ty.shape.elem, offset, window);
    if idx < ty.shape.count && elemChunks.Ok? && j < |elemChunks.value| {
      RepeatLength(elemChunks.value, ty.shape.stride, ty.shape.count);
      RepeatAt(elemChunks.value, ty.shape.stride, ty.shape.count, idx, j);
    }
  }

  /** A thin pointer is one chunk of the pointer's size; a fat pointer is its two scalars at their offsets. */
  lemma {:induction false} PointerChunks(ty: Ty, offset: nat, window: MaskWindow)
    ensures ty.shape.ThinPtrShape? ==> Chunks(ty, offset, window) == Ok([DataBytes(offset, ty.shape.ptrSize)])
    ensures ty.shape.FatPtrShape? ==>
      var d := ty.shape.data;
      var m := ty.shape.metadata;
      Chunks(ty, offset, window) == Ok([DataBytes(offset + d.offset, d.size), DataBytes(offset + m.offset, m.size)])
  {
  }

  /**
   * When a tagged enum's chunks are computed with the masks compared over the enum's own
   * bytes, the field chunks that are kept describe every variant: each variant has
   * exactly their data/padding pattern within the enum.
   */
  lemma {:induction false} TaggedEnumFitsEveryVariant(ty: Ty, offset: nat)
    requires ty.shape.EnumShape? && ty.shape.variants.TaggedVariants? && |ty.shape.variants.variants| > 0
    requires Chunks(ty, offset, FromOffset).Ok?
    ensures var perVariant := VariantChunks(ty.shape.variants.variants, offset, FromOffset, ty);
      var chunks := Chunks(ty, offset, FromOffset).value;
      perVariant.Ok? && |perVariant.value| == |ty.shape.variants.variants|
      && chunks[0] == DataBytes(offset, ty.shape.variants.tagSize)
      && forall v :: 0 <= v < |perVariant.value| ==>
           Window(offset, ty.size, perVariant.value[v]) == Window(offset, ty.size, chunks[1..])
  {
    var vs := ty.shape.variants.variants;
    VariantChunksLength(vs, offset, FromOffset, ty);
    var perVariant := VariantChunks(vs, offset, FromOffset, ty).value;
    var chunks := Chunks(ty, offset, FromOffset).value;
    assert chunks[1..] == perVariant[0];
  }

  lemma {:induction false} VariantChunksLength(vs: seq<Variant>, offset: nat, window: MaskWindow, parent: Ty)
    requires forall v :: 0 <= v < |vs| ==> vs[v] < parent
    ensures VariantChunks(vs, offset, window, parent).Ok? ==> |VariantChunks(vs, offset, window, parent).value| == |vs|
    decreases |vs|
  {
    if vs != [] {
      VariantChunksLength(vs[..|vs| - 1], offset, window, parent);
    }
  }

  // A tagged enum with a one-byte tag and two variants of different padding:
  // `A(u8)` with its byte at offset 1, `B(u16)` with its bytes at offsets 2 and 3.
  const U8: Ty := Ty(1, true, ScalarShape(1))
  const U16: Ty := Ty(2, true, ScalarShape(2))
  const U32: Ty := Ty(4, true, ScalarShape(4))
  const TwoPaddings: Ty := Ty(4, true, EnumShape(TaggedVariants(1, [Variant([FieldAt(1, U8)]), Variant([FieldAt(2, U16)])])))
  /** The tuple `(u32, TwoPaddings)`, which places the enum at offset 4. */
  const PairWithEnum: Ty := Ty(8, true, TupleShape([FieldAt(0, U32), FieldAt(4, TwoPaddings)]))

  /** Each variant of `TwoPaddings` has one field; at `offset` they give one chunk each. */
  lemma {:induction false} TwoPaddingsVariants(offset: nat, window: MaskWindow)
    ensures VariantChunks(TwoPaddings.shape.variants.variants, offset, window, TwoPaddings)
         == Ok([[DataBytes(1 + offset, 1)], [DataBytes(2 + offset, 2)]])
  {
    var vs := TwoPaddings.shape.variants.variants;
    var fa := vs[0].fields;
    var fb := vs[1].fields;
    assert fa == [FieldAt(1, U8)] && fb == [FieldAt(2, U16)];
    assert fa[..0] == [] && fb[..0] == [];
    assert FieldChunks([], offset, window, TwoPaddings) == Ok([]);
    assert Chunks(U8, 1 + offset, window) == Ok([DataBytes(1 + offset, 1)]);
    assert Chunks(U16, 2 + offset, window) == Ok([DataBytes(2 + offset, 2)]);
    assert fa != [] && fb != [] && vs[..1] != [] && vs != [];
    var ca := [DataBytes(1 + offset, 1)];
    var cb := [DataBytes(2 + offset, 2)];
    assert FieldChunks(fa, offset, window, TwoPaddings) == Ok([] + ca);
    assert [] + ca == ca && [] + cb == cb;
    assert FieldChunks(fb, offset, window, TwoPaddings) == Ok([] + cb);
    assert vs[..1][..0] == [];
    assert VariantChunks([], offset, window, TwoPaddings) == Ok([]);
    assert VariantChunks(vs[..1], offset, window, TwoPaddings) == Ok([] + [ca]);
    assert [] + [ca] == [ca];
    assert [ca] + [cb] == [ca, cb];
    assert vs[..2 - 1] == vs[..1];
  }

  /**
   * As written, the variant masks of an enum at a non-zero offset are taken over the
   * wrong bytes: on its own the enum is rejected for having variants with different
   * padding, but inside the tuple, where both variants' chunks lie beyond the enum's
   * first four bytes, every mask is all padding, the enum is accepted with the first
   * variant's chunks, and bytes 6 and 7, which variant `B` uses, count as padding.
   * Comparing the masks over the enum's own bytes rejects the tuple too.
   */
  lemma {:induction false} TaggedEnumAtOffsetAsWritten()
    ensures Chunks(TwoPaddings, 0, FromZero) == Err(EnumWithMultiplePaddingVariants(TwoPaddings))
    ensures Chunks(PairWithEnum, 0, FromZero) == Ok([DataBytes(0, 4), DataBytes(4, 1), DataBytes(5, 1)])
    ensures !ByteMask(8, Chunks(PairWithEnum, 0, FromZero).value)[6]
    ensures Chunks(PairWithEnum, 0, FromOffset) == Err(EnumWithMultiplePaddingVariants(TwoPaddings))
  {
    var a0 := [DataBytes(1, 1)];
    var b0 := [DataBytes(2, 2)];
    TwoPaddingsVariants(0, FromZero);
    assert a0[0] == DataBytes(1, 1);
    assert Covers(a0, 1);
    assert Window(0, 4, [a0, b0][1]) != Window(0, 4, [a0, b0][0]) by {
      assert Window(0, 4, a0)[1] != Window(0, 4, b0)[1];
    }
    assert !SameMasks([a0, b0], 0, 4);

    var a4 := [DataBytes(5, 1)];
    var b4 := [DataBytes(6, 2)];
    TwoPaddingsVariants(4, FromZero);
    TwoPaddingsVariants(4, FromOffset);
    assert ByteMask(4, a4) == [false, false, false, false];
    assert ByteMask(4, b4) == [false, false, false, false];
    assert SameMasks([a4, b4], 0, 4);
    assert Chunks(TwoPaddings, 4, FromZero) == Ok([DataBytes(4, 1)] + a4);
    var fields := PairWithEnum.shape.fields;
    assert fields[..1][..0] == [];
    assert fields[..1] == [FieldAt(0, U32)] && fields != [];
    assert Chunks(U32, 0, FromZero) == Ok([DataBytes(0, 4)]);
    assert Chunks(U32, 0, FromOffset) == Ok([DataBytes(0, 4)]);
    assert FieldChunks([], 0, FromZero, PairWithEnum) == Ok([]);
    assert FieldChunks([], 0, FromOffset, PairWithEnum) == Ok([]);
    assert FieldChunks(fields[..1], 0, FromZero, PairWithEnum) == Ok([] + [DataBytes(0, 4)]);
    assert FieldChunks(fields[..1], 0, FromOffset, PairWithEnum) == Ok([] + [DataBytes(0, 4)]);
    assert [] + [DataBytes(0, 4)] == [DataBytes(0, 4)];
    assert fields[..2 - 1] == fields[..1];
    assert fields[1] == FieldAt(4, TwoPaddings);
    assert FieldChunks(fields, 0, FromZero, PairWithEnum) == Ok([DataBytes(0, 4)] + ([DataBytes(4, 1)] + a4));
    assert [DataBytes(0, 4)] + ([DataBytes(4, 1)] + a4) == [DataBytes(0, 4), DataBytes(4, 1), DataBytes(5, 1)];

    var result := [DataBytes(0, 4), DataBytes(4, 1), DataBytes(5, 1)];
    forall k | 0 <= k < |result|
      ensures !InChunk(result[k], 6)
    {
    }

    assert a4[0] == DataBytes(5, 1);
    assert Covers(a4, 5);
    assert Window(4, 4, [a4, b4][1]) != Window(4, 4, [a4, b4][0]) by {
      assert Window(4, 4, a4)[1] != Window(4, 4, b4)[1];
    }
    assert !SameMasks([a4, b4], 4, 4);
    assert Chunks(TwoPaddings, 4, FromOffset) == Err(EnumWithMultiplePaddingVariants(TwoPaddings));
  }

  // ---------------------------------------------------------------------------
  // Pointee layouts
  // ---------------------------------------------------------------------------

  /** The mask of a sized pointee, of one slice element, or of each union field; trait objects have none. */
  datatype PointeeLayout =
    | Sized(layout: seq<bool>)
    | Slice(elementLayout: seq<bool>)
    | Union(fieldLayouts: seq<seq<bool>>)
    | TraitObject

  /** The largest length among the masks. */
  function MaxLen(masks: seq<seq<bool>>): (m: nat)
    requires |masks| > 0
    ensures forall k :: 0 <= k < |masks| ==> |masks[k]| <= m
    ensures exists k :: 0 <= k < |masks| && |masks[k]| == m
  {
    if |masks| == 1 then |masks[0]|
    else
      var rest := MaxLen(masks[..|masks| - 1]);
      var last := |masks[|masks| - 1]|;
      if last > rest then last else rest
  }

  /**
   * `maybe_size`: the mask length of a sized pointee or of a slice element, the longest
   * field mask of a union (which has at least one field), and nothing for a trait object.
   */
  function MaybeSize(p: PointeeLayout): (r: Option<nat>)
    requires p.Union? ==> |p.fieldLayouts| > 0
    ensures p.Sized? ==> r == Some(|p.layout|)
    ensures p.Slice? ==> r == Some(|p.elementLayout|)
    ensures p.Union? ==>
      && r.Some?
      && (forall k :: 0 <= k < |p.fieldLayouts| ==> |p.fieldLayouts[k]| <= r.value)
      && (exists k :: 0 <= k < |p.fieldLayouts| && |p.fieldLayouts[k]| == r.value)
    ensures r.None? <==> p.TraitObject?
  {
    match p
    case Sized(layout) => Some(|layout|)
    case Slice(elementLayout) => Some(|elementLayout|)
    case Union(fieldLayouts) => Some(MaxLen(fieldLayouts))
    case TraitObject => None
  }

  /** The mask of each union field, sized to that field; the first field whose chunks fail decides. */
  function UnionFieldMasks(members: seq<Ty>): (r: Result<seq<seq<bool>>, LayoutError>)
    ensures r.Ok? ==> |r.value| == |members|
    ensures r.Err? ==> !r.error.UnknownUnsizedLayout?
  {
    if members == [] then Ok([])
    else
      var last := members[|members| - 1];
      ChunksKnownErrors(last, 0, FromOffset);
      match UnionFieldMasks(members[..|members| - 1]) {
        case Err(e) => Err(e)
        case Ok(before) => match Chunks(last, 0, FromOffset) {
          case Err(e) => Err(e)
          case Ok(chunks) => Ok(before + [ByteMask(last.size, chunks)])
        }
      }
  }

  /** Each union field's mask covers exactly that field's bytes. */
  lemma {:induction false} UnionFieldMaskSizes(members: seq<Ty>)
    ensures UnionFieldMasks(members).Ok? ==>
      forall k :: 0 <= k < |members| ==> |UnionFieldMasks(members).value[k]| == members[k].size
  {
    if members != [] && UnionFieldMasks(members).Ok? {
      var init := members[..|members| - 1];
      UnionFieldMaskSizes(init);
      forall k | 0 <= k < |members|
        ensures |UnionFieldMasks(members).value[k]| == members[k].size
      {
        if k < |init| {
          assert members[k] == init[k];
        }
      }
    }
  }

  /** The mask of a `u8`, which `str` is a slice of. */
  const U8_MASK: seq<bool> := [true]

  /**
   * `PointeeInfo::from_ty`: unions get one mask per field, `str` is a slice of `u8`,
   * slices get their element's mask, trait objects have no mask, other sized types get
   * their own mask, and any other unsized type has an unknown layout.
   */
  function FromTy(ty: Ty): Result<PointeeLayout, LayoutError>
  {
    match ty.shape
    case UnionShape(members) =>
      match UnionFieldMasks(members) {
        case Err(e) => Err(e)
        case Ok(masks) => Ok(Union(masks))
      }
    case StrShape =>
      match Chunks(U8, 0, FromOffset) {
        case Err(e) => Err(e)
        case Ok(chunks) => Ok(Slice(ByteMask(U8.size, chunks)))
      }
    case SliceShape(elem) =>
      match Chunks(elem, 0, FromOffset) {
        case Err(e) => Err(e)
        case Ok(chunks) => Ok(Slice(ByteMask(elem.size, chunks)))
      }
    case DynShape => Ok(TraitObject)
    case _ =>
      if ty.isSized then
        match Chunks(ty, 0, FromOffset) {
          case Err(e) => Err(e)
          case Ok(chunks) => Ok(Sized(ByteMask(ty.size, chunks)))
        }
      else Err(UnknownUnsizedLayout(ty))
  }

  /**
   * What `FromTy` computes: a union's layout has one mask per member, `str` is a slice of
   * `u8` masks, only `dyn` types are trait objects, a sized type's mask covers its size, a
   * slice's mask covers one element, and the layout is unknown exactly for the unsized
   * types that are none of union, `str`, slice or `dyn`.
   */
  lemma {:induction false} FromTyFacts(ty: Ty)
    ensures var r := FromTy(ty);
      && (ty.shape.UnionShape? && r.Ok? ==> r.value.Union? && |r.value.fieldLayouts| == |ty.shape.members|)
      && (ty.shape.StrShape? ==> r == Ok(Slice(U8_MASK)))
      && (ty.shape.DynShape? <==> r == Ok(TraitObject))
      && (r.Ok? && r.value.Sized? ==> |r.value.layout| == ty.size)
      && (r.Ok? && r.value.Slice? ==> ty.shape.StrShape? || ty.shape.SliceShape?)
      && (r.Ok? && r.value.Slice? && ty.shape.SliceShape? ==> |r.value.elementLayout| == ty.shape.elem.size)
      && (r == Err(UnknownUnsizedLayout(ty)) <==>
            !ty.isSized && !(ty.shape.UnionShape? || ty.shape.StrShape? || ty.shape.SliceShape? || ty.shape.DynShape?))
  {
    match ty.shape {
      case UnionShape(members) =>
      case StrShape =>
        assert Chunks(U8, 0, FromOffset) == Ok([DataBytes(0, 1)]);
        assert [DataBytes(0, 1)][0] == DataBytes(0, 1);
        assert Covers([DataBytes(0, 1)], 0);
        assert ByteMask(1, [DataBytes(0, 1)]) == U8_MASK;
      case SliceShape(elem) =>
        ChunksKnownErrors(elem, 0, FromOffset);
      case DynShape =>
      case _ =>
        if ty.isSized {
          ChunksKnownErrors(ty, 0, FromOffset);
        }
    }
  }

  // ---------------------------------------------------------------------------
  // Comparing layouts
  // ---------------------------------------------------------------------------

  /** The mask a comparison works on: a sized pointee's, or a slice element's. */
  function ComparedMask(ty: Ty): Option<seq<bool>>
  {
    match FromTy(ty)
    case Ok(Sized(layout)) => Some(layout)
    case Ok(Slice(elementLayout)) => Some(elementLayout)
    case _ => None
  }

  /**
   * `tys_layout_cmp_to_size`: false when either layout is an error, a trait object or a
   * union, or when the target's mask is longer; otherwise whether `cmp` holds of every
   * pair of bytes over the target's length.
   */
  function TysLayoutCmpToSize(fromTy: Ty, toTy: Ty, cmp: (bool, bool) -> bool): (r: bool)
    ensures r ==>
      && ComparedMask(fromTy).Some? && ComparedMask(toTy).Some?
      && |ComparedMask(toTy).value| <= |ComparedMask(fromTy).value|
  {
    match (ComparedMask(fromTy), ComparedMask(toTy))
    case (Some(fromMask), Some(toMask)) =>
      |toMask| <= |fromMask| && forall i :: 0 <= i < |toMask| ==> cmp(fromMask[i], toMask[i])
    case _ => false
  }

  function CompatibleBytes(fromByte: bool, toByte: bool): bool { fromByte || !toByte }

  function EqualBytes(fromByte: bool, toByte: bool): bool { fromByte == toByte }

  predicate TysLayoutCompatibleToSize(fromTy: Ty, toTy: Ty)
  {
    TysLayoutCmpToSize(fromTy, toTy, CompatibleBytes)
  }

  predicate TysLayoutEqualToSize(fromTy: Ty, toTy: Ty)
  {
    TysLayoutCmpToSize(fromTy, toTy, EqualBytes)
  }

  /** The positions of a mask's data bytes. */
  function DataPositions(mask: seq<bool>): set<nat>
  {
    set i: nat | i < |mask| && mask[i]
  }

  /**
   * Compatible layouts are exactly those where the target is no longer than the source
   * and every data byte of the target is a data byte of the source.
   */
  lemma {:induction false} CompatibleIffDataSubset(fromTy: Ty, toTy: Ty)
    ensures TysLayoutCompatibleToSize(fromTy, toTy) <==>
      ComparedMask(fromTy).Some? && ComparedMask(toTy).Some?
      && |ComparedMask(toTy).value| <= |ComparedMask(fromTy).value|
      && DataPositions(ComparedMask(toTy).value) <= DataPositions(ComparedMask(fromTy).value)
  {
    if ComparedMask(fromTy).Some? && ComparedMask(toTy).Some? {
      var f := ComparedMask(fromTy).value;
      var t := ComparedMask(toTy).value;
      if |t| <= |f| {
        if DataPositions(t) <= DataPositions(f) {
          forall i | 0 <= i < |t|
            ensures CompatibleBytes(f[i], t[i])
          {
            if t[i] {
              assert i in DataPositions(t);
            }
          }
        }
        if TysLayoutCompatibleToSize(fromTy, toTy) {
          forall i | i in DataPositions(t)
            ensures i in DataPositions(f)
          {
            assert CompatibleBytes(f[i], t[i]);
          }
        }
      }
    }
  }

  /** Equal layouts are exactly those where the target's mask is a prefix of the source's. */
  lemma {:induction false} EqualIffPrefix(fromTy: Ty, toTy: Ty)
    ensures TysLayoutEqualToSize(fromTy, toTy) <==>
      ComparedMask(fromTy).Some? && ComparedMask(toTy).Some?
      && |ComparedMask(toTy).value| <= |ComparedMask(fromTy).value|
      && ComparedMask(toTy).value == ComparedMask(fromTy).value[..|ComparedMask(toTy).value|]
  {
    if ComparedMask(fromTy).Some? && ComparedMask(toTy).Some? {
      var f := ComparedMask(fromTy).value;
      var t := ComparedMask(toTy).value;
      if |t| <= |f| && TysLayoutEqualToSize(fromTy, toTy) {
        forall i | 0 <= i < |t|
          ensures t[i] == f[..|t|][i]
        {
          assert EqualBytes(f[i], t[i]);
        }
      }
      if |t| <= |f| && t == f[..|t|] {
        forall i | 0 <= i < |t|
          ensures EqualBytes(f[i], t[i])
        {
          assert t[i] == f[..|t|][i];
        }
      }
    }
  }

  /** Equal layouts are compatible. */
  lemma {:induction false} EqualImpliesCompatible(fromTy: Ty, toTy: Ty)
    requires TysLayoutEqualToSize(fromTy, toTy)
    ensures TysLayoutCompatibleToSize(fromTy, toTy)
  {
    var f := ComparedMask(fromTy).value;
    var t := ComparedMask(toTy).value;
    forall i | 0 <= i < |t|
      ensures CompatibleBytes(f[i], t[i])
    {
      assert EqualBytes(f[i], t[i]);
    }
  }
}
