/**
 * The lowering of MIR constants: scalars are emitted as literals of the declared width,
 * structs with a single data field and 1-tuples are expanded around their field,
 * pointers become the address of a materialised global plus an offset, and everything
 * else is materialised as a global whose initialiser is cut into byte runs and
 * pointer-sized fields at the allocation's provenance offsets. Materialised globals are
 * cached by allocation content.
 */
module OperandCodegen {
  import opened Wrappers
  import opened Strings
  import opened Goto

  type Byte = b: nat | b < 256

  // ---------------------------------------------------------------------------
  // Scalars
  // ---------------------------------------------------------------------------

  datatype IntTy = Isize | I8 | I16 | I32 | I64 | I128
  datatype UintTy = Usize | U8 | U16 | U32 | U64 | U128
  datatype FloatTy = F16 | F32 | F64 | F128

  const TWO_8: nat := 0x100
  const TWO_16: nat := 0x1_0000
  const TWO_32: nat := 0x1_0000_0000
  const TWO_64: nat := 0x1_0000_0000_0000_0000
  const TWO_128: nat := 0x1_0000_0000_0000_0000_0000_0000_0000_0000

  /** Rust's `v as uN` for a value read as u128: the low bits, as a non-negative number. */
  function WrapUnsigned(v: int, modulus: nat): (r: nat)
    requires modulus > 0
    ensures r < modulus
    ensures 0 <= v < modulus ==> r == v
  {
    v % modulus
  }

  /** Rust's `v as iN` for a value read as i128: the low bits, read in two's complement. */
  function WrapSigned(v: int, modulus: nat): (r: int)
    requires modulus >= 2 && modulus % 2 == 0
    ensures -(modulus / 2) <= r < modulus / 2
    ensures -(modulus / 2) <= v < modulus / 2 ==> r == v
  {
    var low := v % modulus;
    if low >= modulus / 2 then low - modulus else low
  }

  /**
   * A signed integer constant: the value read from the allocation, truncated to the
   * declared width (`isize` and `i128` take it unchanged).
   */
  function IntConstant(it: IntTy, v: int): (e: Expr)
    ensures e.IntConst?
    ensures it == I8 ==> e == IntConst(WrapSigned(v, TWO_8), Signed(8))
    ensures it == I32 ==> -(TWO_32 / 2) <= e.value < TWO_32 / 2
  {
    match it
    case Isize => IntConst(v, SSizeT)
    case I8 => IntConst(WrapSigned(v, TWO_8), Signed(8))
    case I16 => IntConst(WrapSigned(v, TWO_16), Signed(16))
    case I32 => IntConst(WrapSigned(v, TWO_32), Signed(32))
    case I64 => IntConst(WrapSigned(v, TWO_64), Signed(64))
    case I128 => IntConst(v, Signed(128))
  }

  /** An unsigned integer constant, truncated to the declared width (`usize` and `u128` unchanged). */
  function UintConstant(ut: UintTy, v: nat): (e: Expr)
    ensures e.IntConst?
    ensures ut == U8 ==> e == IntConst(WrapUnsigned(v, TWO_8), Unsigned(8))
    ensures ut == U32 ==> 0 <= e.value < TWO_32
  {
    match ut
    case Usize => IntConst(v, SizeT)
    case U8 => IntConst(WrapUnsigned(v, TWO_8), Unsigned(8))
    case U16 => IntConst(WrapUnsigned(v, TWO_16), Unsigned(16))
    case U32 => IntConst(WrapUnsigned(v, TWO_32), Unsigned(32))
    case U64 => IntConst(WrapUnsigned(v, TWO_64), Unsigned(64))
    case U128 => IntConst(v, Unsigned(128))
  }

  /** The declared width of a fixed-width integer type, in bits. */
  function IntBits(it: IntTy): nat
  {
    match it
    case Isize => 0
    case I8 => 8
    case I16 => 16
    case I32 => 32
    case I64 => 64
    case I128 => 128
  }

  function Modulus(bits: nat): nat
  {
    match bits
    case 8 => TWO_8
    case 16 => TWO_16
    case 32 => TWO_32
    case 64 => TWO_64
    case _ => TWO_128
  }

  /**
   * For the fixed widths below 128 bits, the constant is the value's representative in
   * the signed range of that width, congruent to the value, and equal to it when it fits.
   */
  lemma {:induction false} IntConstantWraps(it: IntTy, v: int)
    requires it in {I8, I16, I32, I64}
    ensures var m := Modulus(IntBits(it));
      && IntConstant(it, v).typ == Signed(IntBits(it))
      && -(m / 2) <= IntConstant(it, v).value < m / 2
      && (IntConstant(it, v).value - v) % m == 0
      && (-(m / 2) <= v < m / 2 ==> IntConstant(it, v).value == v)
  {
  }

  /** The little-endian value of initialised bytes; `None` when a byte is uninitialised. */
  function LeValue(bytes: seq<Option<Byte>>): Option<nat>
  {
    if bytes == [] then Some(0)
    else match (bytes[0], LeValue(bytes[1..])) {
      case (Some(b), Some(rest)) => Some(b + 256 * rest)
      case _ => None
    }
  }

  function Pow256(n: nat): nat
  {
    if n == 0 then 1 else 256 * Pow256(n - 1)
  }

  /** An initialised run of `n` bytes is a number below 256^n. */
  lemma {:induction false} LeValueBound(bytes: seq<Option<Byte>>)
    requires LeValue(bytes).Some?
    ensures LeValue(bytes).value < Pow256(|bytes|)
  {
    if bytes != [] {
      LeValueBound(bytes[1..]);
      var rest := LeValue(bytes[1..]).value;
      assert rest + 1 <= Pow256(|bytes| - 1);
      assert 256 * rest + 256 <= 256 * Pow256(|bytes| - 1);
    }
  }

  // ---------------------------------------------------------------------------
  // Allocations and their data
  // ---------------------------------------------------------------------------

  /**
   * A constant allocation: its bytes (`None` for uninitialised ones), its provenance
   * (byte offset, allocation id) pairs and whether it is immutable.
   */
  datatype Allocation = Allocation(bytes: seq<Option<Byte>>, provenance: seq<(nat, nat)>, immutable: bool)

  /** The scalar an allocation holds, read as unsigned; `None` where the source's `read_uint().unwrap()` panics. */
  /** The byte offsets at which the allocation's provenance pointers start, in order. */
  function ProvenanceOffsets(provenance: seq<(nat, nat)>): (offsets: seq<nat>)
    ensures |offsets| == |provenance|
    ensures forall k :: 0 <= k < |provenance| ==> offsets[k] == provenance[k].0
  {
    seq(|provenance|, k requires 0 <= k < |provenance| => provenance[k].0)
  }

  function ReadUint(a: Allocation): Option<nat> { LeValue(a.bytes) }

  /** The scalar an allocation holds, read as signed (two's complement over its size). */
  function ReadInt(a: Allocation): Option<int>
  {
    match LeValue(a.bytes)
    case None => None
    case Some(u) =>
      var m := Pow256(|a.bytes|);
      Some(if |a.bytes| > 0 && 2 * u >= m then u - m else u)
  }

  function ReadBool(a: Allocation): Option<bool>
  {
    match LeValue(a.bytes)
    case Some(0) => Some(false)
    case Some(1) => Some(true)
    case _ => None
  }

  /** A field of a materialised global: a run of bytes, or a pointer-sized field holding a pointer. */
  datatype AllocData = Bytes(run: seq<Option<Byte>>) | PtrField(ptr: Expr)

  /** One byte position of a global: a plain byte, or byte `k` of a pointer field. */
  datatype Cell = ByteCell(b: Option<Byte>) | PtrCell(ptr: Expr, k: nat)

  function ExpandPiece(d: AllocData, pointerSize: nat): seq<Cell>
  {
    match d
    case Bytes(run) => seq(|run|, i requires 0 <= i < |run| => ByteCell(run[i]))
    case PtrField(p) => seq(pointerSize, k requires 0 <= k < pointerSize => PtrCell(p, k))
  }

  /** The byte positions the fields of a global cover, in order. */
  function Expand(data: seq<AllocData>, pointerSize: nat): seq<Cell>
  {
    if data == [] then [] else Expand(data[..|data| - 1], pointerSize) + ExpandPiece(data[|data| - 1], pointerSize)
  }

  /** rustc's provenance: pointer-sized slots, sorted, disjoint, inside the allocation. */
  predicate WellPlaced(offsets: seq<nat>, pointerSize: nat, size: nat)
  {
    && (forall j :: 0 <= j < |offsets| ==> offsets[j] + pointerSize <= size)
    && (forall a, b :: 0 <= a < b < |offsets| ==> offsets[a] + pointerSize <= offsets[b])
  }

  /** The provenance slot covering byte `i`, if any: the first slot whose range contains it. */
  function SlotAt(offsets: seq<nat>, pointerSize: nat, i: nat): (r: Option<nat>)
    ensures r.Some? ==> r.value < |offsets| && offsets[r.value] <= i < offsets[r.value] + pointerSize
    ensures r.None? ==> forall j :: 0 <= j < |offsets| ==> !(offsets[j] <= i < offsets[j] + pointerSize)
  {
    if offsets == [] then None
    else if offsets[0] <= i < offsets[0] + pointerSize then Some(0)
    else match SlotAt(offsets[1..], pointerSize, i) {
      case None => None
      case Some(j) => Some(j + 1)
    }
  }

  /** With disjoint slots, the slot covering a byte is the one whose range it lies in. */
  lemma {:induction false} SlotAtUnique(offsets: seq<nat>, pointerSize: nat, size: nat, j: nat, i: nat)
    requires WellPlaced(offsets, pointerSize, size) && j < |offsets|
    requires offsets[j] <= i < offsets[j] + pointerSize
    ensures SlotAt(offsets, pointerSize, i) == Some(j)
  {
    forall k | 0 <= k < j
      ensures !(offsets[k] <= i < offsets[k] + pointerSize)
    {
      assert offsets[k] + pointerSize <= offsets[j];
    }
    SlotAtFirst(offsets, pointerSize, j, i);
  }

  /** The first slot covering a byte is the one `SlotAt` finds. */
  lemma {:induction false} SlotAtFirst(offsets: seq<nat>, pointerSize: nat, j: nat, i: nat)
    requires j < |offsets| && offsets[j] <= i < offsets[j] + pointerSize
    requires forall k :: 0 <= k < j ==> !(offsets[k] <= i < offsets[k] + pointerSize)
    ensures SlotAt(offsets, pointerSize, i) == Some(j)
  {
    if j > 0 {
      assert !(offsets[0] <= i < offsets[0] + pointerSize);
      var tail := offsets[1..];
      forall k | 0 <= k < j - 1
        ensures !(tail[k] <= i < tail[k] + pointerSize)
      {
        assert tail[k] == offsets[k + 1];
      }
      SlotAtFirst(tail, pointerSize, j - 1, i);
    }
  }

  /** A byte no slot covers has no slot. */
  lemma {:induction false} NoSlot(offsets: seq<nat>, pointerSize: nat, i: nat)
    requires forall k :: 0 <= k < |offsets| ==> !(offsets[k] <= i < offsets[k] + pointerSize)
    ensures SlotAt(offsets, pointerSize, i).None?
  {
  }

  lemma {:induction false} GapHasNoSlot(offsets: seq<nat>, pointerSize: nat, size: nat, j: nat, i: nat)
    requires WellPlaced(offsets, pointerSize, size) && j < |offsets|
    requires (if j == 0 then 0 else offsets[j - 1] + pointerSize) <= i < offsets[j]
    ensures SlotAt(offsets, pointerSize, i).None?
  {
    forall k | 0 <= k < |offsets|
      ensures !(offsets[k] <= i < offsets[k] + pointerSize)
    {
      if k < j - 1 {
        assert offsets[k] + pointerSize <= offsets[j - 1];
      } else if k > j {
        assert offsets[j] + pointerSize <= offsets[k];
      }
    }
    NoSlot(offsets, pointerSize, i);
  }

  lemma {:induction false} TailHasNoSlot(offsets: seq<nat>, pointerSize: nat, size: nat, i: nat)
    requires WellPlaced(offsets, pointerSize, size)
    requires (if |offsets| == 0 then 0 else offsets[|offsets| - 1] + pointerSize) <= i
    ensures SlotAt(offsets, pointerSize, i).None?
  {
    forall k | 0 <= k < |offsets|
      ensures !(offsets[k] <= i < offsets[k] + pointerSize)
    {
      if k < |offsets| - 1 {
        assert offsets[k] + pointerSize <= offsets[|offsets| - 1];
      }
    }
    NoSlot(offsets, pointerSize, i);
  }

  lemma {:induction false} ExpandSnoc(data: seq<AllocData>, d: AllocData, pointerSize: nat)
    ensures Expand(data + [d], pointerSize) == Expand(data, pointerSize) + ExpandPiece(d, pointerSize)
  {
    assert (data + [d])[..|data|] == data;
  }

  /**
   * What byte `i` of the global must hold: byte `i - offset` of the pointer whose
   * provenance slot covers it, or else the allocation's own byte.
   */
  function CellAt(bytes: seq<Option<Byte>>, offsets: seq<nat>, ptrs: seq<Expr>, pointerSize: nat, i: nat): Cell
    requires |ptrs| == |offsets| && i < |bytes|
  {
    match SlotAt(offsets, pointerSize, i)
    case Some(j) => PtrCell(ptrs[j], i - offsets[j])
    case None => ByteCell(bytes[i])
  }

  /** The fields in `data` reproduce the first `upto` bytes of the global. */
  predicate Reproduces(data: seq<AllocData>, bytes: seq<Option<Byte>>, offsets: seq<nat>, ptrs: seq<Expr>,
                       pointerSize: nat, upto: nat)
    requires |ptrs| == |offsets| && upto <= |bytes|
  {
    && |Expand(data, pointerSize)| == upto
    && forall i :: 0 <= i < upto ==> Expand(data, pointerSize)[i] == CellAt(bytes, offsets, ptrs, pointerSize, i)
  }

  /** Appending the bytes of a gap no slot covers extends what the fields reproduce to the gap's end. */
  lemma {:induction false} AppendRun(data: seq<AllocData>, bytes: seq<Option<Byte>>, offsets: seq<nat>, ptrs: seq<Expr>,
                  pointerSize: nat, next: nat, stop: nat)
    requires |ptrs| == |offsets| && next <= stop <= |bytes|
    requires Reproduces(data, bytes, offsets, ptrs, pointerSize, next)
    requires forall i :: next <= i < stop ==> SlotAt(offsets, pointerSize, i).None?
    ensures Reproduces(data + [Bytes(bytes[next..stop])], bytes, offsets, ptrs, pointerSize, stop)
  {
    ExpandSnoc(data, Bytes(bytes[next..stop]), pointerSize);
  }

  /** Appending the pointer of slot `j`, which starts where the fields end, extends them past the slot. */
  lemma {:induction false} AppendPtr(data: seq<AllocData>, bytes: seq<Option<Byte>>, offsets: seq<nat>, ptrs: seq<Expr>,
                  pointerSize: nat, j: nat)
    requires |ptrs| == |offsets| && j < |offsets| && WellPlaced(offsets, pointerSize, |bytes|)
    requires Reproduces(data, bytes, offsets, ptrs, pointerSize, offsets[j])
    ensures Reproduces(data + [PtrField(ptrs[j])], bytes, offsets, ptrs, pointerSize, offsets[j] + pointerSize)
  {
    ExpandSnoc(data, PtrField(ptrs[j]), pointerSize);
    forall i | offsets[j] <= i < offsets[j] + pointerSize
      ensures SlotAt(offsets, pointerSize, i) == Some(j)
    {
      SlotAtUnique(offsets, pointerSize, |bytes|, j, i);
    }
  }

  /**
   * Cuts an allocation into the fields of its global: for each provenance slot in order,
   * the bytes before it (when there are any) and then a pointer field holding the lowered
   * pointer `ptrs[j]`; then the remaining bytes, always. Read byte by byte, the fields
   * reproduce the allocation with each slot replaced by its pointer.
   */
  method AllocationData(bytes: seq<Option<Byte>>, offsets: seq<nat>, ptrs: seq<Expr>, pointerSize: nat)
    returns (data: seq<AllocData>)
    requires |ptrs| == |offsets| && pointerSize > 0
    requires WellPlaced(offsets, pointerSize, |bytes|)
    ensures Reproduces(data, bytes, offsets, ptrs, pointerSize, |bytes|)
    ensures |data| > 0 && data[|data| - 1].Bytes?
    ensures |data| <= 2 * |offsets| + 1
  {
    data := [];
    var next := 0;
    var j := 0;
    while j < |offsets|
      invariant 0 <= j <= |offsets|
      invariant next == if j == 0 then 0 else offsets[j - 1] + pointerSize
      invariant next <= |bytes|
      invariant Reproduces(data, bytes, offsets, ptrs, pointerSize, next)
      invariant |data| <= 2 * j
    {
      data, next := AppendSlot(bytes, offsets, ptrs, pointerSize, data, next, j);
      j := j + 1;
    }
    data := AppendTail(bytes, offsets, ptrs, pointerSize, data, next);
  }

  /** The end of `AllocationData`: the bytes after the last slot, possibly none. */
  method AppendTail(bytes: seq<Option<Byte>>, offsets: seq<nat>, ptrs: seq<Expr>, pointerSize: nat,
                    data: seq<AllocData>, next: nat)
    returns (data2: seq<AllocData>)
    requires |ptrs| == |offsets| && WellPlaced(offsets, pointerSize, |bytes|)
    requires next == (if |offsets| == 0 then 0 else offsets[|offsets| - 1] + pointerSize)
    requires next <= |bytes| && Reproduces(data, bytes, offsets, ptrs, pointerSize, next)
    ensures data2 == data + [Bytes(bytes[next..])]
    ensures Reproduces(data2, bytes, offsets, ptrs, pointerSize, |bytes|)
  {
    forall i | next <= i < |bytes|
      ensures SlotAt(offsets, pointerSize, i).None?
    {
      TailHasNoSlot(offsets, pointerSize, |bytes|, i);
    }
    AppendRun(data, bytes, offsets, ptrs, pointerSize, next, |bytes|);
    assert bytes[next..|bytes|] == bytes[next..];
    data2 := data + [Bytes(bytes[next..])];
  }

  /** One slot of `AllocationData`: the bytes before slot `j`, when there are any, then its pointer. */
  method AppendSlot(bytes: seq<Option<Byte>>, offsets: seq<nat>, ptrs: seq<Expr>, pointerSize: nat,
                    data: seq<AllocData>, next: nat, j: nat)
    returns (data2: seq<AllocData>, next2: nat)
    requires |ptrs| == |offsets| && j < |offsets| && WellPlaced(offsets, pointerSize, |bytes|)
    requires next == if j == 0 then 0 else offsets[j - 1] + pointerSize
    requires next <= |bytes| && Reproduces(data, bytes, offsets, ptrs, pointerSize, next)
    ensures next2 == offsets[j] + pointerSize && next2 <= |bytes|
    ensures Reproduces(data2, bytes, offsets, ptrs, pointerSize, next2)
    ensures |data2| <= |data| + 2
  {
    var offset := offsets[j];
    if j > 0 {
      assert offsets[j - 1] + pointerSize <= offsets[j];
    }
    data2 := data;
    if offset > next {
      forall i | next <= i < offset
        ensures SlotAt(offsets, pointerSize, i).None?
      {
        GapHasNoSlot(offsets, pointerSize, |bytes|, j, i);
      }
      AppendRun(data, bytes, offsets, ptrs, pointerSize, next, offset);
      data2 := data + [Bytes(bytes[next..offset])];
    }
    AppendPtr(data2, bytes, offsets, ptrs, pointerSize, j);
    data2 := data2 + [PtrField(ptrs[j])];
    next2 := offset + pointerSize;
  }

  /** The byte array initialiser of a run: uninitialised bytes become 0. */
  function RunInit(run: seq<Option<Byte>>): (e: Expr)
    ensures e.ArrayLit? && |e.elems| == |run|
    ensures forall i :: 0 <= i < |run| ==>
      e.elems[i] == IntConst(if run[i].Some? then run[i].value else 0, Unsigned(8))
  {
    ArrayLit(seq(|run|, i requires 0 <= i < |run| => IntConst(if run[i].Some? then run[i].value else 0, Unsigned(8))))
  }

  function FieldInits(data: seq<AllocData>): (inits: seq<Expr>)
    ensures |inits| == |data|
    ensures forall i :: 0 <= i < |data| ==>
      inits[i] == (match data[i] case Bytes(run) => RunInit(run) case PtrField(p) => p)
  {
    seq(|data|, i requires 0 <= i < |data| => match data[i] case Bytes(run) => RunInit(run) case PtrField(p) => p)
  }

  // ---------------------------------------------------------------------------
  // Types of constants
  // ---------------------------------------------------------------------------

  /** What a fat pointer points to. */
  datatype FatPointee = StrPointee | SlicePointee(elemTy: Type, elemSize: nat) | CStrPointee | OtherFatPointee

  /** A pointer type as the lowering sees it: a goto pointer, or a transparent wrapper around one. */
  datatype PtrType = PlainPtr(t: Type) | TransparentPtr(wrapper: Type, inner: Type)

  function PtrTypeOf(p: PtrType): Type
  {
    match p
    case PlainPtr(t) => t
    case TransparentPtr(w, _) => w
  }

  /** The Rust types whose constants the fast path looks at; `typ` is the goto type each lowers to. */
  datatype RustTy =
    | IntT(it: IntTy)
    | UintT(ut: UintTy)
    | BoolT
    | CharT
    | FloatT(ft: FloatTy)
    | PtrT(ptr: PtrType, fat: Option<FatPointee>)
    | StructT(name: string, typ: Type, fields: seq<Field>)
    | TupleT(typ: Type, elems: seq<RustTy>)
    | OtherT(typ: Type)

  datatype Field = Field(ty: RustTy, isZst: bool, zstType: Type)

  function GotoType(ty: RustTy): Type
  {
    match ty
    case IntT(it) => match it {
      case Isize => SSizeT
      case _ => Signed(IntBits(it))
    }
    case UintT(ut) => match ut {
      case Usize => SizeT
      case U8 => Unsigned(8)
      case U16 => Unsigned(16)
      case U32 => Unsigned(32)
      case U64 => Unsigned(64)
      case U128 => Unsigned(128)
    }
    case BoolT => CBool
    case CharT => Signed(32)
    case FloatT(_) => Code
    case PtrT(p, _) => PtrTypeOf(p)
    case StructT(_, t, _) => t
    case TupleT(t, _) => t
    case OtherT(t) => t
  }

  function NonZstCount(fields: seq<Field>): nat
  {
    if fields == [] then 0 else (if fields[0].isZst then 0 else 1) + NonZstCount(fields[1..])
  }

  /** Two distinct data fields make the count at least two. */
  lemma {:induction false} TwoDataFields(fields: seq<Field>, i: nat, k: nat)
    requires i < k < |fields| && !fields[i].isZst && !fields[k].isZst
    ensures NonZstCount(fields) >= 2
  {
    if i == 0 {
      OneDataField(fields[1..], k - 1);
    } else {
      TwoDataFields(fields[1..], i - 1, k - 1);
    }
  }

  lemma {:induction false} OneDataField(fields: seq<Field>, k: nat)
    requires k < |fields| && !fields[k].isZst
    ensures NonZstCount(fields) >= 1
  {
    if k > 0 {
      OneDataField(fields[1..], k - 1);
    }
  }

  /** A struct with a single data field has no other one. */
  lemma {:induction false} OnlyDataField(fields: seq<Field>, i: nat, k: nat)
    requires NonZstCount(fields) == 1 && i < |fields| && k < |fields|
    requires !fields[i].isZst && !fields[k].isZst
    ensures i == k
  {
    if i < k {
      TwoDataFields(fields, i, k);
    } else if k < i {
      TwoDataFields(fields, k, i);
    }
  }

  /**
   * Whether a constant of this type can be written without materialising it:
   * scalars and pointers, the `TypeId` struct, a struct with exactly one non-zero-sized
   * field that can itself be written, and a 1-tuple whose element can be.
   */
  predicate Expandable(ty: RustTy)
  {
    match ty
    case StructT(name, _, fields) =>
      ContainsSubstring(name, "any::TypeId")
      || (NonZstCount(fields) == 1 && forall i :: 0 <= i < |fields| && !fields[i].isZst ==> Expandable(fields[i].ty))
    case TupleT(_, elems) => |elems| == 1 && Expandable(elems[0])
    case OtherT(_) => false
    case _ => true
  }

  const ISSUE_2549: string := "https://github.com/model-checking/kani/issues/2549"

  /** The kinds of constant a body holds (MIR constants and type-level constants alike). */
  datatype ConstKind =
    | Allocated(alloc: Allocation, ty: RustTy)
    | ZeroSizedFnItem(mangledName: string, isForeign: bool, hasBody: bool, foreignSymbol: string, itemType: Type)
    | ZeroSized(typ: Type)
    | NotMonomorphic

  /** Why the lowering of a constant stopped: one of the source's panics, or allocations nested deeper than the bound. */
  datatype Failure = SourcePanic | NestingTooDeep

  /** What an allocation id refers to (rustc's `GlobalAlloc`). */
  datatype GlobalAlloc =
    | FunctionAlloc(funcExpr: Expr)
    | StaticAlloc(isAnon: bool, initializer: Allocation, mangledName: string)
    | MemoryAlloc(alloc: Allocation)
    | VTableAlloc(vtable: GlobalAlloc)
    | TypeIdAlloc

  /** A materialised global: whether it is constant, and its initialiser. */
  datatype Global = Global(isConst: bool, init: Expr)

  /** The name of a function item's singleton global. */
  function FnItemName(mangledName: string): (n: string)
    ensures mangledName <= n && n[|mangledName|..] == "::FnDefSingleton"
  {
    mangledName + "::FnDefSingleton"
  }

  /** Distinct functions have distinct singleton globals. */
  lemma {:induction false} FnItemNameInjective(m1: string, m2: string)
    requires FnItemName(m1) == FnItemName(m2)
    ensures m1 == m2
  {
    var suffix := "::FnDefSingleton";
    assert |m1| == |m2|;
    assert m1 == FnItemName(m1)[..|m1|];
  }

  /**
   * The function symbol an instance refers to: a foreign function without a body gets its
   * foreign symbol, any other function must have been declared (`None` is the source's
   * panic for a function used before its declaration).
   */
  function FuncSymbol(mangledName: string, isForeign: bool, hasBody: bool, declared: set<string>,
                      foreignSymbol: string): (r: Option<string>)
    ensures isForeign && !hasBody ==> r == Some(foreignSymbol)
    ensures !(isForeign && !hasBody) ==> (r.Some? <==> mangledName in declared)
    ensures !(isForeign && !hasBody) && r.Some? ==> r.value == mangledName
  {
    if isForeign && !hasBody then Some(foreignSymbol)
    else if mangledName in declared then Some(mangledName)
    else None
  }

  /**
   * The registry of materialised constants: the content-keyed cache `allocMap` from
   * allocations to global names, the globals themselves, and the string literals seen.
   */
  class AllocCache {
    var allocMap: map<Allocation, string>
    var globals: map<string, Global>
    var strLiterals: map<string, seq<Byte>>
    var nextGlobal: nat
    /** The goto name of a fresh anonymous global, by counter. */
    const globalName: nat -> string
    /** The crate-qualified name of a global for allocation id `id`. */
    const allocName: nat -> string
    /** What each allocation id refers to. */
    const memory: map<nat, GlobalAlloc>
    const pointerSize: nat

    ghost predicate Valid() reads this
    {
      && pointerSize > 0
      && forall a :: a in allocMap ==> allocMap[a] in globals
    }

    constructor (globalName: nat -> string, allocName: nat -> string, memory: map<nat, GlobalAlloc>, pointerSize: nat)
      requires pointerSize > 0
      ensures Valid() && allocMap == map[] && globals == map[] && strLiterals == map[]
      ensures this.globalName == globalName && this.allocName == allocName
      ensures this.memory == memory && this.pointerSize == pointerSize
    {
      this.globalName := globalName;
      this.allocName := allocName;
      this.memory := memory;
      this.pointerSize := pointerSize;
      allocMap := map[];
      globals := map[];
      strLiterals := map[];
      nextGlobal := 0;
    }

    /** Cache entries are never dropped or renamed, and globals are never removed. */
    twostate predicate Grows()
      reads this
    {
      && (forall a :: a in old(allocMap) ==> a in allocMap && allocMap[a] == old(allocMap)[a])
      && (forall n :: n in old(globals) ==> n in globals && globals[n] == old(globals)[n])
    }

    /** `ensure_global_var_init`: a global is created with its initialiser only when absent. */
    method EnsureGlobal(name: string, isConst: bool, init: Expr)
      requires Valid()
      modifies this
      ensures Valid() && Grows()
      ensures name in globals
      ensures name !in old(globals) ==> globals == old(globals)[name := Global(isConst, init)]
      ensures name in old(globals) ==> globals == old(globals)
      ensures allocMap == old(allocMap) && strLiterals == old(strLiterals) && nextGlobal == old(nextGlobal)
    {
      if name !in globals {
        globals := globals[name := Global(isConst, init)];
      }
    }

    method NextGlobalName() returns (name: string)
      modifies this
      ensures name == globalName(old(nextGlobal)) && nextGlobal == old(nextGlobal) + 1
      ensures allocMap == old(allocMap) && globals == old(globals) && strLiterals == old(strLiterals)
    {
      name := globalName(nextGlobal);
      nextGlobal := nextGlobal + 1;
    }

    /**
     * The address of the global holding `alloc`: the cached one when the allocation was
     * materialised before (and then nothing changes), else a new global named `name`
     * (or a fresh name), recorded in the cache.
     */
    method ConstAllocation(alloc: Allocation, name: Option<string>, depth: nat)
      returns (r: Result<Expr, Failure>)
      requires Valid()
      modifies this
      decreases depth, 1
      ensures Valid() && Grows()
      ensures alloc in old(allocMap) ==>
        && r == Ok(AddressOf(Sym(old(allocMap)[alloc])))
        && allocMap == old(allocMap) && globals == old(globals) && nextGlobal == old(nextGlobal)
      ensures r.Ok? ==> alloc in allocMap && r.value == AddressOf(Sym(allocMap[alloc]))
      ensures alloc !in old(allocMap) && r.Ok? && name.Some? ==> allocMap[alloc] == name.value
    {
      if alloc in allocMap {
        return Ok(AddressOf(Sym(allocMap[alloc])));
      }
      var allocName: string;
      if name.Some? {
        allocName := name.value;
      } else {
        allocName := NextGlobalName();
      }
      var ok: Option<Failure>;
      ghost var existed: bool;
      ok, existed := AllocInMemory(alloc, allocName, false, depth);
      if ok.Some? {
        return Err(ok.value);
      }
      return Ok(AddressOf(Sym(allocName)));
    }

    /**
     * Materialises `alloc` as the global `name`: its provenance pointers are lowered in
     * order, the bytes are cut into fields around them, and the global (constant iff the
     * allocation is immutable and has no interior mutability) is created with that
     * initialiser unless it exists; then the cache maps the allocation to `name`.
     * `None` means success. The ghost `existed` records whether a global of that name was
     * already there when the initialiser was to be written (from an earlier call, or from a
     * nested materialisation), in which case that global is kept.
     */
    method AllocInMemory(alloc: Allocation, name: string, hasInteriorMutability: bool, depth: nat)
      returns (failure: Option<Failure>, ghost existed: bool)
      requires Valid()
      modifies this
      decreases depth, 0
      ensures Valid() && (failure.None? ==> name in globals && alloc in allocMap && allocMap[alloc] == name)
      ensures forall a :: a in old(allocMap) && a != alloc ==> a in allocMap && allocMap[a] == old(allocMap)[a]
      ensures forall n :: n in old(globals) ==> n in globals && globals[n] == old(globals)[n]
      ensures failure.None? ==> WellPlaced(ProvenanceOffsets(alloc.provenance), pointerSize, |alloc.bytes|)
      ensures failure.None? && !existed ==>
        exists ptrs: seq<Expr>, data: seq<AllocData> ::
          && |ptrs| == |alloc.provenance|
          && Reproduces(data, alloc.bytes, ProvenanceOffsets(alloc.provenance), ptrs, pointerSize, |alloc.bytes|)
          && globals[name] == Global(alloc.immutable && !hasInteriorMutability,
                                     StructOf(Named(name + "::struct"), FieldInits(data)))
      ensures failure.None? && name !in old(globals) && alloc.provenance == [] ==> !existed
      ensures name in old(globals) ==> existed
    {
      existed := name in globals;
      var offsets: seq<nat> := [];
      var ptrs: seq<Expr> := [];
      var j := 0;
      while j < |alloc.provenance|
        invariant 0 <= j <= |alloc.provenance|
        invariant Valid()
        invariant |offsets| == |ptrs| == j
        invariant forall k :: 0 <= k < j ==> offsets[k] == alloc.provenance[k].0
        invariant j == 0 ==> globals == old(globals)
        invariant forall a :: a in old(allocMap) && a != alloc ==> a in allocMap && allocMap[a] == old(allocMap)[a]
        invariant forall n :: n in old(globals) ==> n in globals && globals[n] == old(globals)[n]
      {
        var (offset, allocId) := alloc.provenance[j];
        if depth == 0 {
          failure := Some(NestingTooDeep);
          return;
        }
        if offset + pointerSize > |alloc.bytes| {
          failure := Some(SourcePanic);
          return;
        }
        var ptrOffset := LeValue(alloc.bytes[offset..offset + pointerSize]);
        if ptrOffset.None? {
          failure := Some(SourcePanic);
          return;
        }
        var p := AllocPointer(PlainPtr(Pointer(Signed(8))), allocId, ptrOffset.value, depth - 1);
        if p.Err? {
          failure := Some(p.error);
          return;
        }
        offsets := offsets + [offset];
        ptrs := ptrs + [p.value];
        j := j + 1;
      }
      if !WellPlaced(offsets, pointerSize, |alloc.bytes|) {
        failure := Some(SourcePanic);
        return;
      }
      var data := AllocationData(alloc.bytes, offsets, ptrs, pointerSize);
      var structTy := Named(name + "::struct");
      var init := StructOf(structTy, FieldInits(data));
      assert offsets == ProvenanceOffsets(alloc.provenance);
      existed := name in globals;
      EnsureGlobal(name, alloc.immutable && !hasInteriorMutability, init);
      allocMap := allocMap[alloc := name];
      return None, existed;
    }

    /**
     * A pointer into the allocation `allocId` at byte `offset`: the base address (a
     * function's address, a static, or a materialised global) as a byte pointer plus the
     * offset, cast to the pointer type (through its transparent wrapper if it has one).
     */
    method AllocPointer(resT: PtrType, allocId: nat, offset: nat, depth: nat)
      returns (r: Result<Expr, Failure>)
      requires Valid()
      modifies this
      decreases depth, 2
      ensures Valid()
      ensures forall a :: a in old(allocMap) ==> a in allocMap && allocMap[a] == old(allocMap)[a]
      ensures forall n :: n in old(globals) ==> n in globals && globals[n] == old(globals)[n]
      ensures r.Ok? ==> exists base :: r.value == PointerAt(resT, base, offset)
      ensures allocId !in memory || memory[allocId].TypeIdAlloc? ==> r == Err(SourcePanic)
      ensures allocId in memory && memory[allocId].FunctionAlloc? ==>
        r == Ok(PointerAt(resT, AddressOf(memory[allocId].funcExpr), offset))
    {
      if allocId !in memory {
        return Err(SourcePanic);
      }
      var base: Expr;
      match memory[allocId] {
        case FunctionAlloc(funcExpr) =>
          base := AddressOf(funcExpr);
        case StaticAlloc(isAnon, initializer, mangled) =>
          if isAnon {
            var b := ConstAllocation(initializer, Some(allocName(allocId)), depth);
            if b.Err? { return Err(b.error); }
            base := b.value;
          } else {
            base := AddressOf(Sym(mangled));
          }
        case MemoryAlloc(a) =>
          var b := ConstAllocation(a, Some(allocName(allocId)), depth);
          if b.Err? { return Err(b.error); }
          base := b.value;
        case VTableAlloc(vt) =>
          if !vt.MemoryAlloc? {
            return Err(SourcePanic);
          }
          var b := ConstAllocation(vt.alloc, Some(allocName(allocId)), depth);
          if b.Err? { return Err(b.error); }
          base := b.value;
        case TypeIdAlloc =>
          return Err(SourcePanic);
      }
      return Ok(PointerAt(resT, base, offset));
    }

    /**
     * A pointer constant. A fat pointer to a `str` or a slice points at the materialised
     * buffer of its single provenance entry, with the length in bytes (for `str`) or in
     * elements (for a slice); a C string is not supported. A thin pointer with
     * provenance points into its target; without provenance it is the address read as
     * an integer.
     */
    method ConstPtr(alloc: Allocation, ptrTy: PtrType, fat: Option<FatPointee>, depth: nat)
      returns (r: Result<Expr, Failure>)
      requires Valid()
      modifies this
      decreases depth, 3
      ensures Valid()
      ensures forall a :: a in old(allocMap) ==> a in allocMap && allocMap[a] == old(allocMap)[a]
      ensures forall n :: n in old(globals) ==> n in globals && globals[n] == old(globals)[n]
      ensures fat.Some? && (fat.value.StrPointee? || fat.value.SlicePointee?) && |alloc.provenance| != 1 ==>
        r == Err(SourcePanic)
      ensures fat.Some? && fat.value.CStrPointee? ==>
        r == Ok(Unimplemented("C string literal", ISSUE_2549))
      ensures fat.Some? && (fat.value.StrPointee? || fat.value.SlicePointee?) && r.Ok? ==>
        && |alloc.provenance| == 1
        && alloc.provenance[0].1 in memory && memory[alloc.provenance[0].1].MemoryAlloc?
        && memory[alloc.provenance[0].1].alloc in allocMap
      ensures fat.Some? && fat.value.StrPointee? && r.Ok? && |alloc.provenance| == 1
              && alloc.provenance[0].1 in memory && memory[alloc.provenance[0].1].MemoryAlloc? ==>
        var data := memory[alloc.provenance[0].1].alloc;
        && data in allocMap
        && r.value == SliceFatPtr(PtrTypeOf(ptrTy), Cast(AddressOf(Sym(allocMap[data])), Pointer(Unsigned(8))),
                                 IntConst(|data.bytes|, SizeT))
        && allocMap[data] in strLiterals
      ensures fat.Some? && fat.value.SlicePointee? && r.Ok? && |alloc.provenance| == 1
              && alloc.provenance[0].1 in memory && memory[alloc.provenance[0].1].MemoryAlloc? ==>
        var data := memory[alloc.provenance[0].1].alloc;
        && fat.value.elemSize > 0
        && r.value.SliceFatPtr? && r.value.len == IntConst(|data.bytes| / fat.value.elemSize, SizeT)
      ensures fat.None? && alloc.provenance == [] ==>
        r == (if ReadUint(alloc).Some? then Ok(Cast(IntConst(ReadUint(alloc).value, SizeT), PtrTypeOf(ptrTy)))
              else Err(SourcePanic))
      ensures fat.None? && alloc.provenance != [] && r.Ok? ==>
        exists base :: r.value == PointerAt(ptrTy, base, alloc.provenance[0].0)
    {
      match fat {
        case Some(pointee) =>
          match pointee {
            case StrPointee =>
              if |alloc.provenance| != 1 { return Err(SourcePanic); }
              var id := alloc.provenance[0].1;
              if id !in memory || !memory[id].MemoryAlloc? { return Err(SourcePanic); }
              var data := memory[id].alloc;
              var memVar := ConstAllocation(data, None, depth);
              if memVar.Err? { return Err(memVar.error); }
              var raw := RawBytes(data.bytes);
              if raw.None? { return Err(SourcePanic); }
              strLiterals := strLiterals[allocMap[data] := raw.value];
              return Ok(SliceFatPtr(PtrTypeOf(ptrTy), Cast(memVar.value, Pointer(Unsigned(8))),
                                    IntConst(|data.bytes|, SizeT)));
            case SlicePointee(elemTy, elemSize) =>
              if |alloc.provenance| != 1 { return Err(SourcePanic); }
              var id := alloc.provenance[0].1;
              if id !in memory || !memory[id].MemoryAlloc? { return Err(SourcePanic); }
              var data := memory[id].alloc;
              var memVar := ConstAllocation(data, None, depth);
              if memVar.Err? { return Err(memVar.error); }
              if elemSize == 0 { return Err(SourcePanic); }
              return Ok(SliceFatPtr(PtrTypeOf(ptrTy), Cast(memVar.value, Pointer(elemTy)),
                                    IntConst(|data.bytes| / elemSize, SizeT)));
            case CStrPointee =>
              return Ok(Unimplemented("C string literal", ISSUE_2549));
            case OtherFatPointee =>
              return Err(SourcePanic);
          }
        case None =>
          if alloc.provenance != [] {
            var (offset, id) := alloc.provenance[0];
            r := AllocPointer(ptrTy, id, offset, depth);
          } else {
            var v := ReadUint(alloc);
            if v.None? { return Err(SourcePanic); }
            return Ok(Cast(IntConst(v.value, SizeT), PtrTypeOf(ptrTy)));
          }
      }
    }

    /**
     * The fast path for a constant: `Ok(None)` exactly when the type is not
     * `Expandable` (or an expansion fails further down), so that the constant goes
     * through a materialised global instead.
     */
    method TryConstant(alloc: Allocation, ty: RustTy, depth: nat)
      returns (r: Result<Option<Expr>, Failure>)
      requires Valid()
      modifies this
      decreases depth, 4, ty, 1
      ensures Valid()
      ensures forall a :: a in old(allocMap) ==> a in allocMap && allocMap[a] == old(allocMap)[a]
      ensures forall n :: n in old(globals) ==> n in globals && globals[n] == old(globals)[n]
      ensures !Expandable(ty) ==> r == Ok(None)
      ensures ty.IntT? ==> r == (if ReadInt(alloc).Some? then Ok(Some(IntConstant(ty.it, ReadInt(alloc).value))) else Err(SourcePanic))
      ensures ty.UintT? ==> r == (if ReadUint(alloc).Some? then Ok(Some(UintConstant(ty.ut, ReadUint(alloc).value))) else Err(SourcePanic))
      ensures ty.CharT? && ReadInt(alloc).Some? ==> r == Ok(Some(IntConst(ReadInt(alloc).value, Signed(32))))
      ensures ty.StructT? && r.Ok? && r.value.Some? && !ContainsSubstring(ty.name, "any::TypeId") ==>
        && r.value.value.StructOf? && |r.value.value.values| == |ty.fields|
        && forall i :: 0 <= i < |ty.fields| && ty.fields[i].isZst ==> r.value.value.values[i] == UnitValue(ty.fields[i].zstType)
      ensures ty.TupleT? && r.Ok? && r.value.Some? ==> r.value.value.Transmute? && r.value.value.typ == ty.typ
    {
      match ty {
        case IntT(it) =>
          var v := ReadInt(alloc);
          if v.None? { return Err(SourcePanic); }
          return Ok(Some(IntConstant(it, v.value)));
        case UintT(ut) =>
          var v := ReadUint(alloc);
          if v.None? { return Err(SourcePanic); }
          return Ok(Some(UintConstant(ut, v.value)));
        case BoolT =>
          var b := ReadBool(alloc);
          if b.None? { return Err(SourcePanic); }
          return Ok(Some(IntConst(if b.value then 1 else 0, CBool)));
        case CharT =>
          var v := ReadInt(alloc);
          if v.None? { return Err(SourcePanic); }
          return Ok(Some(IntConst(v.value, Signed(32))));
        case FloatT(ft) =>
          var v := ReadUint(alloc);
          if v.None? { return Err(SourcePanic); }
          var (width, bits) := match ft {
            case F16 => (16, WrapUnsigned(v.value, TWO_16))
            case F32 => (32, WrapUnsigned(v.value, TWO_32))
            case F64 => (64, WrapUnsigned(v.value, TWO_64))
            case F128 => (128, v.value)
          };
          return Ok(Some(FloatFromBits(bits, width)));
        case PtrT(ptrTy, fat) =>
          var p := ConstPtr(alloc, ptrTy, fat, depth);
          if p.Err? { return Err(p.error); }
          return Ok(Some(p.value));
        case StructT(name, typ, fields) =>
          if ContainsSubstring(name, "any::TypeId") {
            var v := ReadUint(alloc);
            if v.None? { return Err(SourcePanic); }
            return Ok(Some(Transmute(IntConst(v.value, Unsigned(128)), typ)));
          }
          r := StructConstant(alloc, ty, depth);
        case TupleT(typ, elems) =>
          if |elems| != 1 {
            return Ok(None);
          }
          var inner := TryConstant(alloc, elems[0], depth);
          if inner.Err? { return Err(inner.error); }
          if inner.value.None? {
            return Ok(None);
          }
          return Ok(Some(Transmute(inner.value.value, typ)));
        case OtherT(_) =>
          return Ok(None);
      }
    }

    /**
     * The struct arm of `TryConstant`: a struct with exactly one field that is
     * not zero-sized is built field by field, zero-sized fields becoming unit values.
     */
    method StructConstant(alloc: Allocation, ty: RustTy, depth: nat)
      returns (r: Result<Option<Expr>, Failure>)
      requires Valid() && ty.StructT? && !ContainsSubstring(ty.name, "any::TypeId")
      modifies this
      decreases depth, 4, ty, 0
      ensures Valid()
      ensures forall a :: a in old(allocMap) ==> a in allocMap && allocMap[a] == old(allocMap)[a]
      ensures forall n :: n in old(globals) ==> n in globals && globals[n] == old(globals)[n]
      ensures !Expandable(ty) ==> r == Ok(None)
      ensures r.Ok? && r.value.Some? ==>
        && r.value.value.StructOf? && |r.value.value.values| == |ty.fields|
        && forall i :: 0 <= i < |ty.fields| && ty.fields[i].isZst ==> r.value.value.values[i] == UnitValue(ty.fields[i].zstType)
    {
      var fields := ty.fields;
      if NonZstCount(fields) != 1 {
        return Ok(None);
      }
      var values: seq<Expr> := [];
      var i := 0;
      while i < |fields|
        invariant 0 <= i <= |fields| && |values| == i
        invariant Valid()
        invariant forall k :: 0 <= k < i && fields[k].isZst ==> values[k] == UnitValue(fields[k].zstType)
        invariant forall k :: 0 <= k < i && !fields[k].isZst ==> Expandable(fields[k].ty)
        invariant forall a :: a in old(allocMap) ==> a in allocMap && allocMap[a] == old(allocMap)[a]
        invariant forall n :: n in old(globals) ==> n in globals && globals[n] == old(globals)[n]
      {
        if fields[i].isZst {
          values := values + [UnitValue(fields[i].zstType)];
        } else {
          var f := TryConstant(alloc, fields[i].ty, depth);
          if f.Err? {
            forall k | 0 <= k < |fields| && !fields[k].isZst
              ensures Expandable(fields[k].ty)
            {
              OnlyDataField(fields, i, k);
            }
            return Err(f.error);
          }
          if f.value.None? {
            return Ok(None);
          }
          values := values + [f.value.value];
        }
        i := i + 1;
      }
      return Ok(Some(StructOf(ty.typ, values)));
    }

    /**
     * A constant with an allocation: the fast path when it applies, else the
     * materialised global read through a pointer of the constant's type.
     */
    method CodegenAllocation(alloc: Allocation, ty: RustTy, depth: nat) returns (r: Result<Expr, Failure>)
      requires Valid()
      modifies this
      ensures Valid()
      ensures forall a :: a in old(allocMap) ==> a in allocMap && allocMap[a] == old(allocMap)[a]
      ensures !Expandable(ty) && r.Ok? ==>
        && alloc in allocMap
        && r.value == Deref(Cast(Cast(AddressOf(Sym(allocMap[alloc])), Pointer(Unsigned(8))), Pointer(GotoType(ty))))
    {
      var fast := TryConstant(alloc, ty, depth);
      if fast.Err? { return Err(fast.error); }
      if fast.value.Some? {
        return Ok(fast.value.value);
      }
      var memVar := ConstAllocation(alloc, None, depth);
      if memVar.Err? { return Err(memVar.error); }
      return Ok(Deref(Cast(Cast(memVar.value, Pointer(Unsigned(8))), Pointer(GotoType(ty)))));
    }

    /**
     * A MIR or type-level constant: an allocated value goes through `CodegenAllocation`,
     * a zero-sized function item is its singleton global, any other zero-sized value is
     * the unit value of its type, and generic or unevaluated constants cannot reach here.
     */
    method CodegenConst(c: ConstKind, declared: set<string>, depth: nat) returns (r: Result<Expr, Failure>)
      requires Valid()
      modifies this
      ensures Valid()
      ensures forall a :: a in old(allocMap) ==> a in allocMap && allocMap[a] == old(allocMap)[a]
      ensures c.ZeroSized? ==> r == Ok(UnitValue(c.typ)) && globals == old(globals)
      ensures c.NotMonomorphic? ==> r == Err(SourcePanic)
      ensures c.ZeroSizedFnItem? ==>
        (r.Ok? <==> FuncSymbol(c.mangledName, c.isForeign, c.hasBody, declared, c.foreignSymbol).Some?)
      ensures c.ZeroSizedFnItem? && r.Ok? ==>
        r.value == Sym(FnItemName(FuncSymbol(c.mangledName, c.isForeign, c.hasBody, declared, c.foreignSymbol).value))
      ensures c.Allocated? && !Expandable(c.ty) && r.Ok? ==>
        && c.alloc in allocMap
        && r.value == Deref(Cast(Cast(AddressOf(Sym(allocMap[c.alloc])), Pointer(Unsigned(8))), Pointer(GotoType(c.ty))))
    {
      match c {
        case Allocated(alloc, ty) =>
          r := CodegenAllocation(alloc, ty, depth);
        case ZeroSizedFnItem(mangledName, isForeign, hasBody, foreignSymbol, itemType) =>
          var item := CodegenFnItem(mangledName, isForeign, hasBody, declared, foreignSymbol, itemType);
          if item.None? { return Err(SourcePanic); }
          return Ok(item.value);
        case ZeroSized(typ) =>
          return Ok(UnitValue(typ));
        case NotMonomorphic =>
          return Err(SourcePanic);
      }
    }

    /** A function item is its function's singleton global, `<mangled>::FnDefSingleton`. */
    method CodegenFnItem(mangledName: string, isForeign: bool, hasBody: bool, declared: set<string>,
                         foreignSymbol: string, itemType: Type) returns (r: Option<Expr>)
      requires Valid()
      modifies this
      ensures Valid() && allocMap == old(allocMap)
      ensures r.Some? <==> FuncSymbol(mangledName, isForeign, hasBody, declared, foreignSymbol).Some?
      ensures r.Some? ==>
        var name := FnItemName(FuncSymbol(mangledName, isForeign, hasBody, declared, foreignSymbol).value);
        r.value == Sym(name) && name in globals
    {
      var sym := FuncSymbol(mangledName, isForeign, hasBody, declared, foreignSymbol);
      if sym.None? {
        return None;
      }
      var name := FnItemName(sym.value);
      EnsureGlobal(name, false, UnitValue(itemType));
      return Some(Sym(name));
    }

    /** Materialising an allocation twice yields the same global. */
    method SameAllocationSameGlobal(alloc: Allocation, depth: nat) returns (r1: Result<Expr, Failure>, r2: Result<Expr, Failure>)
      requires Valid()
      modifies this
      ensures Valid()
      ensures r1.Ok? ==> r2 == r1
    {
      r1 := ConstAllocation(alloc, None, depth);
      r2 := ConstAllocation(alloc, None, depth);
    }
  }

  /** The initialised bytes of a buffer; `None` when one is uninitialised. */
  function RawBytes(bytes: seq<Option<Byte>>): (r: Option<seq<Byte>>)
    ensures r.Some? <==> forall i :: 0 <= i < |bytes| ==> bytes[i].Some?
    ensures r.Some? ==> |r.value| == |bytes| && forall i :: 0 <= i < |bytes| ==> r.value[i] == bytes[i].value
  {
    if bytes == [] then Some([])
    else if bytes[0].None? then None
    else match RawBytes(bytes[1..]) {
      case None => None
      case Some(rest) => Some([bytes[0].value] + rest)
    }
  }

  /** The pointer `offset` bytes past `base`, as a byte pointer, cast to the pointer type. */
  function PointerAt(resT: PtrType, base: Expr, offset: nat): Expr
  {
    var offsetAddr := Plus(Cast(base, Pointer(Unsigned(8))), IntConst(offset, Unsigned(64)));
    match resT
    case TransparentPtr(wrapper, inner) => Transmute(Cast(offsetAddr, inner), wrapper)
    case PlainPtr(t) => Cast(offsetAddr, t)
  }
}
