/**
 * Classification of the compiler intrinsics a Rust program calls: the name of the
 * intrinsic decides its variant, first among the names handled directly, then through an
 * ordered chain of families (atomics, SIMD, `f32`, `f64`); every recognised name also has
 * the shape of its signature checked (the number of inputs and the kind of each input and
 * of the output). An unknown name is kept as an unimplemented intrinsic pointing to the
 * issue tracker; names the compiler lowers before code generation must never arrive here.
 */
module Intrinsics {
  import opened Wrappers

  // ---------------------------------------------------------------------------
  // Intrinsics
  // ---------------------------------------------------------------------------

  datatype Intrinsic =
    | AddWithOverflow
    | AlignOfVal
    | ArithOffset
    | AssertInhabited
    | AssertMemUninitializedValid
    | AssertZeroValid
    | Assume
    | AtomicAnd
    | AtomicCxchg
    | AtomicCxchgWeak
    | AtomicFence
    | AtomicLoad
    | AtomicMax
    | AtomicMin
    | AtomicNand
    | AtomicOr
    | AtomicSingleThreadFence
    | AtomicStore
    | AtomicUmax
    | AtomicUmin
    | AtomicXadd
    | AtomicXchg
    | AtomicXor
    | AtomicXsub
    | Bitreverse
    | BlackBox
    | Breakpoint
    | Bswap
    | CeilF32
    | CeilF64
    | CompareBytes
    | Copy
    | CopySignF32
    | CopySignF64
    | CosF32
    | CosF64
    | Ctlz
    | CtlzNonZero
    | Ctpop
    | Cttz
    | CttzNonZero
    | DiscriminantValue
    | ExactDiv
    | Exp2F32
    | Exp2F64
    | ExpF32
    | ExpF64
    | FabsF32
    | FabsF64
    | FaddFast
    | FdivFast
    | FloatToIntUnchecked
    | FloorF32
    | FloorF64
    | FmafF32
    | FmafF64
    | FmulFast
    | Forget
    | FsubFast
    | IsValStaticallyKnown
    | Likely
    | Log10F32
    | Log10F64
    | Log2F32
    | Log2F64
    | LogF32
    | LogF64
    | MaxNumF32
    | MaxNumF64
    | MinNumF32
    | MinNumF64
    | MulWithOverflow
    | PowF32
    | PowF64
    | PowIF32
    | PowIF64
    | PtrGuaranteedCmp
    | PtrOffsetFrom
    | PtrOffsetFromUnsigned
    | RawEq
    | RetagBoxToRaw
    | RotateLeft
    | RotateRight
    | RoundF32
    | RoundF64
    | RoundTiesEvenF32
    | RoundTiesEvenF64
    | SaturatingAdd
    | SaturatingSub
    | SinF32
    | SinF64
    | SimdAdd
    | SimdAnd
    | SimdDiv
    | SimdRem
    | SimdEq
    | SimdExtract
    | SimdGe
    | SimdGt
    | SimdInsert
    | SimdLe
    | SimdLt
    | SimdMul
    | SimdNe
    | SimdOr
    | SimdShl
    | SimdShr
    | SimdShuffle(suffix: string)
    | SimdSub
    | SimdXor
    | SizeOfVal
    | SqrtF32
    | SqrtF64
    | SubWithOverflow
    | Transmute
    | TruncF32
    | TruncF64
    | TypedSwap
    | UnalignedVolatileLoad
    | UncheckedDiv
    | UncheckedRem
    | Unlikely
    | VolatileCopyMemory
    | VolatileCopyNonOverlappingMemory
    | VolatileLoad
    | VolatileStore
    | VtableSize
    | VtableAlign
    | WrappingAdd
    | WrappingMul
    | WrappingSub
    | WriteBytes
    | Unimplemented(name: string, issueLink: string)

  const ISSUE_CALLER_LOCATION := "https://github.com/model-checking/kani/issues/374"
  const ISSUE_CATCH_UNWIND := "https://github.com/model-checking/kani/issues/267"
  const ISSUE_NEW := "https://github.com/model-checking/kani/issues/new/choose"

  // ---------------------------------------------------------------------------
  // Types of a signature and the patterns they are checked against
  // ---------------------------------------------------------------------------

  datatype Mutability = Not | Mut
  datatype IntWidth = I8 | I16 | I32 | I64 | I128 | Isize
  datatype UintWidth = U8 | U16 | U32 | U64 | U128 | Usize
  datatype FloatWidth = F16 | F32 | F64 | F128

  /** The top-level kind of a type; `NonRigid` stands for parameters, aliases and bound types. */
  datatype Ty =
    | Bool
    | Tuple
    | RawPtr(ptrMut: Mutability)
    | Ref(refMut: Mutability)
    | Int(intWidth: IntWidth)
    | Uint(uintWidth: UintWidth)
    | Float(floatWidth: FloatWidth)
    | FnPtr
    | OtherRigid
    | NonRigid

  /** The patterns the signature checks use; `AnyTy` is `_`, which still needs a rigid type. */
  datatype TyPat =
    | AnyTy
    | BoolPat
    | TuplePat
    | RawPtrPat(m: Mutability)
    | RefPat(m: Mutability)
    | IntPat(iw: IntWidth)
    | UintPat(uw: UintWidth)
    | FloatPat(fw: FloatWidth)
    | AnyFloatPat
    | FnPtrPat
      /** `_` followed by the extra check of `float_to_int_unchecked` that the output is an integer. */
    | IntOrUintPat

  predicate Matches(t: Ty, p: TyPat)
  {
    match p
    case AnyTy => t != NonRigid
    case BoolPat => t == Bool
    case TuplePat => t == Tuple
    case RawPtrPat(m) => t == RawPtr(m)
    case RefPat(m) => t == Ref(m)
    case IntPat(w) => t == Int(w)
    case UintPat(w) => t == Uint(w)
    case FloatPat(w) => t == Float(w)
    case AnyFloatPat => t.Float?
    case FnPtrPat => t == FnPtr
    case IntOrUintPat => t.Int? || t.Uint?
  }

  datatype Sig = Sig(inputs: seq<Ty>, output: Ty)

  /**
   * The input checks of `assert_sig_matches!`, in order: each pattern needs an input of its
   * kind (indexing past the inputs fails like a mismatch), then no input may be left over.
   */
  predicate InputsMatch(inputs: seq<Ty>, pats: seq<TyPat>)
    decreases |pats|
  {
    if pats == [] then inputs == []
    else inputs != [] && Matches(inputs[0], pats[0]) && InputsMatch(inputs[1..], pats[1..])
  }

  predicate SigMatches(sig: Sig, pats: seq<TyPat>, output: TyPat)
  {
    InputsMatch(sig.inputs, pats) && Matches(sig.output, output)
  }

  /** The check succeeds exactly on as many inputs as patterns, each of its pattern's kind, and an output of its kind. */
  lemma {:induction false} InputsMatchSpec(inputs: seq<Ty>, pats: seq<TyPat>)
    ensures InputsMatch(inputs, pats) <==> |inputs| == |pats| && forall i :: 0 <= i < |pats| ==> Matches(inputs[i], pats[i])
    decreases |pats|
  {
    if pats != [] && inputs != [] {
      InputsMatchSpec(inputs[1..], pats[1..]);
      assert forall i :: 1 <= i < |pats| ==> pats[i] == pats[1..][i - 1];
      assert forall i :: 1 <= i < |inputs| ==> inputs[i] == inputs[1..][i - 1];
    }
  }

  lemma {:induction false} SigMatchesSpec(sig: Sig, pats: seq<TyPat>, output: TyPat)
    ensures SigMatches(sig, pats, output) <==>
      && |sig.inputs| == |pats|
      && (forall i :: 0 <= i < |pats| ==> Matches(sig.inputs[i], pats[i]))
      && Matches(sig.output, output)
  {
    InputsMatchSpec(sig.inputs, pats);
  }

  // ---------------------------------------------------------------------------
  // The name tables
  // ---------------------------------------------------------------------------

  /** One arm of a name match: a supported intrinsic with its signature, or a name lowered earlier. */
  datatype Entry =
    | Supported(inputs: seq<TyPat>, output: TyPat, intrinsic: Intrinsic)
    | Lowered

  /** Why classification panics: a signature of the wrong shape, or a name that should have been lowered. */
  datatype Panic = SignatureMismatch(name: string) | LoweredEarlier(name: string)

  /** The arms of `from_instance` from `add_with_overflow` to `copy_nonoverlapping`, in order. */
  function MainArmsA(name: string): Option<Entry>
  {
    if |name| == 17 && name == "add_with_overflow" then Some(Supported([AnyTy, AnyTy], TuplePat, AddWithOverflow))
    else if |name| == 8 && name == "align_of" then Some(Lowered)
    else if |name| == 12 && name == "align_of_val" then Some(Supported([RawPtrPat(Not)], UintPat(Usize), AlignOfVal))
    else if |name| == 12 && name == "arith_offset" then Some(Supported([RawPtrPat(Not), IntPat(Isize)], RawPtrPat(Not), ArithOffset))
    else if |name| == 16 && name == "assert_inhabited" then Some(Supported([], TuplePat, AssertInhabited))
    else if |name| == 30 && name == "assert_mem_uninitialized_valid" then Some(Supported([], TuplePat, AssertMemUninitializedValid))
    else if |name| == 17 && name == "assert_zero_valid" then Some(Supported([], TuplePat, AssertZeroValid))
    else if |name| == 6 && name == "assume" then Some(Supported([BoolPat], TuplePat, Assume))
    else if |name| == 10 && name == "bitreverse" then Some(Supported([AnyTy], AnyTy, Bitreverse))
    else if |name| == 9 && name == "black_box" then Some(Supported([AnyTy], AnyTy, BlackBox))
    else if |name| == 10 && name == "breakpoint" then Some(Supported([], TuplePat, Breakpoint))
    else if |name| == 5 && name == "bswap" then Some(Supported([AnyTy], AnyTy, Bswap))
    else if |name| == 15 && name == "caller_location" then Some(Supported([], RefPat(Not), Unimplemented("caller_location", ISSUE_CALLER_LOCATION)))
    else if |name| == 12 && name == "catch_unwind" then Some(Supported([FnPtrPat, RawPtrPat(Mut), FnPtrPat], IntPat(I32), Unimplemented("catch_unwind", ISSUE_CATCH_UNWIND)))
    else if |name| == 13 && name == "compare_bytes" then Some(Supported([RawPtrPat(Not), RawPtrPat(Not), UintPat(Usize)], IntPat(I32), CompareBytes))
    else if |name| == 4 && name == "copy" then Some(Supported([RawPtrPat(Not), RawPtrPat(Mut), UintPat(Usize)], TuplePat, Copy))
    else if |name| == 19 && name == "copy_nonoverlapping" then Some(Lowered)
    else None
  }

  /** The arms of `from_instance` from `ctlz` to `offset`, in order. */
  function MainArmsB(name: string): Option<Entry>
  {
    if |name| == 4 && name == "ctlz" then Some(Supported([AnyTy], UintPat(U32), Ctlz))
    else if |name| == 12 && name == "ctlz_nonzero" then Some(Supported([AnyTy], UintPat(U32), CtlzNonZero))
    else if |name| == 5 && name == "ctpop" then Some(Supported([AnyTy], UintPat(U32), Ctpop))
    else if |name| == 4 && name == "cttz" then Some(Supported([AnyTy], UintPat(U32), Cttz))
    else if |name| == 12 && name == "cttz_nonzero" then Some(Supported([AnyTy], UintPat(U32), CttzNonZero))
    else if |name| == 18 && name == "discriminant_value" then Some(Supported([RefPat(Not)], AnyTy, DiscriminantValue))
    else if |name| == 9 && name == "exact_div" then Some(Supported([AnyTy, AnyTy], AnyTy, ExactDiv))
    else if |name| == 9 && name == "fadd_fast" then Some(Supported([AnyTy, AnyTy], AnyTy, FaddFast))
    else if |name| == 9 && name == "fdiv_fast" then Some(Supported([AnyTy, AnyTy], AnyTy, FdivFast))
    else if |name| == 22 && name == "float_to_int_unchecked" then Some(Supported([AnyFloatPat], IntOrUintPat, FloatToIntUnchecked))
    else if |name| == 9 && name == "fmul_fast" then Some(Supported([AnyTy, AnyTy], AnyTy, FmulFast))
    else if |name| == 6 && name == "forget" then Some(Supported([AnyTy], TuplePat, Forget))
    else if |name| == 9 && name == "fsub_fast" then Some(Supported([AnyTy, AnyTy], AnyTy, FsubFast))
    else if |name| == 23 && name == "is_val_statically_known" then Some(Supported([AnyTy], BoolPat, IsValStaticallyKnown))
    else if |name| == 6 && name == "likely" then Some(Supported([BoolPat], BoolPat, Likely))
    else if |name| == 17 && name == "mul_with_overflow" then Some(Supported([AnyTy, AnyTy], TuplePat, MulWithOverflow))
    else if |name| == 10 && name == "needs_drop" then Some(Lowered)
    else if |name| == 6 && name == "offset" then Some(Lowered)
    else None
  }

  /** The arms of `from_instance` from `ptr_guaranteed_cmp` to `typed_swap_nonoverlapping`, in order. */
  function MainArmsC(name: string): Option<Entry>
  {
    if |name| == 18 && name == "ptr_guaranteed_cmp" then Some(Supported([RawPtrPat(Not), RawPtrPat(Not)], UintPat(U8), PtrGuaranteedCmp))
    else if |name| == 15 && name == "ptr_offset_from" then Some(Supported([RawPtrPat(Not), RawPtrPat(Not)], IntPat(Isize), PtrOffsetFrom))
    else if |name| == 24 && name == "ptr_offset_from_unsigned" then Some(Supported([RawPtrPat(Not), RawPtrPat(Not)], UintPat(Usize), PtrOffsetFromUnsigned))
    else if |name| == 6 && name == "raw_eq" then Some(Supported([RefPat(Not), RefPat(Not)], BoolPat, RawEq))
    else if |name| == 11 && name == "rotate_left" then Some(Supported([AnyTy, UintPat(U32)], AnyTy, RotateLeft))
    else if |name| == 12 && name == "rotate_right" then Some(Supported([AnyTy, UintPat(U32)], AnyTy, RotateRight))
    else if |name| == 14 && name == "saturating_add" then Some(Supported([AnyTy, AnyTy], AnyTy, SaturatingAdd))
    else if |name| == 14 && name == "saturating_sub" then Some(Supported([AnyTy, AnyTy], AnyTy, SaturatingSub))
    else if |name| == 7 && name == "size_of" then Some(Lowered)
    else if |name| == 11 && name == "size_of_val" then Some(Supported([RawPtrPat(Not)], UintPat(Usize), SizeOfVal))
    else if |name| == 17 && name == "sub_with_overflow" then Some(Supported([AnyTy, AnyTy], TuplePat, SubWithOverflow))
    else if |name| == 9 && name == "transmute" then Some(Supported([AnyTy], AnyTy, Transmute))
    else if |name| == 7 && name == "type_id" then Some(Lowered)
    else if |name| == 9 && name == "type_name" then Some(Lowered)
    else if |name| == 25 && name == "typed_swap_nonoverlapping" then Some(Supported([RawPtrPat(Mut), RawPtrPat(Mut)], TuplePat, TypedSwap))
    else None
  }

  /** The arms of `from_instance` from `unaligned_volatile_load` to `write_bytes`, in order. */
  function MainArmsD(name: string): Option<Entry>
  {
    if |name| == 23 && name == "unaligned_volatile_load" then Some(Supported([RawPtrPat(Not)], AnyTy, UnalignedVolatileLoad))
    else if |name| == 13 && name == "unchecked_add" then Some(Lowered)
    else if |name| == 13 && name == "unchecked_mul" then Some(Lowered)
    else if |name| == 13 && name == "unchecked_shl" then Some(Lowered)
    else if |name| == 13 && name == "unchecked_shr" then Some(Lowered)
    else if |name| == 13 && name == "unchecked_sub" then Some(Lowered)
    else if |name| == 13 && name == "unchecked_div" then Some(Supported([AnyTy, AnyTy], AnyTy, UncheckedDiv))
    else if |name| == 13 && name == "unchecked_rem" then Some(Supported([AnyTy, AnyTy], AnyTy, UncheckedRem))
    else if |name| == 8 && name == "unlikely" then Some(Supported([BoolPat], BoolPat, Unlikely))
    else if |name| == 11 && name == "unreachable" then Some(Lowered)
    else if |name| == 13 && name == "variant_count" then Some(Lowered)
    else if |name| == 20 && name == "volatile_copy_memory" then Some(Supported([RawPtrPat(Mut), RawPtrPat(Not), UintPat(Usize)], TuplePat, VolatileCopyMemory))
    else if |name| == 35 && name == "volatile_copy_nonoverlapping_memory" then Some(Supported([RawPtrPat(Mut), RawPtrPat(Not), UintPat(Usize)], TuplePat, VolatileCopyNonOverlappingMemory))
    else if |name| == 13 && name == "volatile_load" then Some(Supported([RawPtrPat(Not)], AnyTy, VolatileLoad))
    else if |name| == 14 && name == "volatile_store" then Some(Supported([RawPtrPat(Mut), AnyTy], TuplePat, VolatileStore))
    else if |name| == 11 && name == "vtable_size" then Some(Supported([RawPtrPat(Not)], UintPat(Usize), VtableSize))
    else if |name| == 12 && name == "vtable_align" then Some(Supported([RawPtrPat(Not)], UintPat(Usize), VtableAlign))
    else if |name| == 12 && name == "wrapping_add" then Some(Supported([AnyTy, AnyTy], AnyTy, WrappingAdd))
    else if |name| == 12 && name == "wrapping_mul" then Some(Supported([AnyTy, AnyTy], AnyTy, WrappingMul))
    else if |name| == 12 && name == "wrapping_sub" then Some(Supported([AnyTy, AnyTy], AnyTy, WrappingSub))
    else if |name| == 11 && name == "write_bytes" then Some(Supported([RawPtrPat(Mut), UintPat(U8), UintPat(Usize)], TuplePat, WriteBytes))
    else None
  }

  /** The arms of `try_match_atomic`. */
  function AtomicArms(name: string): Option<Entry>
  {
    if |name| == 10 && name == "atomic_and" then Some(Supported([RawPtrPat(Mut), AnyTy], AnyTy, AtomicAnd))
    else if |name| == 16 && name == "atomic_cxchgweak" then Some(Supported([RawPtrPat(Mut), AnyTy, AnyTy], TuplePat, AtomicCxchgWeak))
    else if |name| == 12 && name == "atomic_cxchg" then Some(Supported([RawPtrPat(Mut), AnyTy, AnyTy], TuplePat, AtomicCxchg))
    else if |name| == 12 && name == "atomic_fence" then Some(Supported([], TuplePat, AtomicFence))
    else if |name| == 11 && name == "atomic_load" then Some(Supported([RawPtrPat(Not)], AnyTy, AtomicLoad))
    else if |name| == 10 && name == "atomic_max" then Some(Supported([RawPtrPat(Mut), AnyTy], AnyTy, AtomicMax))
    else if |name| == 10 && name == "atomic_min" then Some(Supported([RawPtrPat(Mut), AnyTy], AnyTy, AtomicMin))
    else if |name| == 11 && name == "atomic_nand" then Some(Supported([RawPtrPat(Mut), AnyTy], AnyTy, AtomicNand))
    else if |name| == 9 && name == "atomic_or" then Some(Supported([RawPtrPat(Mut), AnyTy], AnyTy, AtomicOr))
    else if |name| == 24 && name == "atomic_singlethreadfence" then Some(Supported([], TuplePat, AtomicSingleThreadFence))
    else if |name| == 12 && name == "atomic_store" then Some(Supported([RawPtrPat(Mut), AnyTy], TuplePat, AtomicStore))
    else if |name| == 11 && name == "atomic_umax" then Some(Supported([RawPtrPat(Mut), AnyTy], AnyTy, AtomicUmax))
    else if |name| == 11 && name == "atomic_umin" then Some(Supported([RawPtrPat(Mut), AnyTy], AnyTy, AtomicUmin))
    else if |name| == 11 && name == "atomic_xadd" then Some(Supported([RawPtrPat(Mut), AnyTy], AnyTy, AtomicXadd))
    else if |name| == 11 && name == "atomic_xchg" then Some(Supported([RawPtrPat(Mut), AnyTy], AnyTy, AtomicXchg))
    else if |name| == 10 && name == "atomic_xor" then Some(Supported([RawPtrPat(Mut), AnyTy], AnyTy, AtomicXor))
    else if |name| == 11 && name == "atomic_xsub" then Some(Supported([RawPtrPat(Mut), AnyTy], AnyTy, AtomicXsub))
    else None
  }

  /** The arms of `try_match_simd` that match a whole name. */
  function SimdArms(name: string): Option<Entry>
  {
    if |name| == 8 && name == "simd_add" then Some(Supported([AnyTy, AnyTy], AnyTy, SimdAdd))
    else if |name| == 8 && name == "simd_and" then Some(Supported([AnyTy, AnyTy], AnyTy, SimdAnd))
    else if |name| == 8 && name == "simd_div" then Some(Supported([AnyTy, AnyTy], AnyTy, SimdDiv))
    else if |name| == 8 && name == "simd_rem" then Some(Supported([AnyTy, AnyTy], AnyTy, SimdRem))
    else if |name| == 7 && name == "simd_eq" then Some(Supported([AnyTy, AnyTy], AnyTy, SimdEq))
    else if |name| == 12 && name == "simd_extract" then Some(Supported([AnyTy, UintPat(U32)], AnyTy, SimdExtract))
    else if |name| == 7 && name == "simd_ge" then Some(Supported([AnyTy, AnyTy], AnyTy, SimdGe))
    else if |name| == 7 && name == "simd_gt" then Some(Supported([AnyTy, AnyTy], AnyTy, SimdGt))
    else if |name| == 11 && name == "simd_insert" then Some(Supported([AnyTy, UintPat(U32), AnyTy], AnyTy, SimdInsert))
    else if |name| == 7 && name == "simd_le" then Some(Supported([AnyTy, AnyTy], AnyTy, SimdLe))
    else if |name| == 7 && name == "simd_lt" then Some(Supported([AnyTy, AnyTy], AnyTy, SimdLt))
    else if |name| == 8 && name == "simd_mul" then Some(Supported([AnyTy, AnyTy], AnyTy, SimdMul))
    else if |name| == 7 && name == "simd_ne" then Some(Supported([AnyTy, AnyTy], AnyTy, SimdNe))
    else if |name| == 7 && name == "simd_or" then Some(Supported([AnyTy, AnyTy], AnyTy, SimdOr))
    else if |name| == 8 && name == "simd_shl" then Some(Supported([AnyTy, AnyTy], AnyTy, SimdShl))
    else if |name| == 8 && name == "simd_shr" then Some(Supported([AnyTy, AnyTy], AnyTy, SimdShr))
    else if |name| == 8 && name == "simd_sub" then Some(Supported([AnyTy, AnyTy], AnyTy, SimdSub))
    else if |name| == 8 && name == "simd_xor" then Some(Supported([AnyTy, AnyTy], AnyTy, SimdXor))
    else None
  }

  /** The arms of `try_match_f32`. */
  function F32Arms(name: string): Option<Entry>
  {
    if |name| == 7 && name == "ceilf32" then Some(Supported([FloatPat(F32)], FloatPat(F32), CeilF32))
    else if |name| == 11 && name == "copysignf32" then Some(Supported([FloatPat(F32), FloatPat(F32)], FloatPat(F32), CopySignF32))
    else if |name| == 6 && name == "cosf32" then Some(Supported([FloatPat(F32)], FloatPat(F32), CosF32))
    else if |name| == 7 && name == "exp2f32" then Some(Supported([FloatPat(F32)], FloatPat(F32), Exp2F32))
    else if |name| == 6 && name == "expf32" then Some(Supported([FloatPat(F32)], FloatPat(F32), ExpF32))
    else if |name| == 7 && name == "fabsf32" then Some(Supported([FloatPat(F32)], FloatPat(F32), FabsF32))
    else if |name| == 8 && name == "floorf32" then Some(Supported([FloatPat(F32)], FloatPat(F32), FloorF32))
    else if |name| == 6 && name == "fmaf32" then Some(Supported([FloatPat(F32), FloatPat(F32), FloatPat(F32)], FloatPat(F32), FmafF32))
    else if |name| == 8 && name == "log10f32" then Some(Supported([FloatPat(F32)], FloatPat(F32), Log10F32))
    else if |name| == 7 && name == "log2f32" then Some(Supported([FloatPat(F32)], FloatPat(F32), Log2F32))
    else if |name| == 6 && name == "logf32" then Some(Supported([FloatPat(F32)], FloatPat(F32), LogF32))
    else if |name| == 9 && name == "maxnumf32" then Some(Supported([FloatPat(F32), FloatPat(F32)], FloatPat(F32), MaxNumF32))
    else if |name| == 9 && name == "minnumf32" then Some(Supported([FloatPat(F32), FloatPat(F32)], FloatPat(F32), MinNumF32))
    else if |name| == 6 && name == "powf32" then Some(Supported([FloatPat(F32), FloatPat(F32)], FloatPat(F32), PowF32))
    else if |name| == 7 && name == "powif32" then Some(Supported([FloatPat(F32), IntPat(I32)], FloatPat(F32), PowIF32))
    else if |name| == 8 && name == "roundf32" then Some(Supported([FloatPat(F32)], FloatPat(F32), RoundF32))
    else if |name| == 19 && name == "round_ties_even_f32" then Some(Supported([FloatPat(F32)], FloatPat(F32), RoundTiesEvenF32))
    else if |name| == 6 && name == "sinf32" then Some(Supported([FloatPat(F32)], FloatPat(F32), SinF32))
    else if |name| == 7 && name == "sqrtf32" then Some(Supported([FloatPat(F32)], FloatPat(F32), SqrtF32))
    else if |name| == 8 && name == "truncf32" then Some(Supported([FloatPat(F32)], FloatPat(F32), TruncF32))
    else None
  }

  /** The arms of `try_match_f64`. */
  function F64Arms(name: string): Option<Entry>
  {
    if |name| == 7 && name == "ceilf64" then Some(Supported([FloatPat(F64)], FloatPat(F64), CeilF64))
    else if |name| == 11 && name == "copysignf64" then Some(Supported([FloatPat(F64), FloatPat(F64)], FloatPat(F64), CopySignF64))
    else if |name| == 6 && name == "cosf64" then Some(Supported([FloatPat(F64)], FloatPat(F64), CosF64))
    else if |name| == 7 && name == "exp2f64" then Some(Supported([FloatPat(F64)], FloatPat(F64), Exp2F64))
    else if |name| == 6 && name == "expf64" then Some(Supported([FloatPat(F64)], FloatPat(F64), ExpF64))
    else if |name| == 7 && name == "fabsf64" then Some(Supported([FloatPat(F64)], FloatPat(F64), FabsF64))
    else if |name| == 8 && name == "floorf64" then Some(Supported([FloatPat(F64)], FloatPat(F64), FloorF64))
    else if |name| == 6 && name == "fmaf64" then Some(Supported([FloatPat(F64), FloatPat(F64), FloatPat(F64)], FloatPat(F64), FmafF64))
    else if |name| == 8 && name == "log10f64" then Some(Supported([FloatPat(F64)], FloatPat(F64), Log10F64))
    else if |name| == 7 && name == "log2f64" then Some(Supported([FloatPat(F64)], FloatPat(F64), Log2F64))
    else if |name| == 6 && name == "logf64" then Some(Supported([FloatPat(F64)], FloatPat(F64), LogF64))
    else if |name| == 9 && name == "maxnumf64" then Some(Supported([FloatPat(F64), FloatPat(F64)], FloatPat(F64), MaxNumF64))
    else if |name| == 9 && name == "minnumf64" then Some(Supported([FloatPat(F64), FloatPat(F64)], FloatPat(F64), MinNumF64))
    else if |name| == 6 && name == "powf64" then Some(Supported([FloatPat(F64), FloatPat(F64)], FloatPat(F64), PowF64))
    else if |name| == 7 && name == "powif64" then Some(Supported([FloatPat(F64), IntPat(I32)], FloatPat(F64), PowIF64))
    else if |name| == 8 && name == "roundf64" then Some(Supported([FloatPat(F64)], FloatPat(F64), RoundF64))
    else if |name| == 19 && name == "round_ties_even_f64" then Some(Supported([FloatPat(F64)], FloatPat(F64), RoundTiesEvenF64))
    else if |name| == 6 && name == "sinf64" then Some(Supported([FloatPat(F64)], FloatPat(F64), SinF64))
    else if |name| == 7 && name == "sqrtf64" then Some(Supported([FloatPat(F64)], FloatPat(F64), SqrtF64))
    else if |name| == 8 && name == "truncf64" then Some(Supported([FloatPat(F64)], FloatPat(F64), TruncF64))
    else None
  }

  /** The arm of `from_instance` for a name: the four runs are tried in source order. */
  function MainArm(name: string): Option<Entry>
  {
    if MainArmsA(name).Some? then MainArmsA(name)
    else if MainArmsB(name).Some? then MainArmsB(name)
    else if MainArmsC(name).Some? then MainArmsC(name)
    else MainArmsD(name)
  }

  /** Running an arm: a lowered name panics; a supported one checks the signature and yields its variant. */
  function RunArm(name: string, arm: Option<Entry>, sig: Sig): Option<Result<Intrinsic, Panic>>
  {
    match arm
    case None => None
    case Some(Lowered) => Some(Err(LoweredEarlier(name)))
    case Some(Supported(inputs, output, intrinsic)) =>
      Some(if SigMatches(sig, inputs, output) then Ok(intrinsic) else Err(SignatureMismatch(name)))
  }

  const SIMD_SHUFFLE := "simd_shuffle"

  /** `try_match_simd`: the whole names, then any name starting with `simd_shuffle`, which takes three inputs. */
  function TryMatchSimd(name: string, sig: Sig): Option<Result<Intrinsic, Panic>>
  {
    if SimdArms(name).Some? then RunArm(name, SimdArms(name), sig)
    else if SIMD_SHUFFLE <= name then
      Some(if SigMatches(sig, [AnyTy, AnyTy, AnyTy], AnyTy) then Ok(SimdShuffle(name[|SIMD_SHUFFLE|..]))
           else Err(SignatureMismatch(name)))
    else None
  }

  /** The families tried, in order, for a name the main match does not handle. */
  function Fallbacks(name: string, sig: Sig): seq<Option<Result<Intrinsic, Panic>>>
  {
    [RunArm(name, AtomicArms(name), sig), TryMatchSimd(name, sig), RunArm(name, F32Arms(name), sig), RunArm(name, F64Arms(name), sig)]
  }

  /** The chain of `or_else`: the first family that recognises the name. */
  function FirstSome<T>(tries: seq<Option<T>>): Option<T>
  {
    if tries == [] then None
    else if tries[0].Some? then tries[0]
    else FirstSome(tries[1..])
  }

  /** `Intrinsic::from_instance`. */
  function FromInstance(name: string, sig: Sig): Result<Intrinsic, Panic>
  {
    match RunArm(name, MainArm(name), sig)
    case Some(r) => r
    case None =>
      match FirstSome(Fallbacks(name, sig))
      case Some(r) => r
      case None => Ok(Unimplemented(name, ISSUE_NEW))
  }

  // ---------------------------------------------------------------------------
  // Properties
  // ---------------------------------------------------------------------------

  /** The `or_else` chain yields the first family that recognises the name, and nothing when none does. */
  lemma {:induction false} FirstSomeSpec<T>(tries: seq<Option<T>>)
    ensures FirstSome(tries).None? <==> forall k :: 0 <= k < |tries| ==> tries[k].None?
    ensures FirstSome(tries).Some? ==>
      exists k :: 0 <= k < |tries| && tries[k] == FirstSome(tries) && forall j :: 0 <= j < k ==> tries[j].None?
  {
    if tries != [] && tries[0].None? {
      FirstSomeSpec(tries[1..]);
      assert forall k :: 1 <= k < |tries| ==> tries[k] == tries[1..][k - 1];
      if FirstSome(tries).Some? {
        var k :| 0 <= k < |tries[1..]| && tries[1..][k] == FirstSome(tries) && forall j :: 0 <= j < k ==> tries[1..][j].None?;
        assert tries[k + 1] == tries[1..][k];
      }
    }
  }

  /**
   * For a name the main match does not handle, the first family in the order atomic,
   * SIMD, `f32`, `f64` that recognises the name decides, whatever later families say.
   */
  lemma {:induction false} FallbackFirstMatchWins(name: string, sig: Sig, k: nat)
    requires MainArm(name).None?
    requires k < 4 && Fallbacks(name, sig)[k].Some?
    requires forall j :: 0 <= j < k ==> Fallbacks(name, sig)[j].None?
    ensures FromInstance(name, sig) == Fallbacks(name, sig)[k].value
  {
    var tries := Fallbacks(name, sig);
    FirstSomeSpec(tries);
    var i :| 0 <= i < |tries| && tries[i] == FirstSome(tries) && forall j :: 0 <= j < i ==> tries[j].None?;
    assert i == k;
  }

  /** No arm of any table yields an unimplemented intrinsic pointing to the generic issue link. */
  predicate NotNewIssue(arm: Option<Entry>)
  {
    arm.None? || arm.value.Lowered? || !arm.value.intrinsic.Unimplemented? || arm.value.intrinsic.issueLink != ISSUE_NEW
  }

  lemma {:induction false} NotNewIssueA(name: string)
    ensures NotNewIssue(MainArmsA(name))
  {
  }

  lemma {:induction false} NotNewIssueB(name: string)
    ensures NotNewIssue(MainArmsB(name))
  {
  }

  lemma {:induction false} NotNewIssueC(name: string)
    ensures NotNewIssue(MainArmsC(name))
  {
  }

  lemma {:induction false} NotNewIssueD(name: string)
    ensures NotNewIssue(MainArmsD(name))
  {
  }

  lemma {:induction false} NotNewIssueAtomic(name: string)
    ensures NotNewIssue(AtomicArms(name))
  {
  }

  lemma {:induction false} NotNewIssueSimd(name: string)
    ensures NotNewIssue(SimdArms(name))
  {
  }

  lemma {:induction false} NotNewIssueF32(name: string)
    ensures NotNewIssue(F32Arms(name))
  {
  }

  lemma {:induction false} NotNewIssueF64(name: string)
    ensures NotNewIssue(F64Arms(name))
  {
  }

  /** Running an arm that does not carry the generic issue link never yields it. */
  lemma {:induction false} RunArmNotNew(name: string, arm: Option<Entry>, sig: Sig)
    requires NotNewIssue(arm)
    ensures RunArm(name, arm, sig) != Some(Ok(Unimplemented(name, ISSUE_NEW)))
  {
  }

  // The first letters of the names of each run of arms, which tell runs apart cheaply.

  lemma {:induction false} InitialsA(name: string)
    ensures MainArmsA(name).Some? ==> |name| > 0 && name[0] in "abc"
  {
  }

  lemma {:induction false} InitialsB(name: string)
    ensures MainArmsB(name).Some? ==> |name| > 0 && name[0] in "cdefilmno"
  {
  }

  lemma {:induction false} InitialsC(name: string)
    ensures MainArmsC(name).Some? ==> |name| > 0 && name[0] in "prst"
  {
  }

  lemma {:induction false} InitialsD(name: string)
    ensures MainArmsD(name).Some? ==> |name| > 0 && name[0] in "uvw"
  {
  }

  lemma {:induction false} InitialsAtomic(name: string)
    ensures AtomicArms(name).Some? ==> |name| > 0 && name[0] == 'a'
  {
  }

  lemma {:induction false} InitialsSimd(name: string)
    ensures SimdArms(name).Some? ==> |name| > 0 && name[0] == 's'
  {
  }

  lemma {:induction false} ShufflePrefix(name: string)
    ensures SIMD_SHUFFLE <= name ==> |name| >= 12 && name[0] == 's' && name[7] == 'u'
  {
  }

  lemma {:induction false} NotShuffleC(name: string)
    ensures MainArmsC(name).Some? ==> !(SIMD_SHUFFLE <= name)
  {
    ShufflePrefix(name);
  }

  lemma {:induction false} NotShuffleSimd(name: string)
    ensures SimdArms(name).Some? ==> !(SIMD_SHUFFLE <= name)
  {
    ShufflePrefix(name);
  }

  /** A name no table knows, and not a shuffle. */
  predicate Unknown(name: string)
  {
    && MainArm(name).None? && AtomicArms(name).None? && SimdArms(name).None?
    && !(SIMD_SHUFFLE <= name) && F32Arms(name).None? && F64Arms(name).None?
  }

  /**
   * An unknown name, and only an unknown name, becomes an unimplemented intrinsic that
   * carries the name and the link for opening a new issue, whatever its signature.
   */
  lemma {:induction false} UnknownIsUnimplemented(name: string, sig: Sig)
    ensures FromInstance(name, sig) == Ok(Unimplemented(name, ISSUE_NEW)) <==> Unknown(name)
  {
    var main := RunArm(name, MainArm(name), sig);
    var tries := Fallbacks(name, sig);
    MainArmNotNew(name, sig);
    FallbacksNotNew(name, sig);
    assert main.None? <==> MainArm(name).None?;
    assert forall k :: 0 <= k < 4 ==> (tries[k].None? <==> FallbackArm(name, k).None?);
    assert Unknown(name) <==>
      (MainArm(name).None? && FallbackArm(name, 0).None? && FallbackArm(name, 1).None?
       && FallbackArm(name, 2).None? && FallbackArm(name, 3).None?);
    FirstSomeSpec(tries);
    if main.Some? {
      assert FromInstance(name, sig) == main.value;
    } else if FirstSome(tries).Some? {
      var k :| 0 <= k < |tries| && tries[k] == FirstSome(tries) && forall j :: 0 <= j < k ==> tries[j].None?;
      assert FromInstance(name, sig) == tries[k].value;
    } else {
      assert FromInstance(name, sig) == Ok(Unimplemented(name, ISSUE_NEW));
    }
  }

  /** The table entry behind each fallback family, with the shuffle prefix folded into the SIMD one. */
  function FallbackArm(name: string, k: nat): Option<Entry>
    requires k < 4
  {
    if k == 0 then AtomicArms(name)
    else if k == 1 then (if SimdArms(name).None? && SIMD_SHUFFLE <= name then Some(Lowered) else SimdArms(name))
    else if k == 2 then F32Arms(name)
    else F64Arms(name)
  }

  lemma {:induction false} MainArmNotNew(name: string, sig: Sig)
    ensures RunArm(name, MainArm(name), sig) != Some(Ok(Unimplemented(name, ISSUE_NEW)))
  {
    NotNewIssueA(name);
    NotNewIssueB(name);
    NotNewIssueC(name);
    NotNewIssueD(name);
    RunArmNotNew(name, MainArm(name), sig);
  }

  lemma {:induction false} FallbacksNotNew(name: string, sig: Sig)
    ensures forall k :: 0 <= k < 4 ==> Fallbacks(name, sig)[k] != Some(Ok(Unimplemented(name, ISSUE_NEW)))
  {
    NotNewIssueAtomic(name);
    NotNewIssueSimd(name);
    NotNewIssueF32(name);
    NotNewIssueF64(name);
    RunArmNotNew(name, AtomicArms(name), sig);
    RunArmNotNew(name, SimdArms(name), sig);
    RunArmNotNew(name, F32Arms(name), sig);
    RunArmNotNew(name, F64Arms(name), sig);
  }

  /**
   * Every name starting with `simd_shuffle` is a shuffle whose variant keeps the rest of
   * the name, and its signature must have exactly three inputs.
   */
  lemma {:induction false} ShuffleSpec(suffix: string, sig: Sig)
    ensures var name := SIMD_SHUFFLE + suffix;
      FromInstance(name, sig) ==
        if SigMatches(sig, [AnyTy, AnyTy, AnyTy], AnyTy) then Ok(SimdShuffle(suffix)) else Err(SignatureMismatch(name))
    ensures var name := SIMD_SHUFFLE + suffix; FromInstance(name, sig).Ok? ==> |sig.inputs| == 3
  {
    var name := SIMD_SHUFFLE + suffix;
    assert name[0] == 's';
    InitialsA(name);
    InitialsB(name);
    NotShuffleC(name);
    InitialsD(name);
    InitialsAtomic(name);
    NotShuffleSimd(name);
    assert name[|SIMD_SHUFFLE|..] == suffix;
    FallbackFirstMatchWins(name, sig, 1);
    SigMatchesSpec(sig, [AnyTy, AnyTy, AnyTy], AnyTy);
  }

  lemma {:induction false} CallerLocationIsUnimplemented(sig: Sig)
    ensures FromInstance("caller_location", sig) ==
      if SigMatches(sig, [], RefPat(Not)) then Ok(Unimplemented("caller_location", ISSUE_CALLER_LOCATION))
      else Err(SignatureMismatch("caller_location"))
  {
  }

  lemma {:induction false} CatchUnwindIsUnimplemented(sig: Sig)
    ensures FromInstance("catch_unwind", sig) ==
      if SigMatches(sig, [FnPtrPat, RawPtrPat(Mut), FnPtrPat], IntPat(I32)) then Ok(Unimplemented("catch_unwind", ISSUE_CATCH_UNWIND))
      else Err(SignatureMismatch("catch_unwind"))
  {
  }

  /** The names the compiler lowers or evaluates before code generation. */
  const LOWERED_A: set<string> := {"align_of", "copy_nonoverlapping"}
  const LOWERED_B: set<string> := {"needs_drop", "offset"}
  const LOWERED_C: set<string> := {"size_of", "type_id", "type_name"}
  const LOWERED_D: set<string> := {"unchecked_add", "unchecked_mul", "unchecked_shl", "unchecked_shr", "unchecked_sub", "unreachable", "variant_count"}

  lemma {:induction false} LoweredInA(name: string)
    requires name in LOWERED_A
    ensures MainArm(name) == Some(Lowered)
  {
  }

  lemma {:induction false} LoweredInB(name: string)
    requires name in LOWERED_B
    ensures MainArm(name) == Some(Lowered)
  {
    InitialsA(name);
  }

  lemma {:induction false} LoweredInC(name: string)
    requires name in LOWERED_C
    ensures MainArm(name) == Some(Lowered)
  {
    InitialsA(name);
    InitialsB(name);
  }

  lemma {:induction false} LoweredInD(name: string)
    requires name in LOWERED_D
    ensures MainArm(name) == Some(Lowered)
  {
    InitialsA(name);
    InitialsB(name);
    InitialsC(name);
    if name in LOWERED_UNCHECKED {
      LoweredUnchecked(name);
    } else {
      LoweredUnreachable(name);
    }
  }

  const LOWERED_UNCHECKED: set<string> := {"unchecked_add", "unchecked_mul", "unchecked_shl", "unchecked_shr", "unchecked_sub"}

  lemma {:induction false} LoweredUnchecked(name: string)
    requires name in LOWERED_UNCHECKED
    ensures MainArmsD(name) == Some(Lowered)
  {
  }

  lemma {:induction false} LoweredUnreachable(name: string)
    requires name == "unreachable" || name == "variant_count"
    ensures MainArmsD(name) == Some(Lowered)
  {
  }

  /** Reaching code generation with a name that should have been lowered earlier is a panic, whatever the signature. */
  lemma {:induction false} LoweredNamesPanic(name: string, sig: Sig)
    requires name in LOWERED_A + LOWERED_B + LOWERED_C + LOWERED_D
    ensures FromInstance(name, sig) == Err(LoweredEarlier(name))
  {
    if name in LOWERED_A {
      LoweredInA(name);
    } else if name in LOWERED_B {
      LoweredInB(name);
    } else if name in LOWERED_C {
      LoweredInC(name);
    } else {
      LoweredInD(name);
    }
  }

  /** `powif32` takes an `f32` and an `i32` and returns an `f32`. */
  lemma {:induction false} PowiF32(sig: Sig)
    ensures FromInstance("powif32", sig) ==
      if SigMatches(sig, [FloatPat(F32), IntPat(I32)], FloatPat(F32)) then Ok(PowIF32) else Err(SignatureMismatch("powif32"))
  {
    InitialsA("powif32");
    InitialsB("powif32");
    InitialsD("powif32");
    InitialsAtomic("powif32");
    InitialsSimd("powif32");
    ShufflePrefix("powif32");
    FallbackFirstMatchWins("powif32", sig, 2);
  }

  /** `fmaf64` takes three `f64`s and returns an `f64`. */
  lemma {:induction false} FmaF64(sig: Sig)
    ensures FromInstance("fmaf64", sig) ==
      if SigMatches(sig, [FloatPat(F64), FloatPat(F64), FloatPat(F64)], FloatPat(F64)) then Ok(FmafF64) else Err(SignatureMismatch("fmaf64"))
  {
    InitialsA("fmaf64");
    InitialsC("fmaf64");
    InitialsD("fmaf64");
    InitialsAtomic("fmaf64");
    InitialsSimd("fmaf64");
    ShufflePrefix("fmaf64");
    FallbackFirstMatchWins("fmaf64", sig, 3);
  }
}
