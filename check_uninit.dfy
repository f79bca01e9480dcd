/**
 * The uninitialised-memory instrumentation: for every memory-initialisation operation a
 * target finder reports, the instrumenter adds to the body a call to one of the
 * memory-init model functions (with the pointee's byte mask), a safety check, or an
 * unsupported-construct check.
 *
 * The body being instrumented is a `MutableBody` whose insertion primitives are taken as
 * given: each one appends what it inserts to a log, allocates the locals it returns, and
 * adds one basic block when it inserts a terminator (a block, a check or a call).
 */
module CheckUninit {
  import opened Wrappers
  import opened TyLayout

  // ---------------------------------------------------------------------------
  // Vocabulary of the instrumentation
  // ---------------------------------------------------------------------------

  /** The memory-init model functions, and any other model function. */
  datatype KaniModel =
    | IsPtrInitialized
    | SetPtrInitialized
    | IsSliceChunkPtrInitialized
    | SetSliceChunkPtrInitialized
    | IsSlicePtrInitialized
    | SetSlicePtrInitialized
    | IsStrPtrInitialized
    | SetStrPtrInitialized
    | CopyInitState
    | CopyInitStateSingle
    | LoadArgument
    | StoreArgument
    | OtherModel(name: string)

  datatype KaniFunction = Model(model: KaniModel) | OtherKaniFunction(name: string)

  /** The functions whose bodies are never instrumented, so that the checks do not instrument themselves. */
  const SKIPPED_ITEMS: seq<KaniFunction> := [
    Model(IsPtrInitialized),
    Model(SetPtrInitialized),
    Model(IsSliceChunkPtrInitialized),
    Model(SetSliceChunkPtrInitialized),
    Model(IsSlicePtrInitialized),
    Model(SetSlicePtrInitialized),
    Model(IsStrPtrInitialized),
    Model(SetStrPtrInitialized),
    Model(CopyInitState),
    Model(CopyInitStateSingle),
    Model(KaniModel.LoadArgument),
    Model(KaniModel.StoreArgument)
  ]

  /** Whether the body of the instance (the Kani function it is, if any) is left alone. */
  predicate IsSkipped(instance: Option<KaniFunction>)
  {
    instance.Some? && instance.value in SKIPPED_ITEMS
  }

  /** The skipped bodies are exactly those of the twelve memory-init model functions. */
  lemma {:induction false} SkippedIffMemInitModel(instance: Option<KaniFunction>)
    ensures IsSkipped(instance) <==> instance.Some? && instance.value.Model? && !instance.value.model.OtherModel?
  {
    if instance.Some? && instance.value.Model? && !instance.value.model.OtherModel? {
      match instance.value.model {
        case IsPtrInitialized => assert SKIPPED_ITEMS[0] == instance.value;
        case SetPtrInitialized => assert SKIPPED_ITEMS[1] == instance.value;
        case IsSliceChunkPtrInitialized => assert SKIPPED_ITEMS[2] == instance.value;
        case SetSliceChunkPtrInitialized => assert SKIPPED_ITEMS[3] == instance.value;
        case IsSlicePtrInitialized => assert SKIPPED_ITEMS[4] == instance.value;
        case SetSlicePtrInitialized => assert SKIPPED_ITEMS[5] == instance.value;
        case IsStrPtrInitialized => assert SKIPPED_ITEMS[6] == instance.value;
        case SetStrPtrInitialized => assert SKIPPED_ITEMS[7] == instance.value;
        case CopyInitState => assert SKIPPED_ITEMS[8] == instance.value;
        case CopyInitStateSingle => assert SKIPPED_ITEMS[9] == instance.value;
        case LoadArgument => assert SKIPPED_ITEMS[10] == instance.value;
        case StoreArgument => assert SKIPPED_ITEMS[11] == instance.value;
      }
    }
  }

  datatype GenericArg = ConstArg(value: nat) | TypeArg(ty: Ty)

  /** A model function instantiated with its generic arguments. */
  datatype Instance = Instance(def: KaniModel, args: seq<GenericArg>)

  /** `resolve_mem_init_fn`: a model function instantiated with the layout size and the associated type, in that order. */
  function ResolveMemInitFn(def: KaniModel, layoutSize: nat, associatedType: Ty): Instance
  {
    Instance(def, [ConstArg(layoutSize), TypeArg(associatedType)])
  }

  datatype InsertPosition = Before | After

  /** A kind of check the pass inserts (safety checks and unsupported-construct checks are configured separately). */
  datatype CheckType = CheckType(name: string)

  /** An operand: one the operation supplies, a move out of a local, or a constant. */
  datatype Operand = Given(id: nat) | MoveLocal(local: nat) | BoolConstant(b: bool) | UsizeConstant(n: nat)

  datatype LocalTy = BoolTy | UnitTy | BoolArrayTy(len: nat) | FnItemTy(instance: Instance)

  /** The right-hand side of an inserted assignment: an array of `bool` operands. */
  datatype Rvalue = BoolArray(elems: seq<Operand>)

  datatype Statement = Assign(local: nat, rvalue: Rvalue)

  /** A call of `instance` through the function local `func`, writing its result into `dest`. */
  datatype Terminator = Call(func: nat, instance: Instance, args: seq<Operand>, dest: nat)

  datatype BasicBlock = BasicBlock(statements: seq<Statement>, terminator: Terminator)

  /** What a check reports when it fails. */
  datatype CheckMessage =
    | Reason(text: string)
    | UnsupportedPointee(pointeeName: string, error: LayoutError)
    | TraitObjectPointer
    | UnionPointer
    | ReadUninit(pointerName: string)

  /** One insertion into the body, at an instruction (`source`) and a position relative to it. */
  datatype Inserted =
    | InsertedBb(source: nat, position: InsertPosition, block: BasicBlock)
    | InsertedCheck(source: nat, position: InsertPosition, checkType: CheckType, cond: Option<nat>, message: CheckMessage)
    | InsertedAssignment(source: nat, position: InsertPosition, local: nat, value: bool)
    | InsertedCall(source: nat, position: InsertPosition, instance: Instance, args: seq<Operand>, dest: nat)

  /** How many basic blocks the insertions add: every one but a plain assignment ends a block. */
  function Blocks(log: seq<Inserted>): nat
  {
    if |log| == 0 then 0
    else Blocks(log[..|log| - 1]) + (if log[|log| - 1].InsertedAssignment? then 0 else 1)
  }

  /** The blocks of one or two insertions. */
  lemma {:induction false} BlocksOfFew(a: Inserted, b: Inserted)
    ensures Blocks([a]) == (if a.InsertedAssignment? then 0 else 1)
    ensures Blocks([a, b]) == Blocks([a]) + (if b.InsertedAssignment? then 0 else 1)
  {
    assert [a, b][..1] == [a];
  }

  lemma {:induction false} BlocksAppend(a: seq<Inserted>, b: seq<Inserted>)
    ensures Blocks(a + b) == Blocks(a) + Blocks(b)
    decreases |b|
  {
    if b == [] {
      assert a + b == a;
    } else {
      assert (a + b)[..|a + b| - 1] == a + b[..|b| - 1];
      BlocksAppend(a, b[..|b| - 1]);
    }
  }

  // ---------------------------------------------------------------------------
  // Memory-initialisation operations
  // ---------------------------------------------------------------------------

  datatype OpKind =
    | Check(ptr: Operand)
    | CheckRef(ptr: Operand)
    | CheckSliceChunk(ptr: Operand, count: Operand)
    | Set(ptr: Operand, value: bool)
    | SetRef(ptr: Operand, value: bool)
    | SetSliceChunk(ptr: Operand, count: Operand, value: bool)
    | CreateUnion(ptr: Operand, value: bool, field: nat)
    | Copy(from: Operand, to: Operand, count: Operand)
    | AssignUnion(from: Operand, to: Operand)
    | StoreArgument(ptr: Operand, argNo: nat)
    | LoadArgument(ptr: Operand, argNo: nat)
    | Unsupported(reason: string)
    | TriviallyUnsafe(reason: string)

  /**
   * An operation, where it goes relative to its instruction, the type its pointer points
   * to, and the names of the pointer and pointee types for messages.
   */
  datatype MemoryInitOp = MemoryInitOp(kind: OpKind, position: InsertPosition, pointee: Ty, pointerName: string, pointeeName: string)

  predicate IsCheck(k: OpKind) { k.Check? || k.CheckRef? || k.CheckSliceChunk? }

  predicate IsSet(k: OpKind) { k.Set? || k.SetRef? || k.SetSliceChunk? || k.CreateUnion? }

  /**
   * What the instrumenter demands of an operation whose pointee has a layout: a set
   * never targets a trait object, a union is created only through a pointer to a union
   * and with one of its fields, and copies and argument transfers know their size.
   */
  predicate ValidOp(op: MemoryInitOp)
  {
    (op.kind.Unsupported? || op.kind.TriviallyUnsafe? || FromTy(op.pointee).Err?)
    || var layout := FromTy(op.pointee).value;
       && (IsSet(op.kind) ==> !layout.TraitObject?)
       && (op.kind.CreateUnion? ==> !layout.Sized? && (layout.Union? ==> op.kind.field < |layout.fieldLayouts|))
       && (!IsCheck(op.kind) && !IsSet(op.kind) ==> !layout.TraitObject? && (layout.Union? ==> |layout.fieldLayouts| > 0))
  }

  // ---------------------------------------------------------------------------
  // What each operation adds to the body
  // ---------------------------------------------------------------------------

  /** The locals an operation allocates (in order) and what it inserts (in order). */
  datatype Effect = Effect(locals: seq<LocalTy>, log: seq<Inserted>)

  /** The mask as an array of `bool` constants, one per byte, in order. */
  function LayoutArray(mask: seq<bool>): Rvalue
  {
    BoolArray(seq(|mask|, i requires 0 <= i < |mask| => BoolConstant(mask[i])))
  }

  /** The mask an array of `bool` constants spells, if every element is a constant. */
  function MaskOfArray(elems: seq<Operand>): Option<seq<bool>>
  {
    if elems == [] then Some([])
    else match MaskOfArray(elems[..|elems| - 1]) {
      case None => None
      case Some(before) =>
        var last := elems[|elems| - 1];
        if last.BoolConstant? then Some(before + [last.b]) else None
    }
  }

  /** The array built from a mask spells that same mask back. */
  lemma {:induction false} MaskOfLayoutArray(mask: seq<bool>)
    ensures MaskOfArray(LayoutArray(mask).elems) == Some(mask)
  {
    if mask != [] {
      var elems := LayoutArray(mask).elems;
      assert elems[..|elems| - 1] == LayoutArray(mask[..|mask| - 1]).elems;
      MaskOfLayoutArray(mask[..|mask| - 1]);
      assert mask[..|mask| - 1] + [mask[|mask| - 1]] == mask;
    }
  }

  /** The element type and model function for a check (`isCheck`) or a set on a slice or `str` pointee. */
  function SliceTarget(pointee: Ty, isCheck: bool): (Ty, KaniModel)
  {
    if pointee.shape.StrShape? then (U8, if isCheck then IsStrPtrInitialized else SetStrPtrInitialized)
    else if pointee.shape.SliceShape? then (pointee.shape.elem, if isCheck then IsSlicePtrInitialized else SetSlicePtrInitialized)
    else (pointee, OtherModel("unreachable"))
  }

  /** A block that assigns the mask to local `base + 1` and calls `inst` through local `base + 2`, into local `base`. */
  function MaskCallBlock(mask: seq<bool>, inst: Instance, args: seq<Operand>, base: nat): BasicBlock
  {
    BasicBlock([Assign(base + 1, LayoutArray(mask))], Call(base + 2, inst, args, base))
  }

  /** `build_get_and_check`: the locals and insertions of a check. */
  function CheckEffect(safety: CheckType, unsupported: CheckType, source: nat, op: MemoryInitOp, base: nat): Effect
    requires IsCheck(op.kind) && FromTy(op.pointee).Ok?
  {
    var pos := op.position;
    match FromTy(op.pointee).value
    case Sized(mask) =>
      var def := if op.kind.CheckSliceChunk? then IsSliceChunkPtrInitialized else IsPtrInitialized;
      var args := if op.kind.CheckSliceChunk? then [op.kind.ptr, MoveLocal(base + 1), op.kind.count] else [op.kind.ptr, MoveLocal(base + 1)];
      var inst := ResolveMemInitFn(def, |mask|, op.pointee);
      Effect([BoolTy, BoolArrayTy(|mask|), FnItemTy(inst)],
             [InsertedBb(source, pos, MaskCallBlock(mask, inst, args, base)),
              InsertedCheck(source, pos, safety, Some(base), ReadUninit(op.pointerName))])
    case Slice(elementLayout) =>
      var (elemTy, def) := SliceTarget(op.pointee, true);
      var inst := ResolveMemInitFn(def, |elementLayout|, elemTy);
      Effect([BoolTy, BoolArrayTy(|elementLayout|), FnItemTy(inst)],
             [InsertedBb(source, pos, MaskCallBlock(elementLayout, inst, [op.kind.ptr, MoveLocal(base + 1)], base)),
              InsertedCheck(source, pos, safety, Some(base), ReadUninit(op.pointerName))])
    case TraitObject =>
      Effect([BoolTy], [InsertedCheck(source, pos, unsupported, None, TraitObjectPointer)])
    case Union(_) =>
      Effect([BoolTy], [InsertedCheck(source, pos, unsupported, None, UnionPointer)])
  }

  /** `build_set`: the locals and insertions of a set. */
  function SetEffect(unsupported: CheckType, source: nat, op: MemoryInitOp, base: nat): Effect
    requires IsSet(op.kind) && FromTy(op.pointee).Ok? && ValidOp(op)
  {
    var pos := op.position;
    var value := BoolConstant(op.kind.value);
    match FromTy(op.pointee).value
    case Sized(mask) =>
      var def := if op.kind.SetSliceChunk? then SetSliceChunkPtrInitialized else SetPtrInitialized;
      var args := if op.kind.SetSliceChunk? then [op.kind.ptr, MoveLocal(base + 1), op.kind.count, value] else [op.kind.ptr, MoveLocal(base + 1), value];
      var inst := ResolveMemInitFn(def, |mask|, op.pointee);
      Effect([UnitTy, BoolArrayTy(|mask|), FnItemTy(inst)], [InsertedBb(source, pos, MaskCallBlock(mask, inst, args, base))])
    case Slice(elementLayout) =>
      var (elemTy, def) := SliceTarget(op.pointee, false);
      var inst := ResolveMemInitFn(def, |elementLayout|, elemTy);
      Effect([UnitTy, BoolArrayTy(|elementLayout|), FnItemTy(inst)],
             [InsertedBb(source, pos, MaskCallBlock(elementLayout, inst, [op.kind.ptr, MoveLocal(base + 1), value], base))])
    case TraitObject =>
      assert false;
      Effect([], [])
    case Union(fieldLayouts) =>
      if !op.kind.CreateUnion? then
        Effect([UnitTy], [InsertedCheck(source, pos, unsupported, None, UnionPointer)])
      else
        var mask := fieldLayouts[op.kind.field];
        var inst := ResolveMemInitFn(SetPtrInitialized, |mask|, op.pointee);
        Effect([UnitTy, BoolArrayTy(|mask|), FnItemTy(inst)],
               [InsertedBb(source, pos, MaskCallBlock(mask, inst, [op.kind.ptr, MoveLocal(base + 1), value], base))])
  }

  /** The model function of a copy, a union assignment or an argument transfer. */
  function TransferModel(k: OpKind): KaniModel
  {
    match k
    case Copy(_, _, _) => CopyInitState
    case AssignUnion(_, _) => CopyInitStateSingle
    case LoadArgument(_, _) => KaniModel.LoadArgument
    case _ => KaniModel.StoreArgument
  }

  /**
   * `build_copy`, `build_assign_union` and `build_argument_operation`: a call of the model
   * function instantiated with the pointee's size, copying (from, to, count), assigning
   * (from, to), or passing the pointer with the argument's number.
   */
  function TransferEffect(source: nat, op: MemoryInitOp, base: nat): Effect
    requires !IsCheck(op.kind) && !IsSet(op.kind) && !op.kind.Unsupported? && !op.kind.TriviallyUnsafe?
    requires FromTy(op.pointee).Ok? && ValidOp(op)
  {
    var size := MaybeSize(FromTy(op.pointee).value).value;
    var inst := ResolveMemInitFn(TransferModel(op.kind), size, op.pointee);
    if op.kind.Copy? then
      Effect([UnitTy], [InsertedCall(source, op.position, inst, [op.kind.from, op.kind.to, op.kind.count], base)])
    else if op.kind.AssignUnion? then
      Effect([UnitTy, FnItemTy(inst)], [InsertedBb(source, op.position, BasicBlock([], Call(base + 1, inst, [op.kind.from, op.kind.to], base)))])
    else
      Effect([UnitTy, FnItemTy(inst)],
             [InsertedBb(source, op.position, BasicBlock([], Call(base + 1, inst, [op.kind.ptr, UsizeConstant(op.kind.argNo)], base)))])
  }

  /**
   * `build_check_for_operation`: an unsupported operation is one unsupported check, a
   * trivially unsafe one an assignment of `false` and a safety check on it, a pointee
   * without a computable layout an unsupported check, and otherwise the operation's own
   * instrumentation.
   */
  function OpEffect(safety: CheckType, unsupported: CheckType, source: nat, op: MemoryInitOp, base: nat): (e: Effect)
    requires ValidOp(op)
    ensures Blocks(e.log) >= 1
  {
    if op.kind.Unsupported? then
      Effect([], [InsertedCheck(source, op.position, unsupported, None, Reason(op.kind.reason))])
    else if op.kind.TriviallyUnsafe? then
      Effect([BoolTy], [InsertedAssignment(source, op.position, base, false), InsertedCheck(source, op.position, safety, Some(base), Reason(op.kind.reason))])
    else
      match FromTy(op.pointee) {
        case Err(e) => Effect([], [InsertedCheck(source, op.position, unsupported, None, UnsupportedPointee(op.pointeeName, e))])
        case Ok(_) =>
          if IsCheck(op.kind) then CheckEffect(safety, unsupported, source, op, base)
          else if IsSet(op.kind) then SetEffect(unsupported, source, op, base)
          else TransferEffect(source, op, base)
      }
  }

  /** An operation together with the instruction it belongs to. */
  datatype Located = Located(source: nat, op: MemoryInitOp)

  /** Every operation of the sequence is valid. */
  predicate OpsValid(ops: seq<Located>)
  {
    |ops| == 0 || (OpsValid(ops[..|ops| - 1]) && ValidOp(ops[|ops| - 1].op))
  }

  lemma {:induction false} OpsValidAppend(a: seq<Located>, b: seq<Located>)
    requires OpsValid(a) && OpsValid(b)
    ensures OpsValid(a + b)
    decreases |b|
  {
    if b == [] {
      assert a + b == a;
    } else {
      assert (a + b)[..|a + b| - 1] == a + b[..|b| - 1];
      OpsValidAppend(a, b[..|b| - 1]);
    }
  }

  /** The instrumentation of several operations in turn, each allocating locals after the previous ones. */
  function OpsEffect(safety: CheckType, unsupported: CheckType, ops: seq<Located>, base: nat): Effect
    requires OpsValid(ops)
  {
    if |ops| == 0 then Effect([], [])
    else
      var prev := OpsEffect(safety, unsupported, ops[..|ops| - 1], base);
      Extend(safety, unsupported, prev, ops[|ops| - 1], base + |prev.locals|)
  }

  /** What has been added so far, followed by one more operation's instrumentation, its locals from `hereBase` on. */
  function Extend(safety: CheckType, unsupported: CheckType, prev: Effect, last: Located, hereBase: nat): Effect
    requires ValidOp(last.op)
  {
    var here := OpEffect(safety, unsupported, last.source, last.op, hereBase);
    Effect(prev.locals + here.locals, prev.log + here.log)
  }

  // ---------------------------------------------------------------------------
  // Properties of the instrumentation of one operation
  // ---------------------------------------------------------------------------

  /** Every operation inserts at least one terminator, so it always adds a block. */
  lemma {:induction false} OpAddsBlocks(safety: CheckType, unsupported: CheckType, source: nat, op: MemoryInitOp, base: nat)
    requires ValidOp(op)
    ensures Blocks(OpEffect(safety, unsupported, source, op, base).log) >= 1
  {
    var log := OpEffect(safety, unsupported, source, op, base).log;
    assert log[..|log| - 1] == [] || log[..|log| - 1] == [log[0]];
  }

  /**
   * An unsupported operation, and any operation whose pointee has no computable layout,
   * inserts exactly one unsupported check and nothing else; a trivially unsafe one
   * inserts `false` into a fresh boolean and a safety check of it.
   */
  lemma {:induction false} UnsupportedAndUnsafeOps(safety: CheckType, unsupported: CheckType, source: nat, op: MemoryInitOp, base: nat)
    requires ValidOp(op)
    ensures var e := OpEffect(safety, unsupported, source, op, base);
      (op.kind.Unsupported? || (!op.kind.TriviallyUnsafe? && FromTy(op.pointee).Err?)) ==>
        |e.log| == 1 && e.log[0].InsertedCheck? && e.log[0].checkType == unsupported && e.log[0].cond == None && e.locals == []
    ensures var e := OpEffect(safety, unsupported, source, op, base);
      op.kind.TriviallyUnsafe? ==>
        e.locals == [BoolTy]
        && e.log == [InsertedAssignment(source, op.position, base, false),
                     InsertedCheck(source, op.position, safety, Some(base), Reason(op.kind.reason))]
  {
  }

  /**
   * A check of a sized pointee calls `is_ptr_initialized(ptr, mask)`, with the count
   * added for a slice chunk; a slice pointee calls the slice model, a `str` pointee the
   * `str` model with `u8` elements; and trait-object and union pointees get an
   * unsupported check instead. Every call is followed by a safety check of its result.
   */
  lemma {:induction false} CheckCallsModel(safety: CheckType, unsupported: CheckType, source: nat, op: MemoryInitOp, base: nat)
    requires ValidOp(op) && IsCheck(op.kind) && FromTy(op.pointee).Ok?
    ensures var e := OpEffect(safety, unsupported, source, op, base);
      var layout := FromTy(op.pointee).value;
      && ((layout.TraitObject? || layout.Union?) ==> |e.log| == 1 && e.log[0].InsertedCheck? && e.log[0].checkType == unsupported)
      && ((layout.Sized? || layout.Slice?) ==>
            && |e.log| == 2 && e.log[0].InsertedBb? && e.log[1] == InsertedCheck(source, op.position, safety, Some(base), ReadUninit(op.pointerName))
            && var call := e.log[0].block.terminator;
               && call.dest == base
               && call.args[0] == op.kind.ptr
               && (layout.Sized? && op.kind.CheckSliceChunk? ==> call.instance.def == IsSliceChunkPtrInitialized && call.args == [op.kind.ptr, MoveLocal(base + 1), op.kind.count])
               && (layout.Sized? && !op.kind.CheckSliceChunk? ==> call.instance.def == IsPtrInitialized && |call.args| == 2)
               && (layout.Slice? && op.pointee.shape.StrShape? ==> call.instance == ResolveMemInitFn(IsStrPtrInitialized, 1, U8))
               && (layout.Slice? && op.pointee.shape.SliceShape? ==> call.instance.def == IsSlicePtrInitialized && call.instance.args[1] == TypeArg(op.pointee.shape.elem)))
  {
  }

  /**
   * A set on a union pointee uses the mask of the union field being created, and without
   * such a field (a plain set through a pointer to a union) it is an unsupported check.
   */
  lemma {:induction false} SetOnUnion(safety: CheckType, unsupported: CheckType, source: nat, op: MemoryInitOp, base: nat)
    requires ValidOp(op) && IsSet(op.kind) && FromTy(op.pointee).Ok? && FromTy(op.pointee).value.Union?
    ensures var e := OpEffect(safety, unsupported, source, op, base);
      var fieldLayouts := FromTy(op.pointee).value.fieldLayouts;
      && (!op.kind.CreateUnion? ==> e.log == [InsertedCheck(source, op.position, unsupported, None, UnionPointer)])
      && (op.kind.CreateUnion? ==>
            && |e.log| == 1 && e.log[0].InsertedBb?
            && e.log[0].block.statements == [Assign(base + 1, LayoutArray(fieldLayouts[op.kind.field]))]
            && e.log[0].block.terminator.instance == ResolveMemInitFn(SetPtrInitialized, |fieldLayouts[op.kind.field]|, op.pointee))
  {
  }

  /** A copy calls `copy_init_state` with (from, to, count), instantiated with the pointee's size and type. */
  lemma {:induction false} CopyPassesEndpoints(safety: CheckType, unsupported: CheckType, source: nat, op: MemoryInitOp, base: nat)
    requires ValidOp(op) && op.kind.Copy? && FromTy(op.pointee).Ok?
    ensures OpEffect(safety, unsupported, source, op, base).log ==
      [InsertedCall(source, op.position,
                    ResolveMemInitFn(CopyInitState, MaybeSize(FromTy(op.pointee).value).value, op.pointee),
                    [op.kind.from, op.kind.to, op.kind.count], base)]
  {
  }

  // ---------------------------------------------------------------------------
  // Well-formedness of what is inserted
  // ---------------------------------------------------------------------------

  /** Local `l` is one of the effect's fresh locals, of type `ty`. */
  predicate HasLocal(e: Effect, base: nat, l: nat, ty: LocalTy)
  {
    base <= l < base + |e.locals| && e.locals[l - base] == ty
  }

  predicate TakesLayout(def: KaniModel)
  {
    def.IsPtrInitialized? || def.SetPtrInitialized? || def.IsSliceChunkPtrInitialized? || def.SetSliceChunkPtrInitialized?
    || def.IsSlicePtrInitialized? || def.SetSlicePtrInitialized? || def.IsStrPtrInitialized? || def.SetStrPtrInitialized?
  }

  /** What a model function returns: the `is_*` checks a boolean, everything else the unit. */
  function ReturnTy(def: KaniModel): LocalTy
  {
    if def.IsPtrInitialized? || def.IsSliceChunkPtrInitialized? || def.IsSlicePtrInitialized? || def.IsStrPtrInitialized? then BoolTy else UnitTy
  }

  /**
   * A call is well formed when the model function has its two generic arguments (a size,
   * then a type), its result goes to a fresh local of its return type, and, for a model
   * function that takes a layout, its second argument moves out of the fresh local that
   * the block's only statement fills with an array spelling a mask of exactly that size.
   */
  predicate CallWellFormed(e: Effect, base: nat, statements: seq<Statement>, inst: Instance, args: seq<Operand>, dest: nat)
  {
    && |inst.args| == 2 && inst.args[0].ConstArg? && inst.args[1].TypeArg?
    && HasLocal(e, base, dest, ReturnTy(inst.def))
    && (TakesLayout(inst.def) ==>
          && |args| >= 2 && args[1].MoveLocal?
          && HasLocal(e, base, args[1].local, BoolArrayTy(inst.args[0].value))
          && |statements| == 1 && statements[0].local == args[1].local
          && MaskOfArray(statements[0].rvalue.elems).Some?
          && |MaskOfArray(statements[0].rvalue.elems).value| == inst.args[0].value)
  }

  /** Whether an insertion writes local `l`. */
  predicate Defines(entry: Inserted, l: nat)
  {
    match entry
    case InsertedBb(_, _, block) => block.terminator.dest == l
    case InsertedAssignment(_, _, local, _) => local == l
    case InsertedCall(_, _, _, _, dest) => dest == l
    case InsertedCheck(_, _, _, _, _) => false
  }

  predicate EntryWellFormed(e: Effect, base: nat, k: nat)
    requires k < |e.log|
  {
    match e.log[k]
    case InsertedBb(_, _, block) =>
      HasLocal(e, base, block.terminator.func, FnItemTy(block.terminator.instance))
      && CallWellFormed(e, base, block.statements, block.terminator.instance, block.terminator.args, block.terminator.dest)
    case InsertedCall(_, _, inst, args, dest) => CallWellFormed(e, base, [], inst, args, dest) && !TakesLayout(inst.def)
    case InsertedAssignment(_, _, local, _) => HasLocal(e, base, local, BoolTy)
    case InsertedCheck(_, _, _, cond, _) =>
      cond.Some? ==> HasLocal(e, base, cond.value, BoolTy) && exists j :: 0 <= j < k && Defines(e.log[j], cond.value)
  }

  /**
   * Everything inserted refers only to fresh locals of the right types, every layout array
   * matches the size the model function is instantiated with, and every safety check reads
   * a boolean that an earlier insertion computed.
   */
  predicate EffectWellFormed(e: Effect, base: nat)
  {
    forall k :: 0 <= k < |e.log| ==> EntryWellFormed(e, base, k)
  }

  lemma {:induction false} MaskBlockWellFormed(e: Effect, base: nat, mask: seq<bool>, inst: Instance, args: seq<Operand>)
    requires |inst.args| == 2 && inst.args == [ConstArg(|mask|), inst.args[1]] && inst.args[1].TypeArg?
    requires |args| >= 2 && args[1] == MoveLocal(base + 1)
    requires |e.locals| == 3 && e.locals[0] == ReturnTy(inst.def) && e.locals[1] == BoolArrayTy(|mask|) && e.locals[2] == FnItemTy(inst)
    ensures var block := MaskCallBlock(mask, inst, args, base);
      HasLocal(e, base, block.terminator.func, FnItemTy(inst))
      && CallWellFormed(e, base, block.statements, inst, args, base)
  {
    MaskOfLayoutArray(mask);
  }

  /** The instrumentation of a check is well formed. */
  lemma {:induction false} CheckEffectWellFormed(safety: CheckType, unsupported: CheckType, source: nat, op: MemoryInitOp, base: nat)
    requires IsCheck(op.kind) && FromTy(op.pointee).Ok?
    ensures EffectWellFormed(CheckEffect(safety, unsupported, source, op, base), base)
  {
    var e := CheckEffect(safety, unsupported, source, op, base);
    match FromTy(op.pointee).value {
      case Sized(mask) =>
        var block := e.log[0].block;
        MaskBlockWellFormed(e, base, mask, block.terminator.instance, block.terminator.args);
        assert Defines(e.log[0], base);
      case Slice(elementLayout) =>
        var block := e.log[0].block;
        MaskBlockWellFormed(e, base, elementLayout, block.terminator.instance, block.terminator.args);
        assert Defines(e.log[0], base);
      case TraitObject =>
      case Union(_) =>
    }
  }

  /** The instrumentation of a set is well formed. */
  lemma {:induction false} SetEffectWellFormed(unsupported: CheckType, source: nat, op: MemoryInitOp, base: nat)
    requires IsSet(op.kind) && FromTy(op.pointee).Ok? && ValidOp(op)
    ensures EffectWellFormed(SetEffect(unsupported, source, op, base), base)
  {
    var e := SetEffect(unsupported, source, op, base);
    match FromTy(op.pointee).value {
      case Sized(mask) =>
        var block := e.log[0].block;
        MaskBlockWellFormed(e, base, mask, block.terminator.instance, block.terminator.args);
      case Slice(elementLayout) =>
        var block := e.log[0].block;
        MaskBlockWellFormed(e, base, elementLayout, block.terminator.instance, block.terminator.args);
      case TraitObject =>
      case Union(fieldLayouts) =>
        if op.kind.CreateUnion? {
          var block := e.log[0].block;
          MaskBlockWellFormed(e, base, fieldLayouts[op.kind.field], block.terminator.instance, block.terminator.args);
        }
    }
  }

  /** The instrumentation of every valid operation is well formed. */
  lemma {:induction false} OpEffectWellFormed(safety: CheckType, unsupported: CheckType, source: nat, op: MemoryInitOp, base: nat)
    requires ValidOp(op)
    ensures EffectWellFormed(OpEffect(safety, unsupported, source, op, base), base)
  {
    if op.kind.TriviallyUnsafe? {
      var e := OpEffect(safety, unsupported, source, op, base);
      assert Defines(e.log[0], base);
    } else if !op.kind.Unsupported? && FromTy(op.pointee).Ok? {
      if IsCheck(op.kind) {
        CheckEffectWellFormed(safety, unsupported, source, op, base);
      } else if IsSet(op.kind) {
        SetEffectWellFormed(unsupported, source, op, base);
      } else {
        TransferEffectWellFormed(source, op, base);
      }
    }
  }

  /** The instrumentation of a copy, a union assignment or an argument transfer is well formed. */
  lemma {:induction false} TransferEffectWellFormed(source: nat, op: MemoryInitOp, base: nat)
    requires !IsCheck(op.kind) && !IsSet(op.kind) && !op.kind.Unsupported? && !op.kind.TriviallyUnsafe?
    requires FromTy(op.pointee).Ok? && ValidOp(op)
    ensures EffectWellFormed(TransferEffect(source, op, base), base)
  {
  }

  /** Well-formedness survives putting another operation's instrumentation after it. */
  lemma {:induction false} WellFormedConcat(e1: Effect, e2: Effect, base: nat)
    requires EffectWellFormed(e1, base) && EffectWellFormed(e2, base + |e1.locals|)
    ensures EffectWellFormed(Effect(e1.locals + e2.locals, e1.log + e2.log), base)
  {
    var e := Effect(e1.locals + e2.locals, e1.log + e2.log);
    var base2 := base + |e1.locals|;
    forall l: nat, ty | HasLocal(e1, base, l, ty)
      ensures HasLocal(e, base, l, ty)
    {
      assert e.locals[l - base] == e1.locals[l - base];
    }
    forall l: nat, ty | HasLocal(e2, base2, l, ty)
      ensures HasLocal(e, base, l, ty)
    {
      assert e.locals[l - base] == e2.locals[l - base2];
    }
    forall k | 0 <= k < |e.log|
      ensures EntryWellFormed(e, base, k)
    {
      if k < |e1.log| {
        assert e.log[k] == e1.log[k];
        assert EntryWellFormed(e1, base, k);
        if e.log[k].InsertedCheck? && e.log[k].cond.Some? {
          var j :| 0 <= j < k && Defines(e1.log[j], e.log[k].cond.value);
          assert e.log[j] == e1.log[j];
        }
      } else {
        var k2 := k - |e1.log|;
        assert e.log[k] == e2.log[k2];
        assert EntryWellFormed(e2, base2, k2);
        if e.log[k].InsertedCheck? && e.log[k].cond.Some? {
          var j :| 0 <= j < k2 && Defines(e2.log[j], e.log[k].cond.value);
          assert e.log[|e1.log| + j] == e2.log[j];
        }
      }
    }
  }

  /** The instrumentation of any sequence of valid operations is well formed. */
  lemma {:induction false} OpsEffectWellFormed(safety: CheckType, unsupported: CheckType, ops: seq<Located>, base: nat)
    requires OpsValid(ops)
    ensures EffectWellFormed(OpsEffect(safety, unsupported, ops, base), base)
  {
    if ops != [] {
      var prev := OpsEffect(safety, unsupported, ops[..|ops| - 1], base);
      OpsEffectWellFormed(safety, unsupported, ops[..|ops| - 1], base);
      ExtendWellFormed(safety, unsupported, prev, ops[|ops| - 1], base);
    }
  }

  /** One more valid operation keeps the instrumentation well formed. */
  lemma {:induction false} ExtendWellFormed(safety: CheckType, unsupported: CheckType, prev: Effect, last: Located, base: nat)
    requires EffectWellFormed(prev, base) && ValidOp(last.op)
    ensures EffectWellFormed(Extend(safety, unsupported, prev, last, base + |prev.locals|), base)
  {
    OpEffectWellFormed(safety, unsupported, last.source, last.op, base + |prev.locals|);
    WellFormedConcat(prev, OpEffect(safety, unsupported, last.source, last.op, base + |prev.locals|), base);
  }

  /** Operations add blocks exactly when there is at least one of them. */
  lemma {:induction false} OpsAddBlocksIffAny(safety: CheckType, unsupported: CheckType, ops: seq<Located>, base: nat)
    requires OpsValid(ops)
    ensures Blocks(OpsEffect(safety, unsupported, ops, base).log) >= |ops|
    ensures Blocks(OpsEffect(safety, unsupported, ops, base).log) == 0 <==> ops == []
  {
    if ops != [] {
      var prev := OpsEffect(safety, unsupported, ops[..|ops| - 1], base);
      var last := ops[|ops| - 1];
      var here := OpEffect(safety, unsupported, last.source, last.op, base + |prev.locals|);
      assert OpsEffect(safety, unsupported, ops, base).log == prev.log + here.log;
      OpsAddBlocksIffAny(safety, unsupported, ops[..|ops| - 1], base);
      BlocksAppend(prev.log, here.log);
    }
  }

  // ---------------------------------------------------------------------------
  // Instructions and their order
  // ---------------------------------------------------------------------------

  /** An instruction that touches memory: the operations to insert before it and after it. */
  datatype InitRelevantInstruction = InitRelevantInstruction(source: nat, before: seq<MemoryInitOp>, after: seq<MemoryInitOp>)

  function Locate(source: nat, ops: seq<MemoryInitOp>): (located: seq<Located>)
    ensures |located| == |ops| && forall k :: 0 <= k < |ops| ==> located[k] == Located(source, ops[k])
  {
    seq(|ops|, k requires 0 <= k < |ops| => Located(source, ops[k]))
  }

  /** Locating one more operation of a side extends the located prefix by that operation. */
  lemma {:induction false} LocateSnoc(done: seq<Located>, source: nat, ops: seq<MemoryInitOp>, k: nat)
    requires k < |ops|
    ensures done + Locate(source, ops[..k + 1]) == (done + Locate(source, ops[..k])) + [Located(source, ops[k])]
  {
    assert Locate(source, ops[..k + 1]) == Locate(source, ops[..k]) + [Located(source, ops[k])];
    AppendAssoc(done, Locate(source, ops[..k]), [Located(source, ops[k])]);
  }

  /** The operations of one instruction: those before it, then those after it. */
  function InstructionOps(instr: InitRelevantInstruction): seq<Located>
  {
    Locate(instr.source, instr.before) + Locate(instr.source, instr.after)
  }

  /** The order in which the instrumenter handles operations: instructions from last to first. */
  function OrderedOps(instrs: seq<InitRelevantInstruction>): seq<Located>
  {
    if instrs == [] then [] else OrderedOps(instrs[1..]) + InstructionOps(instrs[0])
  }

  /** Instructions are handled in reverse: a later group comes entirely before an earlier one. */
  lemma {:induction false} OrderedOpsAppend(a: seq<InitRelevantInstruction>, b: seq<InitRelevantInstruction>)
    ensures OrderedOps(a + b) == OrderedOps(b) + OrderedOps(a)
  {
    if a == [] {
      assert a + b == b;
    } else {
      assert (a + b)[1..] == a[1..] + b;
      OrderedOpsAppend(a[1..], b);
    }
  }

  predicate AllValid(instrs: seq<InitRelevantInstruction>)
  {
    forall i :: 0 <= i < |instrs| ==>
      (forall k :: 0 <= k < |instrs[i].before| ==> ValidOp(instrs[i].before[k]))
      && (forall k :: 0 <= k < |instrs[i].after| ==> ValidOp(instrs[i].after[k]))
  }

  lemma {:induction false} LocateValid(source: nat, ops: seq<MemoryInitOp>)
    requires forall k :: 0 <= k < |ops| ==> ValidOp(ops[k])
    ensures OpsValid(Locate(source, ops))
  {
    if ops != [] {
      assert Locate(source, ops)[..|ops| - 1] == Locate(source, ops[..|ops| - 1]);
      LocateValid(source, ops[..|ops| - 1]);
    }
  }

  lemma {:induction false} OrderedOpsValid(instrs: seq<InitRelevantInstruction>)
    requires AllValid(instrs)
    ensures OpsValid(OrderedOps(instrs))
  {
    if instrs != [] {
      assert AllValid(instrs[1..]) by {
        forall i | 0 <= i < |instrs[1..]|
          ensures instrs[1..][i] == instrs[i + 1]
        {
        }
      }
      OrderedOpsValid(instrs[1..]);
      LocateValid(instrs[0].source, instrs[0].before);
      LocateValid(instrs[0].source, instrs[0].after);
      OpsValidAppend(Locate(instrs[0].source, instrs[0].before), Locate(instrs[0].source, instrs[0].after));
      OpsValidAppend(OrderedOps(instrs[1..]), InstructionOps(instrs[0]));
    }
  }

  /** The instrumentation of all the instructions' operations, in the order they are handled. */
  function TargetsEffect(safety: CheckType, unsupported: CheckType, targets: seq<InitRelevantInstruction>, base: nat): Effect
    requires AllValid(targets)
  {
    OrderedOpsValid(targets);
    OpsEffect(safety, unsupported, OrderedOps(targets), base)
  }

  lemma {:induction false} OpsValidSnoc(done: seq<Located>, next: Located)
    requires OpsValid(done) && ValidOp(next.op)
    ensures OpsValid(done + [next])
  {
    assert (done + [next])[..|done|] == done;
  }

  lemma {:induction false} OpsEffectSnoc(safety: CheckType, unsupported: CheckType, done: seq<Located>, next: Located, base: nat, hereBase: nat)
    requires OpsValid(done) && OpsValid(done + [next])
    requires hereBase == base + |OpsEffect(safety, unsupported, done, base).locals|
    ensures OpsEffect(safety, unsupported, done + [next], base) == Extend(safety, unsupported, OpsEffect(safety, unsupported, done, base), next, hereBase)
  {
    var all := done + [next];
    assert all != [] && all[..|all| - 1] == done && all[|all| - 1] == next;
  }

  // ---------------------------------------------------------------------------
  // The body and the instrumenter
  // ---------------------------------------------------------------------------

  /** The body under instrumentation: its locals, its number of blocks, and what has been inserted. */
  class MutableBody {
    var locals: seq<LocalTy>
    var blockCount: nat
    var log: seq<Inserted>

    constructor(locals: seq<LocalTy>, blockCount: nat)
      ensures this.locals == locals && this.blockCount == blockCount && log == []
    {
      this.locals := locals;
      this.blockCount := blockCount;
      log := [];
    }

    method NewLocal(ty: LocalTy) returns (local: nat)
      modifies this
      ensures local == old(|locals|) && locals == old(locals) + [ty]
      ensures log == old(log) && blockCount == old(blockCount)
    {
      local := |locals|;
      locals := locals + [ty];
    }

    method InsertBb(block: BasicBlock, source: nat, position: InsertPosition)
      modifies this
      ensures log == old(log) + [InsertedBb(source, position, block)]
      ensures locals == old(locals) && blockCount == old(blockCount) + 1
    {
      log := log + [InsertedBb(source, position, block)];
      blockCount := blockCount + 1;
    }

    method InsertCheck(checkType: CheckType, source: nat, position: InsertPosition, cond: Option<nat>, message: CheckMessage)
      modifies this
      ensures log == old(log) + [InsertedCheck(source, position, checkType, cond, message)]
      ensures locals == old(locals) && blockCount == old(blockCount) + 1
    {
      log := log + [InsertedCheck(source, position, checkType, cond, message)];
      blockCount := blockCount + 1;
    }

    /** Assigns a boolean constant to a fresh local and returns that local. */
    method InsertAssignment(value: bool, source: nat, position: InsertPosition) returns (local: nat)
      modifies this
      ensures local == old(|locals|) && locals == old(locals) + [BoolTy]
      ensures log == old(log) + [InsertedAssignment(source, position, local, value)]
      ensures blockCount == old(blockCount)
    {
      local := |locals|;
      locals := locals + [BoolTy];
      log := log + [InsertedAssignment(source, position, local, value)];
    }

    method InsertCall(instance: Instance, source: nat, position: InsertPosition, args: seq<Operand>, dest: nat)
      modifies this
      ensures log == old(log) + [InsertedCall(source, position, instance, args, dest)]
      ensures locals == old(locals) && blockCount == old(blockCount) + 1
    {
      log := log + [InsertedCall(source, position, instance, args, dest)];
      blockCount := blockCount + 1;
    }
  }

  /** The body has grown by exactly the effect: its locals, its insertions and its blocks. */
  twostate predicate Applied(body: MutableBody, e: Effect)
    reads body
  {
    && body.locals == old(body.locals) + e.locals
    && body.log == old(body.log) + e.log
    && body.blockCount == old(body.blockCount) + Blocks(e.log)
  }

  lemma {:induction false} AppendAssoc<T>(a: seq<T>, b: seq<T>, c: seq<T>)
    ensures (a + b) + c == a + (b + c)
  {
  }

  /** The body has grown from the given locals, insertions and block count by exactly the effect. */
  predicate Grown(body: MutableBody, locals0: seq<LocalTy>, log0: seq<Inserted>, blocks0: nat, e: Effect)
    reads body
  {
    && body.locals == locals0 + e.locals
    && body.log == log0 + e.log
    && body.blockCount == blocks0 + Blocks(e.log)
  }

  /** Growing by `prev` and then by `here` is growing by both. */
  lemma {:induction false} GrownStep(body: MutableBody, locals0: seq<LocalTy>, log0: seq<Inserted>, blocks0: nat, prev: Effect, here: Effect,
                  locals1: seq<LocalTy>, log1: seq<Inserted>, blocks1: nat)
    requires locals1 == locals0 + prev.locals && log1 == log0 + prev.log && blocks1 == blocks0 + Blocks(prev.log)
    requires body.locals == locals1 + here.locals && body.log == log1 + here.log && body.blockCount == blocks1 + Blocks(here.log)
    ensures Grown(body, locals0, log0, blocks0, Effect(prev.locals + here.locals, prev.log + here.log))
  {
    BlocksAppend(prev.log, here.log);
    AppendAssoc(locals0, prev.locals, here.locals);
    AppendAssoc(log0, prev.log, here.log);
  }

  /** Growing by the operations done and then by one more operation is growing by all of them. */
  lemma {:induction false} GrownSnoc(safety: CheckType, unsupported: CheckType, done: seq<Located>, next: Located,
                  locals0: seq<LocalTy>, log0: seq<Inserted>, blocks0: nat,
                  locals1: seq<LocalTy>, log1: seq<Inserted>, blocks1: nat,
                  locals2: seq<LocalTy>, log2: seq<Inserted>, blocks2: nat)
    requires OpsValid(done) && ValidOp(next.op)
    requires var prev := OpsEffect(safety, unsupported, done, |locals0|);
      locals1 == locals0 + prev.locals && log1 == log0 + prev.log && blocks1 == blocks0 + Blocks(prev.log)
    requires var here := OpEffect(safety, unsupported, next.source, next.op, |locals1|);
      locals2 == locals1 + here.locals && log2 == log1 + here.log && blocks2 == blocks1 + Blocks(here.log)
    ensures OpsValid(done + [next])
    ensures var e := OpsEffect(safety, unsupported, done + [next], |locals0|);
      locals2 == locals0 + e.locals && log2 == log0 + e.log && blocks2 == blocks0 + Blocks(e.log)
  {
    var prev := OpsEffect(safety, unsupported, done, |locals0|);
    var here := OpEffect(safety, unsupported, next.source, next.op, |locals1|);
    OpsValidSnoc(done, next);
    OpsEffectSnoc(safety, unsupported, done, next, |locals0|, |locals1|);
    GrownConcat(locals0, log0, blocks0, prev, here, locals1, log1, blocks1, locals2, log2, blocks2);
  }

  /** Growing by `prev` and then by `here`, stated on plain values. */
  lemma {:induction false} GrownConcat(locals0: seq<LocalTy>, log0: seq<Inserted>, blocks0: nat, prev: Effect, here: Effect,
                    locals1: seq<LocalTy>, log1: seq<Inserted>, blocks1: nat,
                    locals2: seq<LocalTy>, log2: seq<Inserted>, blocks2: nat)
    requires locals1 == locals0 + prev.locals && log1 == log0 + prev.log && blocks1 == blocks0 + Blocks(prev.log)
    requires locals2 == locals1 + here.locals && log2 == log1 + here.log && blocks2 == blocks1 + Blocks(here.log)
    ensures locals2 == locals0 + (prev.locals + here.locals) && log2 == log0 + (prev.log + here.log)
    ensures blocks2 == blocks0 + Blocks(prev.log + here.log)
  {
    BlocksAppend(prev.log, here.log);
    AppendAssoc(locals0, prev.locals, here.locals);
    AppendAssoc(log0, prev.log, here.log);
  }

  /**
   * `mk_layout_operand`: push one assignment of the mask, as an array of `bool`
   * constants, to a fresh local, and return a move out of that local.
   */
  method MkLayoutOperand(body: MutableBody, statements: seq<Statement>, mask: seq<bool>)
    returns (operand: Operand, newStatements: seq<Statement>)
    modifies body
    ensures operand == MoveLocal(old(|body.locals|))
    ensures newStatements == statements + [Assign(old(|body.locals|), LayoutArray(mask))]
    ensures body.locals == old(body.locals) + [BoolArrayTy(|mask|)]
    ensures body.log == old(body.log) && body.blockCount == old(body.blockCount)
  {
    var result := body.NewLocal(BoolArrayTy(|mask|));
    newStatements := statements + [Assign(result, LayoutArray(mask))];
    operand := MoveLocal(result);
  }

  /** Two entries appended after `log0`, neither an assignment, add two blocks. */
  lemma {:induction false} MaskCheckApplied(log: seq<Inserted>, log0: seq<Inserted>)
    requires |log| == |log0| + 2 && log[..|log0|] == log0
    requires !log[|log| - 2].InsertedAssignment? && !log[|log| - 1].InsertedAssignment?
    ensures log == log0 + [log[|log| - 2], log[|log| - 1]]
    ensures Blocks([log[|log| - 2], log[|log| - 1]]) == 2
  {
    BlocksOfFew(log[|log| - 2], log[|log| - 1]);
  }

  /**
   * The block shared by the mask-taking models: the mask goes into a fresh local (through
   * `MkLayoutOperand`), the function item into the next one, and the block calls `inst`
   * with the pointer, a move out of the mask local and the remaining arguments.
   */
  method InsertMaskCall(body: MutableBody, source: nat, position: InsertPosition, mask: seq<bool>, inst: Instance,
                        ptr: Operand, rest: seq<Operand>, retLocal: nat)
    modifies body
    ensures body.locals == old(body.locals) + [BoolArrayTy(|mask|), FnItemTy(inst)]
    ensures body.log == old(body.log) + [InsertedBb(source, position, BasicBlock([Assign(old(|body.locals|), LayoutArray(mask))],
                                           Call(old(|body.locals|) + 1, inst, [ptr, MoveLocal(old(|body.locals|))] + rest, retLocal)))]
    ensures body.blockCount == old(body.blockCount) + 1
  {
    var layoutOperand, statements := MkLayoutOperand(body, [], mask);
    assert statements == [Assign(old(|body.locals|), LayoutArray(mask))];
    var func := body.NewLocal(FnItemTy(inst));
    body.InsertBb(BasicBlock(statements, Call(func, inst, [ptr, layoutOperand] + rest, retLocal)), source, position);
    AppendAssoc(old(body.locals), [BoolArrayTy(|mask|)], [FnItemTy(inst)]);
  }

  class UninitInstrumenter {
    const safetyCheckType: CheckType
    const unsupportedCheckType: CheckType

    constructor(safetyCheckType: CheckType, unsupportedCheckType: CheckType)
      ensures this.safetyCheckType == safetyCheckType && this.unsupportedCheckType == unsupportedCheckType
    {
      this.safetyCheckType := safetyCheckType;
      this.unsupportedCheckType := unsupportedCheckType;
    }

    /**
     * `instrument`: leave the model functions' own bodies alone; otherwise handle the
     * instructions from last to first, each one's "before" operations and then its
     * "after" operations. It reports a change iff the number of blocks changed, which is
     * exactly when there was at least one operation to instrument.
     */
    method Instrument(body: MutableBody, instance: Option<KaniFunction>, targets: seq<InitRelevantInstruction>)
      returns (changed: bool)
      requires AllValid(targets)
      modifies body
      ensures IsSkipped(instance) ==> Applied(body, Effect([], []))
      ensures !IsSkipped(instance) ==>
        Applied(body, TargetsEffect(safetyCheckType, unsupportedCheckType, targets, old(|body.locals|)))
      ensures changed <==> body.blockCount != old(body.blockCount)
      ensures changed <==> !IsSkipped(instance) && OrderedOps(targets) != []
    {
      if IsSkipped(instance) {
        return false;
      }
      OrderedOpsValid(targets);
      var origLen := body.blockCount;
      ghost var locals0, log0 := body.locals, body.log;
      var n := |targets|;
      for r := 0 to n
        invariant OpsValid(OrderedOps(targets[n - r..]))
        invariant Grown(body, locals0, log0, origLen, OpsEffect(safetyCheckType, unsupportedCheckType, OrderedOps(targets[n - r..]), |locals0|))
      {
        assert targets[n - 1 - r..][1..] == targets[n - r..];
        BuildCheckForInstruction(body, targets[n - 1 - r], locals0, log0, origLen, OrderedOps(targets[n - r..]));
      }
      assert targets[n - n..] == targets;
      OpsAddBlocksIffAny(safetyCheckType, unsupportedCheckType, OrderedOps(targets), |locals0|);
      changed := origLen != body.blockCount;
    }

    /** `build_check_for_instruction`: the operations before the instruction, then those after it. */
    method BuildCheckForInstruction(body: MutableBody, instr: InitRelevantInstruction,
                                    ghost locals0: seq<LocalTy>, ghost log0: seq<Inserted>, ghost blocks0: nat, ghost done: seq<Located>)
      requires AllValid([instr]) && OpsValid(done)
      requires Grown(body, locals0, log0, blocks0, OpsEffect(safetyCheckType, unsupportedCheckType, done, |locals0|))
      modifies body
      ensures OpsValid(done + InstructionOps(instr))
      ensures Grown(body, locals0, log0, blocks0, OpsEffect(safetyCheckType, unsupportedCheckType, done + InstructionOps(instr), |locals0|))
    {
      assert [instr][0] == instr;
      BuildChecksForOps(body, instr.source, instr.before, locals0, log0, blocks0, done);
      BuildChecksForOps(body, instr.source, instr.after, locals0, log0, blocks0, done + Locate(instr.source, instr.before));
      AppendAssoc(done, Locate(instr.source, instr.before), Locate(instr.source, instr.after));
    }

    /** The operations on one side of an instruction, in order. */
    method BuildChecksForOps(body: MutableBody, source: nat, ops: seq<MemoryInitOp>,
                             ghost locals0: seq<LocalTy>, ghost log0: seq<Inserted>, ghost blocks0: nat, ghost done: seq<Located>)
      requires (forall k :: 0 <= k < |ops| ==> ValidOp(ops[k])) && OpsValid(done)
      requires Grown(body, locals0, log0, blocks0, OpsEffect(safetyCheckType, unsupportedCheckType, done, |locals0|))
      modifies body
      ensures OpsValid(done + Locate(source, ops))
      ensures Grown(body, locals0, log0, blocks0, OpsEffect(safetyCheckType, unsupportedCheckType, done + Locate(source, ops), |locals0|))
    {
      ghost var applied := done;
      for k := 0 to |ops|
        invariant applied == done + Locate(source, ops[..k])
        invariant OpsValid(applied)
        invariant Grown(body, locals0, log0, blocks0, OpsEffect(safetyCheckType, unsupportedCheckType, applied, |locals0|))
      {
        ApplyOne(body, source, ops[k], locals0, log0, blocks0, applied);
        LocateSnoc(done, source, ops, k);
        applied := applied + [Located(source, ops[k])];
      }
      assert ops[..|ops|] == ops;
    }

    /** One operation: its instrumentation extends what the operations before it added. */
    method ApplyOne(body: MutableBody, source: nat, op: MemoryInitOp,
                    ghost locals0: seq<LocalTy>, ghost log0: seq<Inserted>, ghost blocks0: nat, ghost done: seq<Located>)
      requires ValidOp(op) && OpsValid(done)
      requires Grown(body, locals0, log0, blocks0, OpsEffect(safetyCheckType, unsupportedCheckType, done, |locals0|))
      modifies body
      ensures OpsValid(done + [Located(source, op)])
      ensures Grown(body, locals0, log0, blocks0, OpsEffect(safetyCheckType, unsupportedCheckType, done + [Located(source, op)], |locals0|))
    {
      ghost var locals1, log1, blocks1 := body.locals, body.log, body.blockCount;
      BuildCheckForOperation(body, source, op);
      GrownSnoc(safetyCheckType, unsupportedCheckType, done, Located(source, op), locals0, log0, blocks0,
                locals1, log1, blocks1, body.locals, body.log, body.blockCount);
    }

    /** `build_check_for_operation`: dispatch on the operation and on its pointee's layout. */
    method BuildCheckForOperation(body: MutableBody, source: nat, op: MemoryInitOp)
      requires ValidOp(op)
      modifies body
      ensures Applied(body, OpEffect(safetyCheckType, unsupportedCheckType, source, op, old(|body.locals|)))
    {
      if op.kind.Unsupported? {
        InjectUnsupportedCheck(body, source, op.position, Reason(op.kind.reason));
        return;
      } else if op.kind.TriviallyUnsafe? {
        InjectSafetyCheck(body, source, op.position, op.kind.reason);
        return;
      }
      var pointeeInfo := FromTy(op.pointee);
      if pointeeInfo.Err? {
        InjectUnsupportedCheck(body, source, op.position, UnsupportedPointee(op.pointeeName, pointeeInfo.error));
        return;
      }
      if IsCheck(op.kind) {
        BuildGetAndCheck(body, source, op);
      } else if IsSet(op.kind) {
        BuildSet(body, source, op);
      } else if op.kind.Copy? {
        BuildCopy(body, source, op);
      } else if op.kind.AssignUnion? {
        BuildAssignUnion(body, source, op);
      } else {
        BuildArgumentOperation(body, source, op);
      }
    }

    /** `build_get_and_check`: call the matching `is_*_initialized` model and check its result. */
    method BuildGetAndCheck(body: MutableBody, source: nat, op: MemoryInitOp)
      requires IsCheck(op.kind) && FromTy(op.pointee).Ok?
      modifies body
      ensures Applied(body, CheckEffect(safetyCheckType, unsupportedCheckType, source, op, old(|body.locals|)))
    {
      var retLocal := body.NewLocal(BoolTy);
      match FromTy(op.pointee).value {
        case Sized(mask) =>
          var def, rest;
          if op.kind.CheckSliceChunk? {
            def, rest := IsSliceChunkPtrInitialized, [op.kind.count];
            assert [op.kind.ptr, MoveLocal(retLocal + 1)] + rest == [op.kind.ptr, MoveLocal(retLocal + 1), op.kind.count];
          } else {
            def, rest := IsPtrInitialized, [];
            assert [op.kind.ptr, MoveLocal(retLocal + 1)] + rest == [op.kind.ptr, MoveLocal(retLocal + 1)];
          }
          var inst := ResolveMemInitFn(def, |mask|, op.pointee);
          InsertMaskCall(body, source, op.position, mask, inst, op.kind.ptr, rest, retLocal);
          body.InsertCheck(safetyCheckType, source, op.position, Some(retLocal), ReadUninit(op.pointerName));
          MaskCheckApplied(body.log, old(body.log));
        case Slice(elementLayout) =>
          var (elemTy, def) := SliceTarget(op.pointee, true);
          var inst := ResolveMemInitFn(def, |elementLayout|, elemTy);
          assert [op.kind.ptr, MoveLocal(retLocal + 1)] + [] == [op.kind.ptr, MoveLocal(retLocal + 1)];
          InsertMaskCall(body, source, op.position, elementLayout, inst, op.kind.ptr, [], retLocal);
          body.InsertCheck(safetyCheckType, source, op.position, Some(retLocal), ReadUninit(op.pointerName));
          MaskCheckApplied(body.log, old(body.log));
        case TraitObject =>
          InjectUnsupportedCheck(body, source, op.position, TraitObjectPointer);
        case Union(_) =>
          InjectUnsupportedCheck(body, source, op.position, UnionPointer);
      }
    }

    /** `build_set`: call the matching `set_*_initialized` model with the new state. */
    method BuildSet(body: MutableBody, source: nat, op: MemoryInitOp)
      requires IsSet(op.kind) && FromTy(op.pointee).Ok? && ValidOp(op)
      modifies body
      ensures Applied(body, SetEffect(unsupportedCheckType, source, op, old(|body.locals|)))
    {
      var retLocal := body.NewLocal(UnitTy);
      var value := BoolConstant(op.kind.value);
      match FromTy(op.pointee).value {
        case Sized(mask) =>
          var def, rest;
          if op.kind.SetSliceChunk? {
            def, rest := SetSliceChunkPtrInitialized, [op.kind.count, value];
            assert [op.kind.ptr, MoveLocal(retLocal + 1)] + rest == [op.kind.ptr, MoveLocal(retLocal + 1), op.kind.count, value];
          } else {
            def, rest := SetPtrInitialized, [value];
            assert [op.kind.ptr, MoveLocal(retLocal + 1)] + rest == [op.kind.ptr, MoveLocal(retLocal + 1), value];
          }
          var inst := ResolveMemInitFn(def, |mask|, op.pointee);
          InsertMaskCall(body, source, op.position, mask, inst, op.kind.ptr, rest, retLocal);
        case Slice(elementLayout) =>
          var (elemTy, def) := SliceTarget(op.pointee, false);
          var inst := ResolveMemInitFn(def, |elementLayout|, elemTy);
          assert [op.kind.ptr, MoveLocal(retLocal + 1)] + [value] == [op.kind.ptr, MoveLocal(retLocal + 1), value];
          InsertMaskCall(body, source, op.position, elementLayout, inst, op.kind.ptr, [value], retLocal);
        case TraitObject =>
          assert false;
        case Union(fieldLayouts) =>
          if !op.kind.CreateUnion? {
            InjectUnsupportedCheck(body, source, op.position, UnionPointer);
            return;
          }
          var mask := fieldLayouts[op.kind.field];
          var inst := ResolveMemInitFn(SetPtrInitialized, |mask|, op.pointee);
          assert [op.kind.ptr, MoveLocal(retLocal + 1)] + [value] == [op.kind.ptr, MoveLocal(retLocal + 1), value];
          InsertMaskCall(body, source, op.position, mask, inst, op.kind.ptr, [value], retLocal);
      }
    }

    /** `build_copy`: copy the initialisation state of `count` pointees from one pointer to the other. */
    method BuildCopy(body: MutableBody, source: nat, op: MemoryInitOp)
      requires op.kind.Copy? && FromTy(op.pointee).Ok? && ValidOp(op)
      modifies body
      ensures Applied(body, TransferEffect(source, op, old(|body.locals|)))
    {
      var retLocal := body.NewLocal(UnitTy);
      var layoutSize := MaybeSize(FromTy(op.pointee).value).value;
      var inst := ResolveMemInitFn(CopyInitState, layoutSize, op.pointee);
      body.InsertCall(inst, source, op.position, [op.kind.from, op.kind.to, op.kind.count], retLocal);
    }

    /** `build_argument_operation`: store or load the state of an argument that contains unions. */
    method BuildArgumentOperation(body: MutableBody, source: nat, op: MemoryInitOp)
      requires (op.kind.StoreArgument? || op.kind.LoadArgument?) && FromTy(op.pointee).Ok? && ValidOp(op)
      modifies body
      ensures Applied(body, TransferEffect(source, op, old(|body.locals|)))
    {
      var retLocal := body.NewLocal(UnitTy);
      var layoutSize := MaybeSize(FromTy(op.pointee).value).value;
      var def := if op.kind.LoadArgument? then KaniModel.LoadArgument else KaniModel.StoreArgument;
      var inst := ResolveMemInitFn(def, layoutSize, op.pointee);
      var func := body.NewLocal(FnItemTy(inst));
      body.InsertBb(BasicBlock([], Call(func, inst, [op.kind.ptr, UsizeConstant(op.kind.argNo)], retLocal)), source, op.position);
    }

    /** `build_assign_union`: copy the initialisation state of one union to another. */
    method BuildAssignUnion(body: MutableBody, source: nat, op: MemoryInitOp)
      requires op.kind.AssignUnion? && FromTy(op.pointee).Ok? && ValidOp(op)
      modifies body
      ensures Applied(body, TransferEffect(source, op, old(|body.locals|)))
    {
      var retLocal := body.NewLocal(UnitTy);
      var layoutSize := MaybeSize(FromTy(op.pointee).value).value;
      var inst := ResolveMemInitFn(CopyInitStateSingle, layoutSize, op.pointee);
      var func := body.NewLocal(FnItemTy(inst));
      body.InsertBb(BasicBlock([], Call(func, inst, [op.kind.from, op.kind.to], retLocal)), source, op.position);
    }

    /** `inject_safety_check`: assign `false` to a fresh local and insert a safety check of it. */
    method InjectSafetyCheck(body: MutableBody, source: nat, position: InsertPosition, reason: string)
      modifies body
      ensures Applied(body, Effect([BoolTy], [InsertedAssignment(source, position, old(|body.locals|), false),
                                              InsertedCheck(source, position, safetyCheckType, Some(old(|body.locals|)), Reason(reason))]))
    {
      var result := body.InsertAssignment(false, source, position);
      body.InsertCheck(safetyCheckType, source, position, Some(result), Reason(reason));
      assert body.log[|old(body.log)|..] == [body.log[|body.log| - 2], body.log[|body.log| - 1]];
      BlocksOfFew(body.log[|body.log| - 2], body.log[|body.log| - 1]);
    }

    /** `inject_unsupported_check`: one unsupported-construct check, with no condition. */
    method InjectUnsupportedCheck(body: MutableBody, source: nat, position: InsertPosition, message: CheckMessage)
      modifies body
      ensures Applied(body, Effect([], [InsertedCheck(source, position, unsupportedCheckType, None, message)]))
    {
      body.InsertCheck(unsupportedCheckType, source, position, None, message);
    }
  }
}
