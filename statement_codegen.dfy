/**
 * The lowering of MIR statements and terminators to goto-program statements: which
 * statement each case produces, the switch lowering by arity, enum discriminant writes
 * (including the niche arithmetic), the dangling-pointer sentinel `dead_object`, the
 * filtering of call arguments by pass mode, and the dispatch of calls and drops.
 *
 * Everything the lowering obtains from rustc (types, layouts, instances, ABIs) is an
 * input; the lowering of operands, places and rvalues is an `Expr` (or, for a place
 * that cannot be lowered, the unimplemented statement it produces) given as input.
 */
module StatementCodegen {
  import opened Wrappers
  import opened Strings
  import opened Goto

  /** A lowered place: the expression, or the statement an unsupported place lowers to. */
  type PlaceResult = Result<Expr, Stmt>

  // ---------------------------------------------------------------------------
  // SwitchInt
  // ---------------------------------------------------------------------------

  /** The targets of a MIR `SwitchInt`: the (value, block) branches and the fallback block. */
  datatype SwitchTargets = SwitchTargets(branches: seq<(int, nat)>, otherwise: nat)

  /** The number of targets rustc reports: every branch plus the fallback. */
  function TargetCount(t: SwitchTargets): nat { |t.branches| + 1 }

  /** rustc's meaning of a switch: the block of the first branch whose value is `v`, else the fallback. */
  function TargetFor(branches: seq<(int, nat)>, otherwise: nat, v: int): nat
  {
    if branches == [] then otherwise
    else if branches[0].0 == v then branches[0].1
    else TargetFor(branches[1..], otherwise, v)
  }

  function SwitchCases(branches: seq<(int, nat)>, ty: Type): (cases: seq<SwitchCase>)
    ensures |cases| == |branches|
    ensures forall k :: 0 <= k < |branches| ==> cases[k] == SwitchCase(IntConst(branches[k].0, ty), Goto(branches[k].1))
  {
    if branches == [] then []
    else [SwitchCase(IntConst(branches[0].0, ty), Goto(branches[0].1))] + SwitchCases(branches[1..], ty)
  }

  /**
   * A trivial switch is a jump to the fallback, a one-branch switch a guarded jump
   * followed by a jump to the fallback, and a wider one a goto-program `switch` whose
   * default jumps to the fallback. (`SwitchTargets` always holds the fallback, so the
   * zero-target case the source rules out cannot be built.)
   */
  function CodegenSwitchInt(v: Expr, switchTy: Type, targets: SwitchTargets): (s: Stmt)
    ensures TargetCount(targets) == 1 ==> s == Goto(targets.otherwise)
    ensures TargetCount(targets) == 2 ==> s.Block? && |s.stmts| == 2 && s.stmts[1] == Goto(targets.otherwise)
    ensures TargetCount(targets) >= 3 ==>
      s.Switch? && s.value == v && s.default == Goto(targets.otherwise) && |s.cases| == |targets.branches|
  {
    if |targets.branches| == 0 then
      Goto(targets.otherwise)
    else if |targets.branches| == 1 then
      var (case_, first) := targets.branches[0];
      Block([IfThen(Eq(v, IntConst(case_, switchTy)), Goto(first)), Goto(targets.otherwise)])
    else
      Switch(v, SwitchCases(targets.branches, switchTy), Goto(targets.otherwise))
  }

  /** The jump taken by a single goto or guarded goto, when the switched-on value is `v`. */
  function JumpOfSimple(s: Stmt, v: int): Option<nat>
  {
    match s
    case Goto(t) => Some(t)
    case IfThen(Eq(_, IntConst(c, _)), Goto(t)) => if v == c then Some(t) else None
    case _ => None
  }

  /** The first jump taken by a straight-line block of simple statements. */
  function JumpOfBlock(stmts: seq<Stmt>, v: int): Option<nat>
  {
    if stmts == [] then None
    else if JumpOfSimple(stmts[0], v).Some? then JumpOfSimple(stmts[0], v)
    else JumpOfBlock(stmts[1..], v)
  }

  /** The jump taken by a `switch` whose cases are gotos: the first case equal to `v`, else the default. */
  function JumpOfCases(cases: seq<SwitchCase>, default: Stmt, v: int): Option<nat>
  {
    if cases == [] then JumpOfSimple(default, v)
    else match cases[0] {
      case SwitchCase(IntConst(c, _), Goto(t)) =>
        if c == v then Some(t) else JumpOfCases(cases[1..], default, v)
      case _ => JumpOfCases(cases[1..], default, v)
    }
  }

  /**
   * The control transfer of the goto code a switch lowers to, when the switched-on
   * expression evaluates to `v`.
   */
  function JumpOf(s: Stmt, v: int): Option<nat>
  {
    match s
    case Block(stmts) => JumpOfBlock(stmts, v)
    case Switch(_, cases, default) => JumpOfCases(cases, default, v)
    case _ => JumpOfSimple(s, v)
  }

  lemma {:induction false} JumpOfCasesSpec(branches: seq<(int, nat)>, ty: Type, otherwise: nat, v: int)
    ensures JumpOfCases(SwitchCases(branches, ty), Goto(otherwise), v) == Some(TargetFor(branches, otherwise, v))
  {
    if branches != [] {
      JumpOfCasesSpec(branches[1..], ty, otherwise, v);
      assert SwitchCases(branches, ty)[1..] == SwitchCases(branches[1..], ty);
    }
  }

  /** Whatever the number of targets, the lowered switch jumps where rustc's switch would. */
  lemma {:induction false} SwitchIntJumpsToTarget(v: Expr, switchTy: Type, targets: SwitchTargets, value: int)
    ensures JumpOf(CodegenSwitchInt(v, switchTy, targets), value) == Some(TargetFor(targets.branches, targets.otherwise, value))
  {
    if |targets.branches| >= 2 {
      JumpOfCasesSpec(targets.branches, switchTy, targets.otherwise, value);
    } else if |targets.branches| == 1 {
      var b := targets.branches[0];
      var guard := IfThen(Eq(v, IntConst(b.0, switchTy)), Goto(b.1));
      var stmts := [guard, Goto(targets.otherwise)];
      assert CodegenSwitchInt(v, switchTy, targets) == Block(stmts);
      assert JumpOfSimple(guard, value) == (if value == b.0 then Some(b.1) else None);
      assert stmts[1..] == [Goto(targets.otherwise)];
      assert JumpOfBlock(stmts[1..], value) == Some(targets.otherwise);
      assert TargetFor(targets.branches[1..], targets.otherwise, value) == targets.otherwise;
    }
  }

  // ---------------------------------------------------------------------------
  // SetDiscriminant
  // ---------------------------------------------------------------------------

  const U128_LIMIT: nat := 0x1_0000_0000_0000_0000_0000_0000_0000_0000

  datatype TagPrimitive = IntTag | PointerTag

  datatype TagEncoding =
    | Direct
    | Niche(untaggedVariant: nat, nicheVariantsStart: nat, nicheVariantsEnd: nat, nicheStart: nat)

  /** The variant part of an enum layout; `fieldOffset0` is the offset of field 0 when the fields are arbitrary. */
  datatype VariantsLayout =
    | EmptyVariants
    | SingleVariant
    | MultipleVariants(tag: TagPrimitive, encoding: TagEncoding, fieldOffset0: Option<nat>)

  /**
   * The tag value that encodes a variant of a niche-encoded enum: the variant's distance
   * from the first niche variant (a u32 subtraction, which cannot underflow for a variant
   * of the niche range) plus the niche start, wrapping around at 2^128.
   */
  function NicheValue(variant: nat, nicheVariantsStart: nat, nicheStart: nat): (value: nat)
    requires nicheVariantsStart <= variant < U32_LIMIT
    ensures value < U128_LIMIT
    ensures (value - nicheStart - (variant - nicheVariantsStart)) % U128_LIMIT == 0
  {
    var relative := variant - nicheVariantsStart;
    (relative + nicheStart) % U128_LIMIT
  }

  /** rustc's reading of a niche tag: a tag within the niche range names that variant, anything else the untagged one. */
  function DecodeNiche(tag: nat, untaggedVariant: nat, nicheVariantsStart: nat, nicheVariantsEnd: nat, nicheStart: nat): nat
    requires nicheVariantsStart <= nicheVariantsEnd
  {
    var relative := (tag - nicheStart) % U128_LIMIT;
    if relative <= nicheVariantsEnd - nicheVariantsStart then nicheVariantsStart + relative else untaggedVariant
  }

  /** Writing a niche variant's value and reading it back gives that variant. */
  lemma {:induction false} NicheRoundTrip(variant: nat, untaggedVariant: nat, nicheVariantsStart: nat, nicheVariantsEnd: nat, nicheStart: nat)
    requires nicheVariantsStart <= variant <= nicheVariantsEnd < U32_LIMIT
    requires nicheStart < U128_LIMIT
    ensures DecodeNiche(NicheValue(variant, nicheVariantsStart, nicheStart), untaggedVariant,
                        nicheVariantsStart, nicheVariantsEnd, nicheStart) == variant
  {
    var relative := variant - nicheVariantsStart;
    var value := NicheValue(variant, nicheVariantsStart, nicheStart);
    assert relative < U128_LIMIT;
    if relative + nicheStart < U128_LIMIT {
      assert value == relative + nicheStart;
      assert (value - nicheStart) % U128_LIMIT == relative;
    } else {
      assert value == relative + nicheStart - U128_LIMIT;
      assert value - nicheStart == relative - U128_LIMIT;
      assert (value - nicheStart) % U128_LIMIT == relative;
    }
  }

  /**
   * The statement that makes `dest` hold variant `variant`. `discrValue`/`discrValueTy`
   * is rustc's discriminant for the variant and `discrTy` the enum's tag type. `None`
   * stands for the source's unreachable (a niche layout whose fields are not arbitrary).
   */
  function CodegenSetDiscriminant(layout: VariantsLayout, dest: Expr, variant: nat,
                                  discrValue: int, discrValueTy: Type, discrTy: Type): (s: Option<Stmt>)
    requires layout.MultipleVariants? && layout.encoding.Niche? && variant != layout.encoding.untaggedVariant ==>
      layout.encoding.nicheVariantsStart <= variant < U32_LIMIT
    ensures layout.EmptyVariants? || layout.SingleVariant? ==> s == Some(Skip)
    ensures layout.MultipleVariants? && layout.encoding.Direct? ==>
      s == Some(Assign(DiscriminantOf(dest), Cast(IntConst(discrValue, discrValueTy), discrTy)))
    ensures layout.MultipleVariants? && layout.encoding.Niche? && variant == layout.encoding.untaggedVariant ==>
      s == Some(Skip)
    ensures layout.MultipleVariants? && layout.encoding.Niche? && variant != layout.encoding.untaggedVariant ==>
      (s.None? <==> layout.fieldOffset0.None?)
    ensures s.Some? && s.value.Assign? && s.value.lhs.NicheAt? ==>
      var value := NicheValue(variant, layout.encoding.nicheVariantsStart, layout.encoding.nicheStart);
      && s.value.lhs == NicheAt(dest, layout.fieldOffset0.value, discrTy)
      && (s.value.rhs.NullPtr? <==> value == 0 && layout.tag.PointerTag?)
      && (s.value.rhs.IntConst? ==> s.value.rhs.value == value)
  {
    match layout {
      case EmptyVariants => Some(Skip)
      case SingleVariant => Some(Skip)
      case MultipleVariants(tag, Direct, _) =>
        Some(Assign(DiscriminantOf(dest), Cast(IntConst(discrValue, discrValueTy), discrTy)))
      case MultipleVariants(tag, Niche(untagged, start, _, nicheStart), offset) =>
        if untagged == variant then Some(Skip)
        else if offset.None? then None
        else
          var value := NicheValue(variant, start, nicheStart);
          var written := if value == 0 && tag.PointerTag? then NullPtr(discrTy) else IntConst(value, discrTy);
          Some(Assign(NicheAt(dest, offset.value, discrTy), written))
    }
  }

  // ---------------------------------------------------------------------------
  // StorageLive / StorageDead and the dead-object sentinel
  // ---------------------------------------------------------------------------

  /** The CBMC instrumentation global that holds the one object currently treated as dead. */
  const DEAD_OBJECT: string := "__CPROVER_dead_object"

  function DeadObject(): Expr { Sym(DEAD_OBJECT) }

  function LocalAddress(local: string): Expr { Cast(AddressOf(Sym(local)), Pointer(Unit)) }

  /** Re-entering scope: the sentinel is cleared if it tracks this local. */
  function CodegenStorageLive(local: string, addressTaken: bool): Stmt
  {
    if !addressTaken then Skip
    else Assign(DeadObject(), Ite(Eq(DeadObject(), LocalAddress(local)), NullPtr(Pointer(Unit)), DeadObject()))
  }

  /** Leaving scope: the sentinel may start tracking this local. */
  function CodegenStorageDead(local: string, addressTaken: bool): Stmt
  {
    if !addressTaken then Skip
    else Assign(DeadObject(), Ite(Nondet(Bool), LocalAddress(local), DeadObject()))
  }

  /** The value of `dead_object` in the generated program: no object, or the address of a local. */
  datatype Address = NullAddress | AddressOfLocal(local: string)

  /** Evaluates the pointer expressions the sentinel updates use; `choice` resolves the nondeterministic bool. */
  function EvalAddress(e: Expr, dead: Address, choice: bool): Option<Address>
  {
    match e
    case Sym(n) => if n == DEAD_OBJECT then Some(dead) else None
    case NullPtr(_) => Some(NullAddress)
    case Cast(AddressOf(Sym(n)), _) => Some(AddressOfLocal(n))
    case Ite(Eq(a, b), x, y) =>
      var va := EvalAddress(a, dead, choice);
      var vb := EvalAddress(b, dead, choice);
      if va.None? || vb.None? then None
      else if va == vb then EvalAddress(x, dead, choice) else EvalAddress(y, dead, choice)
    case Ite(Nondet(Bool), x, y) => if choice then EvalAddress(x, dead, choice) else EvalAddress(y, dead, choice)
    case _ => None
  }

  /** The effect on `dead_object` of a sentinel statement (`None`: not a statement of that shape). */
  function ExecSentinel(s: Stmt, dead: Address, choice: bool): Option<Address>
  {
    match s
    case Skip => Some(dead)
    case Assign(Sym(n), e) => if n == DEAD_OBJECT then EvalAddress(e, dead, choice) else None
    case _ => None
  }

  /**
   * StorageLive leaves the sentinel alone unless the local's address is taken, and then
   * clears it exactly when it tracks this local.
   */
  lemma {:induction false} StorageLiveEffect(local: string, addressTaken: bool, dead: Address, choice: bool)
    ensures ExecSentinel(CodegenStorageLive(local, addressTaken), dead, choice)
      == Some(if addressTaken && dead == AddressOfLocal(local) then NullAddress else dead)
  {
    if addressTaken {
      var cleared := Ite(Eq(DeadObject(), LocalAddress(local)), NullPtr(Pointer(Unit)), DeadObject());
      assert EvalAddress(DeadObject(), dead, choice) == Some(dead);
      assert EvalAddress(LocalAddress(local), dead, choice) == Some(AddressOfLocal(local));
      assert EvalAddress(NullPtr(Pointer(Unit)), dead, choice) == Some(NullAddress);
      assert EvalAddress(cleared, dead, choice) == Some(if dead == AddressOfLocal(local) then NullAddress else dead);
    }
  }

  /**
   * StorageDead leaves the sentinel alone unless the local's address is taken, and then
   * either leaves it alone or makes it track this local, as the nondeterministic choice says.
   */
  lemma {:induction false} StorageDeadEffect(local: string, addressTaken: bool, dead: Address, choice: bool)
    ensures ExecSentinel(CodegenStorageDead(local, addressTaken), dead, choice)
      == Some(if addressTaken && choice then AddressOfLocal(local) else dead)
  {
    assert EvalAddress(DeadObject(), dead, choice) == Some(dead);
    assert EvalAddress(LocalAddress(local), dead, choice) == Some(AddressOfLocal(local));
  }

  /** After StorageLive of an address-taken local, that local is never the tracked dead object. */
  lemma {:induction false} LiveLocalIsNotDead(local: string, dead: Address, choice: bool)
    ensures var after := ExecSentinel(CodegenStorageLive(local, true), dead, choice);
      after.Some? && after.value != AddressOfLocal(local)
  {
    StorageLiveEffect(local, true, dead, choice);
  }

  /** After StorageDead of an address-taken local, some choice makes it the tracked dead object. */
  lemma {:induction false} DeadLocalCanBeTracked(local: string, dead: Address)
    ensures exists choice :: ExecSentinel(CodegenStorageDead(local, true), dead, choice) == Some(AddressOfLocal(local))
  {
    StorageDeadEffect(local, true, dead, true);
  }

  // ---------------------------------------------------------------------------
  // Assign, Deinit, places
  // ---------------------------------------------------------------------------

  /** What the lowering looks at in an assignment `lhs = rhs`. */
  datatype AssignInfo = AssignInfo(
    lhsName: string,
    lhsIsZst: bool,
    lhsIsFnPtr: bool,
    rhsIsFnItem: bool,
    rhsIsBool: bool,
    lhsPlace: PlaceResult,
    rhs: Expr,
    rhsAssignTargets: seq<Expr>)

  /** Assignment to a place: the special cases are tried in order, zero-sized first. */
  function AssignLowering(a: AssignInfo): (s: Stmt)
    ensures a.lhsIsZst ==> s == Skip
    ensures !a.lhsIsZst && a.lhsPlace.Err? ==> s == a.lhsPlace.error
    ensures !a.lhsIsZst && a.lhsPlace.Ok? ==> s.Assign? && s.lhs == a.lhsPlace.value
    ensures !a.lhsIsZst && a.lhsPlace.Ok? && a.lhsIsFnPtr && a.rhsIsFnItem ==> s.rhs == AddressOf(a.rhs)
    ensures !a.lhsIsZst && a.lhsPlace.Ok? && !(a.lhsIsFnPtr && a.rhsIsFnItem) ==>
      s.rhs == (if a.rhsIsBool then Cast(a.rhs, CBool) else a.rhs)
  {
    if a.lhsIsZst then Skip
    else match a.lhsPlace {
      case Err(unimplemented) => unimplemented
      case Ok(place) =>
        if a.lhsIsFnPtr && a.rhsIsFnItem then Assign(place, AddressOf(a.rhs))
        else if a.rhsIsBool then Assign(place, Cast(a.rhs, CBool))
        else Assign(place, a.rhs)
    }
  }

  /** Deinit writes uninitialised bytes, except to a place of zero size. */
  function CodegenDeinit(isZst: bool, sizeInBits: nat, place: PlaceResult): (s: Stmt)
    ensures isZst || sizeInBits == 0 ==> s == Skip
    ensures !(isZst || sizeInBits == 0) && place.Ok? ==> s == Deinit(place.value)
  {
    if isZst || sizeInBits == 0 then Skip
    else match place {
      case Err(unimplemented) => unimplemented
      case Ok(p) => Deinit(p)
    }
  }

  /** Storing a call's result: a unit destination only evaluates it. */
  function ExprToPlace(placeIsUnit: bool, place: PlaceResult, e: Expr): (s: Stmt)
    ensures placeIsUnit ==> s == ExprStmt(e)
    ensures !placeIsUnit && place.Ok? ==> s == Assign(place.value, e)
  {
    if placeIsUnit then ExprStmt(e)
    else match place {
      case Err(unimplemented) => unimplemented
      case Ok(p) => Assign(p, e)
    }
  }

  /** The counter text of a coverage statement: the counter's debug form, then the function name between `$`. */
  function CoverageCounterData(opaqueText: string, functionName: string): (d: string)
    ensures opaqueText <= d
    ensures d[|opaqueText|..] == " $" + functionName + "$"
  {
    opaqueText + " $" + functionName + "$"
  }

  // ---------------------------------------------------------------------------
  // Statements
  // ---------------------------------------------------------------------------

  datatype StatementKind =
    | AssignStmt(info: AssignInfo)
    | DeinitStmt(isZst: bool, sizeInBits: nat, place: PlaceResult)
    | SetDiscriminantStmt(layout: VariantsLayout, place: PlaceResult, variant: nat,
                          discrValue: int, discrValueTy: Type, discrTy: Type)
    | StorageLive(local: string, addressTaken: bool)
    | StorageDead(local: string, addressTaken: bool)
    | CopyNonOverlapping(copy: Stmt)
    | AssumeStmt(cond: Expr)
    | CoverageStmt(opaqueText: string, functionName: string, hasRegion: bool)
    | PlaceMention
    | NoOp

  /** rustc only writes niche discriminants of variants in the niche range, whose indices are u32. */
  predicate NicheVariantInRange(k: StatementKind)
  {
    (k.SetDiscriminantStmt? && k.layout.MultipleVariants? && k.layout.encoding.Niche?
     && k.variant != k.layout.encoding.untaggedVariant)
    ==> k.layout.encoding.nicheVariantsStart <= k.variant < U32_LIMIT
  }

  /** The lowering of one statement, with the state the Assign case writes. */
  class StatementCtx {
    /** The assignment targets recorded for the loop whose `kani_loop_modifies` variable was last assigned. */
    var currentLoopModifies: seq<Expr>

    constructor ()
      ensures currentLoopModifies == []
    {
      currentLoopModifies := [];
    }

    /**
     * Assigning to a variable whose name contains `kani_loop_modifies` only records the
     * assignment targets; every other assignment is lowered and leaves them alone.
     */
    method CodegenAssign(a: AssignInfo) returns (s: Stmt)
      modifies this
      ensures ContainsSubstring(a.lhsName, "kani_loop_modifies") ==>
        s == Skip && currentLoopModifies == a.rhsAssignTargets
      ensures !ContainsSubstring(a.lhsName, "kani_loop_modifies") ==>
        s == AssignLowering(a) && currentLoopModifies == old(currentLoopModifies)
    {
      if ContainsSubstring(a.lhsName, "kani_loop_modifies") {
        currentLoopModifies := a.rhsAssignTargets;
        return Skip;
      }
      s := AssignLowering(a);
    }

    /**
     * Lowers a statement; `None` stands for the `todo!()` on `PlaceMention` and for the
     * unreachable niche layout without arbitrary fields. Only an assignment can change
     * the recorded loop-modifies targets.
     */
    method CodegenStatement(k: StatementKind) returns (s: Option<Stmt>)
      requires NicheVariantInRange(k)
      modifies this
      ensures !k.AssignStmt? ==> currentLoopModifies == old(currentLoopModifies)
      ensures k.PlaceMention? ==> s.None?
      ensures s.None? ==> k.PlaceMention? || k.SetDiscriminantStmt?
      ensures k.AssignStmt? && ContainsSubstring(k.info.lhsName, "kani_loop_modifies") ==>
        s == Some(Skip) && currentLoopModifies == k.info.rhsAssignTargets
      ensures k.AssignStmt? && !ContainsSubstring(k.info.lhsName, "kani_loop_modifies") ==>
        s == Some(AssignLowering(k.info)) && currentLoopModifies == old(currentLoopModifies)
      ensures k.DeinitStmt? ==> s == Some(CodegenDeinit(k.isZst, k.sizeInBits, k.place))
      ensures k.SetDiscriminantStmt? && k.place.Err? ==> s == Some(k.place.error)
      ensures k.SetDiscriminantStmt? && k.place.Ok? ==>
        s == CodegenSetDiscriminant(k.layout, k.place.value, k.variant, k.discrValue, k.discrValueTy, k.discrTy)
      ensures k.CopyNonOverlapping? ==> s == Some(k.copy)
      ensures k.StorageLive? ==> s == Some(CodegenStorageLive(k.local, k.addressTaken))
      ensures k.StorageDead? ==> s == Some(CodegenStorageDead(k.local, k.addressTaken))
      ensures k.AssumeStmt? ==> s == Some(AssertAssume(Cast(k.cond, Bool), Assume, "Rust intrinsic assumption failed"))
      ensures k.CoverageStmt? ==>
        s == Some(if k.hasRegion then Block([Coverage(CoverageCounterData(k.opaqueText, k.functionName))]) else Skip)
      ensures k.NoOp? ==> s == Some(Skip)
    {
      match k {
        case AssignStmt(info) =>
          var st := CodegenAssign(info);
          s := Some(st);
        case DeinitStmt(isZst, bits, place) =>
          s := Some(CodegenDeinit(isZst, bits, place));
        case SetDiscriminantStmt(layout, place, variant, discrValue, discrValueTy, discrTy) =>
          match place {
            case Err(unimplemented) => s := Some(unimplemented);
            case Ok(dest) =>
              s := CodegenSetDiscriminant(layout, dest, variant, discrValue, discrValueTy, discrTy);
          }
        case StorageLive(local, taken) => s := Some(CodegenStorageLive(local, taken));
        case StorageDead(local, taken) => s := Some(CodegenStorageDead(local, taken));
        case CopyNonOverlapping(copy) => s := Some(copy);
        case AssumeStmt(cond) => s := Some(AssertAssume(Cast(cond, Bool), Assume, "Rust intrinsic assumption failed"));
        case CoverageStmt(text, fnName, hasRegion) =>
          s := Some(if hasRegion then Block([Coverage(CoverageCounterData(text, fnName))]) else Skip);
        case PlaceMention => s := None;
        case NoOp => s := Some(Skip);
      }
    }
  }

  // ---------------------------------------------------------------------------
  // Terminators other than calls
  // ---------------------------------------------------------------------------

  datatype AssertKind =
    | BoundsCheck
    | InvalidEnumConstruction
    | MisalignedPointerDereference
    | NullPointerDereference
    | Overflow
    | OverflowNeg
    | DivisionByZero
    | RemainderByZero
    | ResumedAfterReturn
    | ResumedAfterDrop
    | ResumedAfterPanic

  const BOUNDS_CHECK_MSG: string := "index out of bounds: the length is less than or equal to the given index"
  const INVALID_ENUM_MSG: string := "invalid enum construction: value is not a valid discriminant for this enum"
  const MISALIGNED_MSG: string := "misaligned pointer dereference: address must be a multiple of its type's alignment"

  /**
   * The static message and property class of a MIR assertion; `description` is rustc's
   * own description of the assertion kind, used where the message has no runtime values.
   */
  function AssertMessage(kind: AssertKind, description: string): (r: (string, PropertyClass))
    ensures r.1 == SafetyCheck <==> kind in {InvalidEnumConstruction, MisalignedPointerDereference, NullPointerDereference}
    ensures r.1 != SafetyCheck ==> r.1 == Assertion
    ensures !(kind in {BoundsCheck, InvalidEnumConstruction, MisalignedPointerDereference}) ==> r.0 == description
  {
    match kind
    case BoundsCheck => (BOUNDS_CHECK_MSG, Assertion)
    case InvalidEnumConstruction => (INVALID_ENUM_MSG, SafetyCheck)
    case MisalignedPointerDereference => (MISALIGNED_MSG, SafetyCheck)
    case NullPointerDereference => (description, SafetyCheck)
    case _ => (description, Assertion)
  }

  /** How a function returns: nothing (unit), a bool, or any other value. */
  datatype ReturnKind = ReturnsUnit | ReturnsBool | ReturnsOther

  datatype DropKind = EmptyShim | NonEmptyShim | NotAShim

  datatype Terminator =
    | GotoTerm(target: nat)
    | SwitchIntTerm(v: Expr, switchTy: Type, targets: SwitchTargets)
    | Resume
    | Abort
    | ReturnTerm(retKind: ReturnKind, returnPlace: PlaceResult, voidVar: Expr)
    | UnreachableTerm
    | DropTerm(dropKind: DropKind, placeIsDyn: bool, placeRef: Expr, dropFn: Expr, target: nat)
    | AssertTerm(cond: Expr, expected: bool, kind: AssertKind, description: string, target: nat)
    | InlineAsm

  const ISSUE_692: string := "https://github.com/model-checking/kani/issues/692"
  const ISSUE_2: string := "https://github.com/model-checking/kani/issues/2"

  /** The value a function returns: the unit variable, or the return place (as a C bool for `bool`). */
  function CodegenReturn(kind: ReturnKind, returnPlace: PlaceResult, voidVar: Expr): (s: Stmt)
    ensures kind.ReturnsUnit? ==> s == Return(Some(voidVar))
    ensures !kind.ReturnsUnit? && returnPlace.Ok? ==>
      s == Return(Some(if kind.ReturnsBool? then Cast(returnPlace.value, CBool) else returnPlace.value))
  {
    if kind.ReturnsUnit? then Return(Some(voidVar))
    else match returnPlace {
      case Err(unimplemented) => unimplemented
      case Ok(p) => if kind.ReturnsBool? then Return(Some(Cast(p, CBool))) else Return(Some(p))
    }
  }

  /**
   * A drop calls the drop glue and then jumps on: an empty shim needs no call, a `dyn`
   * place calls the vtable's `drop` entry on the data pointer, any other place calls the
   * drop function on a reference to it. `None` stands for the unreachable non-shim case;
   * `restrict` is applied to the virtual call when vtable restrictions are emitted.
   */
  function CodegenDrop(dropKind: DropKind, placeIsDyn: bool, placeRef: Expr, dropFn: Expr, target: nat,
                       emitRestrictions: bool, restrict: Stmt -> Stmt): (s: Option<Stmt>)
    ensures s.None? <==> dropKind.NotAShim?
    ensures s.Some? ==> s.value.Block? && |s.value.stmts| == 2 && s.value.stmts[1] == Goto(target)
    ensures dropKind.EmptyShim? ==> s == Some(Block([Skip, Goto(target)]))
  {
    match dropKind
    case EmptyShim => Some(Block([Skip, Goto(target)]))
    case NotAShim => None
    case NonEmptyShim =>
      var call :=
        if placeIsDyn then
          var fnPtr := Member(Deref(Member(placeRef, "vtable")), "drop");
          var virtualCall := ExprStmt(Call(Deref(fnPtr), [Member(placeRef, "data")]));
          if emitRestrictions then restrict(virtualCall) else virtualCall
        else ExprStmt(Call(dropFn, [placeRef]));
      Some(Block([call, Goto(target)]))
  }

  /**
   * The lowering of a terminator that is not a call. `reachability` turns an assertion
   * message into the message to report and the reachability statement that precedes
   * the assertion. `None` stands for the source's unreachable drop case.
   */
  function CodegenTerminator(t: Terminator, reachability: string -> (string, Stmt),
                             emitRestrictions: bool, restrict: Stmt -> Stmt): (s: Option<Stmt>)
    ensures s.None? <==> t.DropTerm? && t.dropKind.NotAShim?
    ensures t.GotoTerm? ==> s == Some(Goto(t.target))
    ensures t.UnreachableTerm? ==> s == Some(AssertAssume(BoolConst(false), Unreachable, "unreachable code"))
    ensures t.Resume? || t.Abort? ==> s.Some? && s.value.MimicUnimplemented? && s.value.issue == ISSUE_692
    ensures t.InlineAsm? ==> s == Some(UnimplementedStmt("TerminatorKind::InlineAsm", ISSUE_2))
    ensures t.AssertTerm? ==>
      var cond := if t.expected then t.cond else Not(t.cond);
      var (msg, propClass) := AssertMessage(t.kind, t.description);
      && s.Some? && s.value.Block? && |s.value.stmts| == 3
      && s.value.stmts[1] == AssertAssume(Cast(cond, Bool), propClass, reachability(msg).0)
      && s.value.stmts[2] == Goto(t.target)
    ensures t.SwitchIntTerm? ==> s == Some(CodegenSwitchInt(t.v, t.switchTy, t.targets))
  {
    match t
    case GotoTerm(target) => Some(Goto(target))
    case SwitchIntTerm(v, ty, targets) => Some(CodegenSwitchInt(v, ty, targets))
    case Resume => Some(MimicUnimplemented("TerminatorKind::Resume", ISSUE_692))
    case Abort => Some(MimicUnimplemented("TerminatorKind::Abort", ISSUE_692))
    case ReturnTerm(kind, place, voidVar) => Some(CodegenReturn(kind, place, voidVar))
    case UnreachableTerm => Some(AssertAssume(BoolConst(false), Unreachable, "unreachable code"))
    case DropTerm(dropKind, isDyn, placeRef, dropFn, target) =>
      CodegenDrop(dropKind, isDyn, placeRef, dropFn, target, emitRestrictions, restrict)
    case AssertTerm(c, expected, kind, description, target) =>
      var cond := if expected then c else Not(c);
      var (msg, propClass) := AssertMessage(kind, description);
      var (msgStr, reachStmt) := reachability(msg);
      Some(Block([reachStmt, AssertAssume(Cast(cond, Bool), propClass, msgStr), Goto(target)]))
    case InlineAsm => Some(UnimplementedStmt("TerminatorKind::InlineAsm", ISSUE_2))
  }

  // ---------------------------------------------------------------------------
  // Call arguments
  // ---------------------------------------------------------------------------

  /** The pass mode of one ABI argument, as far as the lowering cares. */
  datatype PassMode = Ignore | Passed

  /** A call operand: its lowering and whether its type is `bool` or a closure. */
  datatype CallArg = CallArg(value: Expr, isBool: bool, isClosure: bool, tupleArity: nat)

  /**
   * Whether argument `i` is passed: a bool always (as a C bool), in the quantifier
   * variant a closure always, and otherwise unless its ABI entry exists and is ignored.
   */
  predicate KeepsArg(abi: seq<PassMode>, i: nat, arg: CallArg, forQuantifiers: bool)
  {
    arg.isBool || (forQuantifiers && arg.isClosure) || i >= |abi| || abi[i] != Ignore
  }

  function LowerArg(arg: CallArg): Expr
  {
    if arg.isBool then Cast(arg.value, CBool) else arg.value
  }

  /** The set of indices of the kept arguments among the first `n`. */
  function KeptIndices(abi: seq<PassMode>, args: seq<CallArg>, forQuantifiers: bool, n: nat): set<nat>
    requires n <= |args|
  {
    set i: nat | i < n && KeepsArg(abi, i, args[i], forQuantifiers)
  }

  /**
   * The goto arguments of a call, in order (`codegen_funcall_args`, and with
   * `forQuantifiers` its variant for `kani_forall`/`kani_exists`).
   */
  function FuncallArgs(abi: seq<PassMode>, args: seq<CallArg>, forQuantifiers: bool): seq<Expr>
    decreases |args|
  {
    if args == [] then []
    else
      var n := |args| - 1;
      var last := if KeepsArg(abi, n, args[n], forQuantifiers) then [LowerArg(args[n])] else [];
      FuncallArgs(abi, args[..n], forQuantifiers) + last
  }

  lemma {:induction false} KeptIndicesSnoc(abi: seq<PassMode>, args: seq<CallArg>, forQuantifiers: bool)
    requires |args| > 0
    ensures var n := |args| - 1;
      KeptIndices(abi, args, forQuantifiers, |args|)
        == KeptIndices(abi, args[..n], forQuantifiers, n) + (if KeepsArg(abi, n, args[n], forQuantifiers) then {n} else {})
  {
    var n := |args| - 1;
    assert forall i :: 0 <= i < n ==> args[..n][i] == args[i];
  }

  /** One goto argument per kept operand: bools always, others unless their ABI entry is ignored. */
  lemma {:induction false} FuncallArgsLength(abi: seq<PassMode>, args: seq<CallArg>, forQuantifiers: bool)
    ensures |FuncallArgs(abi, args, forQuantifiers)| == |KeptIndices(abi, args, forQuantifiers, |args|)|
    decreases |args|
  {
    if args != [] {
      var n := |args| - 1;
      FuncallArgsLength(abi, args[..n], forQuantifiers);
      KeptIndicesSnoc(abi, args, forQuantifiers);
      assert n !in KeptIndices(abi, args[..n], forQuantifiers, n);
    }
  }

  /** Every kept operand is passed, lowered. */
  lemma {:induction false} FuncallArgsComplete(abi: seq<PassMode>, args: seq<CallArg>, forQuantifiers: bool, i: nat)
    requires i < |args| && KeepsArg(abi, i, args[i], forQuantifiers)
    ensures LowerArg(args[i]) in FuncallArgs(abi, args, forQuantifiers)
    decreases |args|
  {
    var n := |args| - 1;
    if i < n {
      assert args[..n][i] == args[i];
      FuncallArgsComplete(abi, args[..n], forQuantifiers, i);
    }
  }

  /** Every goto argument is the lowering of a kept operand. */
  lemma {:induction false} FuncallArgsSound(abi: seq<PassMode>, args: seq<CallArg>, forQuantifiers: bool, x: Expr)
    requires x in FuncallArgs(abi, args, forQuantifiers)
    ensures exists i :: 0 <= i < |args| && KeepsArg(abi, i, args[i], forQuantifiers) && x == LowerArg(args[i])
    decreases |args|
  {
    var n := |args| - 1;
    if x in FuncallArgs(abi, args[..n], forQuantifiers) {
      FuncallArgsSound(abi, args[..n], forQuantifiers, x);
      var i :| 0 <= i < n && KeepsArg(abi, i, args[..n][i], forQuantifiers) && x == LowerArg(args[..n][i]);
      assert args[..n][i] == args[i];
    }
  }

  /** Every argument the plain lowering passes is also passed by the quantifier variant. */
  lemma {:induction false} QuantifierArgsKeepMore(abi: seq<PassMode>, args: seq<CallArg>)
    ensures multiset(FuncallArgs(abi, args, false)) <= multiset(FuncallArgs(abi, args, true))
    ensures (forall i :: 0 <= i < |args| ==> !args[i].isClosure) ==> FuncallArgs(abi, args, false) == FuncallArgs(abi, args, true)
    decreases |args|
  {
    if args != [] {
      var n := |args| - 1;
      QuantifierArgsKeepMore(abi, args[..n]);
    }
  }

  /**
   * The untupled arguments of a "rust-call" function: member "i" of the tuple for each
   * tuple index whose ABI entry is not ignored, in order.
   */
  function UntupledArgs(tuple: Expr, arity: nat, abi: seq<PassMode>): (fargs: seq<Expr>)
    requires arity <= |abi|
    ensures |fargs| <= arity
    ensures forall i :: 0 <= i < arity && abi[i] != Ignore ==> Member(tuple, NatToString(i)) in fargs
    ensures forall x :: x in fargs ==> exists i :: 0 <= i < arity && abi[i] != Ignore && x == Member(tuple, NatToString(i))
  {
    if arity == 0 then []
    else
      var last := if abi[arity - 1] != Ignore then [Member(tuple, NatToString(arity - 1))] else [];
      UntupledArgs(tuple, arity - 1, abi) + last
  }

  /** A call returns to its target block, or reaches a failing sanity check when it cannot return. */
  function CodegenEndCall(target: Option<nat>): (s: Stmt)
    ensures target.Some? <==> s.Goto?
    ensures target.Some? ==> s == Goto(target.value)
    ensures target.None? ==> s == Sanity(BoolConst(false), "Unexpected return from Never function")
  {
    match target
    case Some(next) => Goto(next)
    case None => Sanity(BoolConst(false), "Unexpected return from Never function")
  }

  // ---------------------------------------------------------------------------
  // Calls
  // ---------------------------------------------------------------------------

  datatype InstanceKind = Item | IntrinsicKind | ShimKind | Virtual(idx: nat)

  /** What the lowering asks of the called instance. */
  datatype Instance = Instance(
    kind: InstanceKind,
    name: string,
    intrinsicWithoutBody: bool,
    isEmptyShim: bool,
    isForeign: bool,
    hookApplies: bool,
    funcExpr: Expr)

  datatype CalleeType = FnDefType(isRustCall: bool) | FnPtrType | OtherCalleeType

  /** Where a call's lowering went: to intrinsic code, to a hook (with the arguments), or to these statements. */
  datatype CallLowering =
    | ToIntrinsic
    | ToHook(fargs: seq<Expr>)
    | Lowered(stmt: Stmt)
    | Panics

  /** What a virtual call needs: the receiver's fat-pointer path and a temporary for ADT receivers. */
  datatype VirtualInfo = VirtualInfo(
    selfIsAdt: bool,
    vtableField: string,
    extractPtr: Expr -> Expr,
    tmp: Expr,
    emitRestrictions: bool,
    restrict: Stmt -> Stmt)

  const KANI_FORALL: string := "kani::internal::kani_forall"
  const KANI_EXISTS: string := "kani::internal::kani_exists"

  /** The goto arguments of a call to a function item. */
  function FnDefArgs(inst: Instance, isRustCall: bool, abi: seq<PassMode>, args: seq<CallArg>): seq<Expr>
    requires isRustCall && |args| > 0 ==> |args| - 1 + args[|args| - 1].tupleArity <= |abi|
  {
    if |args| == 0 || !isRustCall then
      FuncallArgs(abi, args, inst.name == KANI_FORALL || inst.name == KANI_EXISTS)
    else
      var n := |args| - 1;
      FuncallArgs(abi, args[..n], false) + UntupledArgs(args[n].value, args[n].tupleArity, abi[n..])
  }

  function VirtualCallMessage(field: string): string
  {
    "Non-null virtual function call for \"" + field + "\""
  }

  /** The vtable slot a virtual call goes through. */
  function VtableFnPtr(receiver: Expr, v: VirtualInfo): Expr
  {
    Member(Deref(Member(v.extractPtr(receiver), "vtable")), v.vtableField)
  }

  class CallCodegen {
    /**
     * A virtual call through the receiver's vtable: the receiver argument `fargs[0]` is
     * replaced in place by the data pointer (through a temporary when the receiver is an
     * ADT), and the statements are the temporary's set-up, a sanity check that the vtable
     * slot is not null, and then the call through it.
     */
    static method CodegenVirtualFuncall(v: VirtualInfo, placeIsUnit: bool, place: PlaceResult, fargs: array<Expr>)
      returns (stmts: seq<Stmt>)
      requires fargs.Length > 0
      modifies fargs
      ensures fargs[1..] == old(fargs[1..])
      ensures var dataPtr := Member(v.extractPtr(old(fargs[0])), "data");
        fargs[0] == (if v.selfIsAdt then v.tmp else dataPtr)
      ensures var fnPtr := VtableFnPtr(old(fargs[0]), v);
        var call := ExprToPlace(placeIsUnit, place, Call(Deref(fnPtr), fargs[..]));
        && |stmts| >= 2
        && stmts[|stmts| - 2] == Sanity(IsNonNull(fnPtr), VirtualCallMessage(v.vtableField))
        && stmts[|stmts| - 1] == (if v.emitRestrictions then v.restrict(call) else call)
      ensures v.selfIsAdt ==>
        && |stmts| == 4 && stmts[0] == Decl(v.tmp, None)
        && stmts[1] == Assign(v.extractPtr(v.tmp), Member(v.extractPtr(old(fargs[0])), "data"))
      ensures !v.selfIsAdt ==> |stmts| == 2
    {
      var fatPtr := v.extractPtr(fargs[0]);
      var fnPtr := Member(Deref(Member(fatPtr, "vtable")), v.vtableField);
      var dataPtr := Member(fatPtr, "data");
      stmts := [];
      if v.selfIsAdt {
        stmts := stmts + [Decl(v.tmp, None), Assign(v.extractPtr(v.tmp), dataPtr)];
        fargs[0] := v.tmp;
      } else {
        fargs[0] := dataPtr;
      }
      var assertNonNull := Sanity(IsNonNull(fnPtr), VirtualCallMessage(v.vtableField));
      var callStmt := ExprToPlace(placeIsUnit, place, Call(Deref(fnPtr), fargs[..]));
      var restricted := if v.emitRestrictions then v.restrict(callStmt) else callStmt;
      stmts := stmts + [assertNonNull, restricted];
    }

    /**
     * The lowering of a call terminator. Intrinsics without a usable body go to the
     * intrinsic code and a hook that applies takes over; otherwise an empty shim is a
     * jump to the target, a virtual call goes through the vtable, a foreign item through
     * `foreignCall`, any other item is a direct call, and each of these ends the block as
     * `CodegenEndCall` says. A call through a function pointer is a direct call through
     * it followed by a jump to the target. `Panics` stands for the source's panics
     * (a missing target where one is unwrapped, or an unexpected callee type).
     */
    static method CodegenFuncall(inst: Option<Instance>, calleeTy: CalleeType, fnPtr: Expr,
                                 abi: seq<PassMode>, args: seq<CallArg>,
                                 placeIsUnit: bool, place: PlaceResult, target: Option<nat>,
                                 v: VirtualInfo, foreignCall: (Expr, seq<Expr>) -> Stmt)
      returns (r: CallLowering)
      requires calleeTy.FnDefType? ==> inst.Some?
      requires calleeTy.FnDefType? && calleeTy.isRustCall && |args| > 0 ==>
        |args| - 1 + args[|args| - 1].tupleArity <= |abi|
      ensures inst.Some? && inst.value.kind.IntrinsicKind? && inst.value.intrinsicWithoutBody ==> r == ToIntrinsic
      ensures r.ToHook? ==>
        && calleeTy.FnDefType? && inst.value.hookApplies
        && r.fargs == FnDefArgs(inst.value, calleeTy.isRustCall, abi, args)
      ensures (calleeTy.FnDefType? && !(inst.value.kind.IntrinsicKind? && inst.value.intrinsicWithoutBody)
        && inst.value.hookApplies) ==> r.ToHook?
      ensures (calleeTy.FnDefType? && !(inst.value.kind.IntrinsicKind? && inst.value.intrinsicWithoutBody)
        && !inst.value.hookApplies && inst.value.kind.ShimKind? && inst.value.isEmptyShim) ==>
          (if target.Some? then r == Lowered(Goto(target.value)) else r == Panics)
      ensures (calleeTy.FnDefType? && !(inst.value.kind.IntrinsicKind? && inst.value.intrinsicWithoutBody)
        && !inst.value.hookApplies && !(inst.value.kind.ShimKind? && inst.value.isEmptyShim)
        && !inst.value.kind.Virtual?) ==>
          var fargs := FnDefArgs(inst.value, calleeTy.isRustCall, abi, args);
          var call := if inst.value.isForeign then foreignCall(inst.value.funcExpr, fargs)
                      else ExprToPlace(placeIsUnit, place, Call(inst.value.funcExpr, fargs));
          r == Lowered(Block([call, CodegenEndCall(target)]))
      ensures r.Lowered? && calleeTy.FnDefType? && !(inst.value.kind.ShimKind? && inst.value.isEmptyShim) ==>
        r.stmt.Block? && |r.stmt.stmts| > 0 && r.stmt.stmts[|r.stmt.stmts| - 1] == CodegenEndCall(target)
      ensures calleeTy.FnPtrType? && !(inst.Some? && inst.value.kind.IntrinsicKind? && inst.value.intrinsicWithoutBody) ==>
        (if target.Some? then
           r == Lowered(Block([ExprToPlace(placeIsUnit, place, Call(Deref(fnPtr), FuncallArgs(abi, args, false))),
                               Goto(target.value)]))
         else r == Panics)
      ensures calleeTy.OtherCalleeType? && !(inst.Some? && inst.value.kind.IntrinsicKind? && inst.value.intrinsicWithoutBody) ==>
        r == Panics
    {
      if inst.Some? && inst.value.kind.IntrinsicKind? && inst.value.intrinsicWithoutBody {
        return ToIntrinsic;
      }
      match calleeTy {
        case FnDefType(isRustCall) =>
          r := CodegenFnDefCall(inst.value, isRustCall, abi, args, placeIsUnit, place, target, v, foreignCall);
        case FnPtrType =>
          if target.None? {
            return Panics;
          }
          var fargs := FuncallArgs(abi, args, false);
          return Lowered(Block([ExprToPlace(placeIsUnit, place, Call(Deref(fnPtr), fargs)), Goto(target.value)]));
        case OtherCalleeType =>
          return Panics;
      }
    }
    /** The arm of `CodegenFuncall` for a callee known at compile time. */
    static method CodegenFnDefCall(instance: Instance, isRustCall: bool, abi: seq<PassMode>, args: seq<CallArg>,
                                   placeIsUnit: bool, place: PlaceResult, target: Option<nat>,
                                   v: VirtualInfo, foreignCall: (Expr, seq<Expr>) -> Stmt)
      returns (r: CallLowering)
      requires !(instance.kind.IntrinsicKind? && instance.intrinsicWithoutBody)
      requires isRustCall && |args| > 0 ==> |args| - 1 + args[|args| - 1].tupleArity <= |abi|
      ensures r.ToHook? <==> instance.hookApplies
      ensures r.ToHook? ==> r.fargs == FnDefArgs(instance, isRustCall, abi, args)
      ensures !r.ToIntrinsic?
      ensures (!instance.hookApplies && instance.kind.ShimKind? && instance.isEmptyShim) ==>
        (if target.Some? then r == Lowered(Goto(target.value)) else r == Panics)
      ensures (!instance.hookApplies && !(instance.kind.ShimKind? && instance.isEmptyShim) && !instance.kind.Virtual?) ==>
        r == Lowered(Block([DirectCall(instance, FnDefArgs(instance, isRustCall, abi, args), placeIsUnit, place, foreignCall),
                            CodegenEndCall(target)]))
      ensures r.Lowered? && !(instance.kind.ShimKind? && instance.isEmptyShim) ==>
        r.stmt.Block? && |r.stmt.stmts| > 0 && r.stmt.stmts[|r.stmt.stmts| - 1] == CodegenEndCall(target)
    {
      var fargs := FnDefArgs(instance, isRustCall, abi, args);
      if instance.hookApplies {
        return ToHook(fargs);
      }
      var stmts: seq<Stmt>;
      match instance.kind {
        case ShimKind =>
          if instance.isEmptyShim {
            if target.None? {
              return Panics;
            }
            return Lowered(Goto(target.value));
          }
          stmts := [DirectCall(instance, fargs, placeIsUnit, place, foreignCall)];
        case Virtual(_) =>
          if |fargs| == 0 {
            return Panics;
          }
          var a := new Expr[|fargs|](i requires 0 <= i < |fargs| => fargs[i]);
          stmts := CodegenVirtualFuncall(v, placeIsUnit, place, a);
        case Item =>
          stmts := [DirectCall(instance, fargs, placeIsUnit, place, foreignCall)];
        case IntrinsicKind =>
          stmts := [DirectCall(instance, fargs, placeIsUnit, place, foreignCall)];
      }
      assert !instance.kind.Virtual? ==>
        stmts + [CodegenEndCall(target)] == [DirectCall(instance, fargs, placeIsUnit, place, foreignCall), CodegenEndCall(target)];
      return Lowered(Block(stmts + [CodegenEndCall(target)]));
    }
  }

  /** A non-virtual call: foreign items through `foreignCall`, anything else stored into the destination. */
  function DirectCall(instance: Instance, fargs: seq<Expr>, placeIsUnit: bool, place: PlaceResult,
                      foreignCall: (Expr, seq<Expr>) -> Stmt): Stmt
  {
    if instance.isForeign then foreignCall(instance.funcExpr, fargs)
    else ExprToPlace(placeIsUnit, place, Call(instance.funcExpr, fargs))
  }
}
