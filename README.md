# A Dafny model of the decision procedures in Kani's compiler and cargo driver

Kani is a model checker for Rust. Its compiler translates a crate's MIR into CBMC goto programs, and its driver runs cargo to build the crates being verified. This project models, in Dafny, the parts of those two programs that decide *what* gets generated. It proves properties of those decisions.

The modules follow the source files:

- `FunctionCodegen` (`function_codegen.dfy`), from `codegen/function.rs`: declaring and defining function symbols in the append-only symbol table; declaring the MIR locals; re-tupling a spread closure argument; merging coverage regions; parsing coverage counters.
- `StatementCodegen` (`statement_codegen.dfy`), from `codegen/statement.rs`: statement and terminator lowering: switch lowering by arity, discriminant writes with niche arithmetic, the `dead_object` sentinel, argument filtering by pass mode, drops and calls.
- `OperandCodegen` (`operand_codegen.dfy`), from `codegen/operand.rs`: constant lowering; how an allocation is cut into byte runs and pointer fields; the content-keyed allocation cache.
- `CheckValues`, `ValidValuePass`, from `transform/check_values.rs`: wrapping validity ranges; the per-offset requirements of a type; assignment check points; the emitted range check; the pass that inserts the checks.
- `TyLayout` (`ty_layout.dfy`), from `check_uninit/ty_layout.rs`: data/padding byte masks and the layout comparisons.
- `CheckUninit` (`check_uninit.dfy`), from `check_uninit/mod.rs`: the uninitialised-memory instrumenter: which model function, safety check or unsupported check each operation gets.
- `CodegenUnits` (`codegen_units.dfy`), from `kani_middle/codegen_units.rs`: stub transitivity with cycle detection; grouping harnesses into units; harness filters; metadata updates.
- `Resolve` (`resolve.dfy`), from `kani_middle/resolve.rs`: resolving attribute path strings: prefixes, `super`, glob imports, inherent impls, traits and primitives.
- `Intrinsics` (`intrinsics.dfy`), from `intrinsics.rs`: classifying intrinsics by name, with the ordered fallback chain and the signature check.
- `CallCargo` (`call_cargo.dfy`), from `kani-driver/src/call_cargo.rs`: which targets and packages are verified; target equality; cargo arguments; which artifact a build produced.

Shared definitions live in `wrappers.dfy` (`Option`, `Result`), `strings.dfy` (decimal digits, substrings, `::` paths) and `goto.dfy`. The last is a small abstract syntax of the goto statements and expressions the lowering emits.

The form of each module follows the source:

- Functions that only compute become Dafny functions, with lemmas about them.
- Code that updates state becomes classes, with `modifies` and `reads` frames:
  - the code generator's symbol table (`FunctionCodegen.GotocCtx`);
  - the allocation cache (`OperandCodegen.AllocCache`);
  - the body being instrumented (`CheckUninit.MutableBody`);
  - the harness registry (`CodegenUnits.CodegenUnits`).
- Loops become methods proved against a specification function. The `ensures` of such a method ties it to that function, and the properties are proved about the function. Examples:
  - `ResolveInGlobUses` against `GlobSearch`;
  - `AllocationData` against `SlotAt`;
  - `PackageTargets` against `TargetsScan`.

Everything the source obtains from rustc, CBMC or cargo is an input to the model: layouts, types, ABIs, instances, definition paths, crate metadata, and the result of `cargo pkgid`. A source panic that the code takes on its own data is an error value in the model, such as `SourcePanic`, `Panics`, `LoweredEarlier` or `SignatureMismatch`. A condition the source leaves to its callers is a `requires`.

## Model

The table lists every member whose contract states something about the source. A specification function that carries no contract of its own is described by the rows of the lemmas and methods about it:

- `TyLayout.FromTy` (`from_ty`): `TyLayout.FromTyFacts`, `TyLayout.UnionFieldMasks`, `TyLayout.UnionFieldMaskSizes`, and the `CheckUninit` check, set and copy rows.
- `TyLayout.Chunks` (`data_bytes_for_ty` over a chosen window): `TyLayout.DataBytesForTy`, `TyLayout.ChunksKnownErrors`, `TyLayout.ArrayChunks`, `TyLayout.PointerChunks`, `TyLayout.TaggedEnumFitsEveryVariant` and `TyLayout.TaggedEnumAtOffsetAsWritten`.
- `CheckValues.Validity` (`ty_validity_per_offset`): `CheckValues.TyValidityPerOffset` and `CheckValues.ValidityNoneFull`. `CheckValues.CheckPointsAfter` (`assignment_check_points`): `CheckValues.AssignmentCheckPoints` and the three `CheckValues.CheckPoints*` lemmas. `CheckValues.BuildLimits`: `CheckValues.BuildLimitsExact`.
- `StatementCodegen.CodegenStorageLive` and `StatementCodegen.CodegenStorageDead`: `StatementCodegen.StorageLiveEffect`, `StatementCodegen.StorageDeadEffect`, `StatementCodegen.LiveLocalIsNotDead` and `StatementCodegen.DeadLocalCanBeTracked`.
- `FunctionCodegen.FunctionPrelude` (`codegen_function_prelude`): `FunctionCodegen.SpreadFields` and `FunctionCodegen.GotocCtx.CodegenFunction`.
- `CodegenUnits.Walk` (the inner loop of `apply_transitivity`): `CodegenUnits.WalkCycleIff`, `CodegenUnits.WalkEndsUnstubbed`, `CodegenUnits.CycleIsReal` and `CodegenUnits.FollowStubs`.
- `Resolve.GlobSearch` (`resolve_in_glob_uses`): `Resolve.GlobSearchFacts`, `Resolve.GlobSearchLeast`, `Resolve.GlobSearchVisitsWork` and `Resolve.ResolveInGlobUsesSpec`. `Resolve.ResolveInTypeDef`: `Resolve.ResolveInTypeDefCases`. `Resolve.ResolvePrefix`: `Resolve.ResolvePrefixLocalFirst` and `Resolve.SelfSuperClimbsLikeSuper`. `Resolve.ResolvePath` (the prefix, then the fold over the segments): those two and `Resolve.ResolveSegmentsAppend`. `Resolve.ResolveFnPath`: `Resolve.ResolveFnPathIsFunction` and `Resolve.ResolveFn`.
- `Intrinsics.FromInstance` and `Intrinsics.MainArm`: `Intrinsics.UnknownIsUnimplemented`, `Intrinsics.FallbackFirstMatchWins`, `Intrinsics.ShuffleSpec`, the `Intrinsics.Lowered*` lemmas and the per-intrinsic rows.
- `CallCargo.SameTarget`, `CallCargo.ToArgs` and `CallCargo.Describe`: `CallCargo.SameTargetIsEquivalence`, `CallCargo.SameTargetAcrossSpellings`, `CallCargo.ToArgsSelects` and `CallCargo.DescribeInjective`. `CallCargo.MapKaniArtifact` and `CallCargo.MetadataPath`: `CallCargo.RmetaMapsToMetadata`, `CallCargo.RlibNeverMaps` and `CallCargo.CustomBuildIgnored`. `CallCargo.PickArtifact`: `CallCargo.PickArtifactIsLast`. `CallCargo.ToPackageIds`: `CallCargo.ToPackageIdsSpec`. `CallCargo.PackagesToVerify`: `CallCargo.SelectedPackages`, `CallCargo.ExcludedPackages` and `CallCargo.UnfilteredPackages`. `CallCargo.BuildFrom` and `CallCargo.CargoBuild`: `CallCargo.BuildFromFacts`, `CallCargo.BuildFromErrorSticks`, `CallCargo.CargoBuildOutcome` and `CallCargo.BuildTargets`.

| member | source | states |
|---|---|---|
| FunctionCodegen.DeclareLocalsSpec | kani-compiler/src/codegen_cprover_gotoc/codegen/function.rs:24-48 | with distinct local names, every local other than the spread argument is in the symbol table under its own name, with a variable symbol that is hidden exactly when the user did not write it and a parameter exactly when it is an argument local that is not zero-sized; every other name keeps its old entry and no entry is dropped |
| FunctionCodegen.ParamNamesSpec | kani-compiler/src/codegen_cprover_gotoc/codegen/function.rs:50-54 | the parameter names recorded for a function are exactly the names of the argument locals 1..=N other than the spread argument, one per such local |
| FunctionCodegen.VarDeclsSpec | kani-compiler/src/codegen_cprover_gotoc/codegen/function.rs:56-61 | a declaration with the default initializer is pushed exactly for the return place and the locals above the arguments (never for the spread argument), and nothing else is pushed |
| FunctionCodegen.GotocCtx.DeclareVariables | kani-compiler/src/codegen_cprover_gotoc/codegen/function.rs:24-63 | the loop over locals leaves the symbol table, the parameter lists and the current block equal to the specification functions whose properties the three lemmas above state |
| FunctionCodegen.SpreadFields | kani-compiler/src/codegen_cprover_gotoc/codegen/function.rs:177-200 | field "i" of the re-tupled struct holds the untupled parameter named for local spread+i, for every element of the tuple |
| FunctionCodegen.GotocCtx.CodegenSpreadArg | kani-compiler/src/codegen_cprover_gotoc/codegen/function.rs:117-211 | a zero-sized spread tuple changes nothing; otherwise every element gets a variable symbol (a parameter unless zero-sized) and the spread local is declared, initialised with the struct of those parameters; parameter lists are untouched |
| FunctionCodegen.GotocCtx.DeclareVariable | kani-compiler/src/codegen_cprover_gotoc/codegen/function.rs:203-209 | a variable symbol that is not a parameter is inserted and its declaration is appended to the current block |
| FunctionCodegen.GotocCtx.DeclareFunction | kani-compiler/src/codegen_cprover_gotoc/codegen/function.rs:213-235 | a function symbol is inserted when the name is new, replaces the existing entry only when that entry's location is builtin, and otherwise leaves the table unchanged |
| FunctionCodegen.GotocCtx.CodegenFunction | kani-compiler/src/codegen_cprover_gotoc/codegen/function.rs:65-98 | a function already defined is left alone (nothing changes); otherwise its symbol gets the definition prelude + declarations + lowered blocks, its parameters are recorded, and the current block is left empty |
| FunctionCodegen.MinOf | kani-compiler/src/codegen_cprover_gotoc/codegen/function.rs:262 | the result is an element of the non-empty list and no element is smaller |
| FunctionCodegen.MaxOf | kani-compiler/src/codegen_cprover_gotoc/codegen/function.rs:269 | the result is an element of the non-empty list and no element is larger |
| FunctionCodegen.StartColsOn | kani-compiler/src/codegen_cprover_gotoc/codegen/function.rs:263-268 | the columns are exactly the start columns of the regions that start on the given line |
| FunctionCodegen.EndColsOn | kani-compiler/src/codegen_cprover_gotoc/codegen/function.rs:270-275 | the columns are exactly the end columns of the regions that end on the given line |
| FunctionCodegen.MergeSourceRegionAttained | kani-compiler/src/codegen_cprover_gotoc/codegen/function.rs:261-277 | the merged region starts exactly where some region starts and ends exactly where some region ends |
| FunctionCodegen.MergeSourceRegionCovers | kani-compiler/src/codegen_cprover_gotoc/codegen/function.rs:261-277 | no region starts before the merged region or ends after it (lines first, then columns on the same line) |
| FunctionCodegen.MatchingRegions | kani-compiler/src/codegen_cprover_gotoc/codegen/function.rs:294-303 | the collected regions are exactly the regions of the mappings of the requested counter that have a region |
| FunctionCodegen.RegionFromCoverage | kani-compiler/src/codegen_cprover_gotoc/codegen/function.rs:282-311 | no region is returned exactly when the body has no coverage information or no mapping of the counter has a region |
| FunctionCodegen.RegionFromCoverageCovers | kani-compiler/src/codegen_cprover_gotoc/codegen/function.rs:282-311 | for a counter that has a mapping, a region is returned and it covers that mapping's lines |
| FunctionCodegen.ParseCoverageOpaque | kani-compiler/src/codegen_cprover_gotoc/codegen/function.rs:314-325 | a counter is returned only for text starting with the counter prefix, and it is below 2^32 |
| FunctionCodegen.ParseCoverageOpaqueRoundTrip | kani-compiler/src/codegen_cprover_gotoc/codegen/function.rs:314-325 | parsing the printed form of counter n (n < 2^32), whatever follows the closing parenthesis, gives back n |
| StatementCodegen.SwitchCases | kani-compiler/src/codegen_cprover_gotoc/codegen/statement.rs:567-575 | one switch case per branch, in order, each comparing with the branch value and jumping to its block |
| StatementCodegen.CodegenSwitchInt | kani-compiler/src/codegen_cprover_gotoc/codegen/statement.rs:542-586 | one target: a jump to the fallback; two targets: a guarded jump followed by a jump to the fallback; more: a switch on the operand with one case per branch and the fallback as default |
| StatementCodegen.JumpOfCasesSpec | kani-compiler/src/codegen_cprover_gotoc/codegen/statement.rs:567-578 | the lowered switch cases jump to the block of the first branch holding the value, else to the fallback |
| StatementCodegen.SwitchIntJumpsToTarget | kani-compiler/src/codegen_cprover_gotoc/codegen/statement.rs:538-586 | whatever the number of targets, the lowered switch jumps to the block rustc's switch semantics choose for every value |
| StatementCodegen.NicheValue | kani-compiler/src/codegen_cprover_gotoc/codegen/statement.rs:428-430 | the niche tag is below 2^128 and congruent, modulo 2^128, to the niche start plus the variant's distance from the first niche variant |
| StatementCodegen.NicheRoundTrip | kani-compiler/src/codegen_cprover_gotoc/codegen/statement.rs:416-440 | reading back the tag written for a variant of the niche range (rustc's niche decoding) gives that variant |
| StatementCodegen.CodegenSetDiscriminant | kani-compiler/src/codegen_cprover_gotoc/codegen/statement.rs:379-445 | empty or single-variant layouts: skip; direct tags: the discriminant field gets the variant's discriminant cast to the tag type; the untagged niche variant: skip; other niche variants: the niche at field 0's offset gets the niche value, written as a null pointer exactly when it is 0 and the tag is a pointer; a niche layout without arbitrary fields is the unreachable case |
| StatementCodegen.StorageLiveEffect | kani-compiler/src/codegen_cprover_gotoc/codegen/statement.rs:171-188 | executing the lowered StorageLive leaves dead_object alone unless the local's address is taken, and then clears it exactly when it points to that local |
| StatementCodegen.StorageDeadEffect | kani-compiler/src/codegen_cprover_gotoc/codegen/statement.rs:189-205 | executing the lowered StorageDead leaves dead_object alone unless the local's address is taken, and then makes it point to that local or leaves it, as the nondeterministic choice says |
| StatementCodegen.LiveLocalIsNotDead | kani-compiler/src/codegen_cprover_gotoc/codegen/statement.rs:142-188 | after StorageLive of an address-taken local, dead_object never points to that local |
| StatementCodegen.DeadLocalCanBeTracked | kani-compiler/src/codegen_cprover_gotoc/codegen/statement.rs:142-205 | after StorageDead of an address-taken local, some nondeterministic choice makes dead_object point to it |
| StatementCodegen.AssignLowering | kani-compiler/src/codegen_cprover_gotoc/codegen/statement.rs:100-130 | zero-sized destination: skip; an unsupported place: its unimplemented statement; otherwise an assignment to the place of the address of a function item stored into a function pointer, else the value cast to C bool for a bool, else the value itself |
| StatementCodegen.StatementCtx.CodegenAssign | kani-compiler/src/codegen_cprover_gotoc/codegen/statement.rs:91-131 | assigning to a variable whose name contains "kani_loop_modifies" only records the assignment targets and is a skip; any other assignment is lowered as above and keeps the recorded targets |
| StatementCodegen.CodegenDeinit | kani-compiler/src/codegen_cprover_gotoc/codegen/statement.rs:451-466 | a zero-sized place or one of size 0 bits is skipped; any other place is deinitialised |
| StatementCodegen.ExprToPlace | kani-compiler/src/codegen_cprover_gotoc/codegen/statement.rs:908-924 | a unit destination only evaluates the expression; any other destination is assigned it |
| StatementCodegen.CoverageCounterData | kani-compiler/src/codegen_cprover_gotoc/codegen/statement.rs:231 | the counter text is the counter's debug form followed by " $", the function name and "$" |
| StatementCodegen.StatementCtx.CodegenStatement | kani-compiler/src/codegen_cprover_gotoc/codegen/statement.rs:86-253 | each statement kind lowers as the source's match arm says: an assignment to a `kani_loop_modifies` variable records its targets and is skipped, any other assignment is the assignment lowering; Deinit is the deinit lowering; SetDiscriminant is the unlowerable place or the discriminant write; storage markers are the sentinel updates; CopyNonOverlapping is its copy; assume carries its fixed message; coverage is a coverage block or a skip; no-op is a skip; PlaceMention is the source's todo; only assignments change the recorded loop-modifies targets |
| StatementCodegen.AssertMessage | kani-compiler/src/codegen_cprover_gotoc/codegen/statement.rs:320-350 | invalid enum construction, misaligned and null pointer dereference are safety checks and every other kind an assertion; apart from the first three kinds the message is rustc's own description |
| StatementCodegen.CodegenReturn | kani-compiler/src/codegen_cprover_gotoc/codegen/statement.rs:284-302 | a unit function returns the global void variable; otherwise the return place is returned, cast to C bool for bool |
| StatementCodegen.CodegenDrop | kani-compiler/src/codegen_cprover_gotoc/codegen/statement.rs:483-536 | a drop is the drop call followed by a jump to the target: a skip for an empty shim; an instance that is not a shim is the unreachable case |
| StatementCodegen.CodegenTerminator | kani-compiler/src/codegen_cprover_gotoc/codegen/statement.rs:260-375 | goto, switch, resume/abort (issue 692), unreachable and inline assembly lower as the source's arms say; an assertion becomes the reachability check, the assertion of the (possibly negated) condition with the static message and property class, and the jump to the target |
| StatementCodegen.FuncallArgsLength | kani-compiler/src/codegen_cprover_gotoc/codegen/statement.rs:630-678 | one goto argument per kept operand |
| StatementCodegen.FuncallArgsComplete | kani-compiler/src/codegen_cprover_gotoc/codegen/statement.rs:630-678 | every operand that is a bool (cast to C bool), in the quantifier variant a closure, or has no ignored ABI entry is passed |
| StatementCodegen.FuncallArgsSound | kani-compiler/src/codegen_cprover_gotoc/codegen/statement.rs:630-678 | every goto argument is the lowering of a kept operand |
| StatementCodegen.QuantifierArgsKeepMore | kani-compiler/src/codegen_cprover_gotoc/codegen/statement.rs:627-678 | the quantifier variant passes every argument the plain lowering passes, and exactly the same ones when no argument is a closure |
| StatementCodegen.UntupledArgs | kani-compiler/src/codegen_cprover_gotoc/codegen/statement.rs:600-615 | the untupled arguments are exactly member "i" of the tuple for each tuple index whose ABI entry is not ignored |
| StatementCodegen.CodegenEndCall | kani-compiler/src/codegen_cprover_gotoc/codegen/statement.rs:619-625 | a call with a target jumps to it; one without fails the sanity check "Unexpected return from Never function" |
| StatementCodegen.CallCodegen.CodegenVirtualFuncall | kani-compiler/src/codegen_cprover_gotoc/codegen/statement.rs:834-902 | the receiver argument is replaced in place by its data pointer (through a declared temporary for an ADT receiver) and the other arguments are unchanged; the last two statements are the non-null sanity check of the vtable slot and the call through it, restricted when restrictions are emitted |
| StatementCodegen.CallCodegen.CodegenFuncall | kani-compiler/src/codegen_cprover_gotoc/codegen/statement.rs:692-804 | intrinsics without a usable body go to the intrinsic code; a hook that applies takes the call with its arguments; an empty shim jumps to the target; a direct or foreign call is followed by the end of call; a call through a pointer is followed by a jump to the target; a missing target and an unexpected callee type are the source's panics |
| StatementCodegen.CallCodegen.CodegenFnDefCall | kani-compiler/src/codegen_cprover_gotoc/codegen/statement.rs:724-782 | for a callee known at compile time, a hook is used exactly when one applies, and every lowered call other than an empty shim ends with the end-of-call statement |
| OperandCodegen.WrapUnsigned | kani-compiler/src/codegen_cprover_gotoc/codegen/operand.rs:166-176 | an `as uN` cast yields a value below 2^N that equals the input whenever the input already fits |
| OperandCodegen.WrapSigned | kani-compiler/src/codegen_cprover_gotoc/codegen/operand.rs:155-165 | an `as iN` cast yields a value in the two's-complement range of N bits that equals the input whenever the input already fits |
| OperandCodegen.IntConstant | kani-compiler/src/codegen_cprover_gotoc/codegen/operand.rs:155-165 | a signed integer constant is an integer literal; an i8 is the read value wrapped to 8 bits with an 8-bit signed type, and an i32 lies in the 32-bit signed range |
| OperandCodegen.UintConstant | kani-compiler/src/codegen_cprover_gotoc/codegen/operand.rs:166-176 | an unsigned integer constant is an integer literal; a u8 is the read value wrapped to 8 bits with an 8-bit unsigned type, and a u32 lies below 2^32 |
| OperandCodegen.IntConstantWraps | kani-compiler/src/codegen_cprover_gotoc/codegen/operand.rs:155-165 | for i8, i16, i32 and i64 the constant has the declared signed width, lies in that width's range, is congruent to the read value modulo 2^N and equals it when it fits |
| OperandCodegen.LeValueBound | kani-compiler/src/codegen_cprover_gotoc/codegen/operand.rs:156-167 | a fully initialised little-endian scalar of n bytes is below 256^n |
| OperandCodegen.SlotAt | kani-compiler/src/codegen_cprover_gotoc/codegen/operand.rs:600-631 | the provenance slot found for a byte is one whose pointer-sized range contains it, and none is found only when no slot's range contains it |
| OperandCodegen.SlotAtUnique | kani-compiler/src/codegen_cprover_gotoc/codegen/operand.rs:600-631 | with sorted, non-overlapping provenance slots, the slot covering a byte is the unique one whose range holds it |
| OperandCodegen.SlotAtFirst | kani-compiler/src/codegen_cprover_gotoc/codegen/operand.rs:600-631 | the slot found for a byte is the first slot whose range holds it |
| OperandCodegen.NoSlot | kani-compiler/src/codegen_cprover_gotoc/codegen/operand.rs:600-631 | a byte outside every slot's range has no slot |
| OperandCodegen.GapHasNoSlot | kani-compiler/src/codegen_cprover_gotoc/codegen/operand.rs:610-613 | the bytes between the end of one slot and the start of the next belong to no slot, so they become a plain byte run |
| OperandCodegen.TailHasNoSlot | kani-compiler/src/codegen_cprover_gotoc/codegen/operand.rs:624-628 | the bytes after the last slot belong to no slot, so the trailing run holds only plain bytes |
| OperandCodegen.ExpandSnoc | kani-compiler/src/codegen_cprover_gotoc/codegen/operand.rs:600-631 | appending a field to a global's initialiser appends that field's byte positions to the positions the initialiser covers |
| OperandCodegen.AppendRun | kani-compiler/src/codegen_cprover_gotoc/codegen/operand.rs:610-613 | appending the run of bytes of a slot-free gap extends the prefix of the allocation the fields reproduce up to the end of the gap |
| OperandCodegen.AppendPtr | kani-compiler/src/codegen_cprover_gotoc/codegen/operand.rs:614-622 | appending the pointer of a slot that starts where the fields end extends the reproduced prefix by exactly one pointer width, each covered byte being a byte of that pointer |
| OperandCodegen.AllocationData | kani-compiler/src/codegen_cprover_gotoc/codegen/operand.rs:600-631 | for sorted, non-overlapping provenance, the fields cover the allocation byte for byte, each byte being either the allocation's own byte or the matching byte of the pointer stored at its slot; the last field is always a byte run, possibly empty, and there are at most two fields per slot plus one |
| OperandCodegen.AppendSlot | kani-compiler/src/codegen_cprover_gotoc/codegen/operand.rs:609-623 | one iteration adds the byte run before slot j only when it is non-empty, then the slot's pointer; afterwards the fields reproduce the allocation up to the slot's end |
| OperandCodegen.AppendTail | kani-compiler/src/codegen_cprover_gotoc/codegen/operand.rs:624-628 | the trailing byte run, even an empty one, is appended, and afterwards the fields reproduce the whole allocation |
| OperandCodegen.TwoDataFields | kani-compiler/src/codegen_cprover_gotoc/codegen/operand.rs:218-221 | two distinct fields that are not zero-sized make the count of data fields at least two, so the struct fast path does not apply |
| OperandCodegen.OneDataField | kani-compiler/src/codegen_cprover_gotoc/codegen/operand.rs:218-221 | a field that is not zero-sized makes the count of data fields at least one |
| OperandCodegen.OnlyDataField | kani-compiler/src/codegen_cprover_gotoc/codegen/operand.rs:221-245 | when exactly one field is not zero-sized, any two fields that are not zero-sized are the same field |
| OperandCodegen.FnItemName | kani-compiler/src/codegen_cprover_gotoc/codegen/operand.rs:690-697 | a function item's singleton global is named by the mangled name followed by "::FnDefSingleton" |
| OperandCodegen.FnItemNameInjective | kani-compiler/src/codegen_cprover_gotoc/codegen/operand.rs:690-697 | distinct functions have distinct singleton globals |
| OperandCodegen.FuncSymbol | kani-compiler/src/codegen_cprover_gotoc/codegen/operand.rs:661-673 | a foreign function without a body resolves to its foreign symbol; any other function resolves exactly when it has been declared, to its own mangled name, and is otherwise the source's fatal error |
| OperandCodegen.RawBytes | kani-compiler/src/codegen_cprover_gotoc/codegen/operand.rs:271-309 | a buffer's bytes are available exactly when all of them are initialised, and they are then the same bytes in the same order |
| OperandCodegen.AllocCache.constructor | kani-compiler/src/codegen_cprover_gotoc/codegen/operand.rs:484-508 | a new registry has an empty allocation cache, no globals and no string literals |
| OperandCodegen.AllocCache.EnsureGlobal | kani-compiler/src/codegen_cprover_gotoc/codegen/operand.rs:583-590 | a global is created with the given initialiser only when its name is absent; an existing global and the cache are left unchanged |
| OperandCodegen.AllocCache.NextGlobalName | kani-compiler/src/codegen_cprover_gotoc/codegen/operand.rs:484-508 | a fresh global name comes from the counter, which then advances by one, and nothing else changes |
| OperandCodegen.AllocCache.ConstAllocation | kani-compiler/src/codegen_cprover_gotoc/codegen/operand.rs:484-508 | an allocation already in the cache yields the address of its cached global and changes nothing; a miss materialises it under the requested name (or a fresh one) and records allocation to name; cache entries and globals are never dropped or renamed |
| OperandCodegen.AllocCache.AllocInMemory | kani-compiler/src/codegen_cprover_gotoc/codegen/operand.rs:527-593 | on success the provenance offsets are well placed, the global exists and the cache maps the allocation to its name; other cache entries and existing globals are unchanged; when no global of that name existed, the new one is constant exactly when the allocation is immutable without interior mutability, and its initialiser is a struct whose fields reproduce the allocation byte for byte, with each provenance slot replaced by the lowered pointer |
| OperandCodegen.AllocCache.AllocPointer | kani-compiler/src/codegen_cprover_gotoc/codegen/operand.rs:370-427 | a pointer constant is a base address plus the byte offset, cast to the pointer type; a function allocation's base is the function's address; an unknown or TypeId allocation is the source's panic; existing cache entries and globals are kept |
| OperandCodegen.AllocCache.ConstPtr | kani-compiler/src/codegen_cprover_gotoc/codegen/operand.rs:263-366 | a fat str or slice pointer needs exactly one provenance entry (otherwise the source's panic), points at that entry's buffer and carries the length in bytes for str and in elements for a slice; a C string pointer is unsupported; a thin pointer without provenance is the raw address cast to the pointer type, and with provenance it points into its target |
| OperandCodegen.AllocCache.TryConstant | kani-compiler/src/codegen_cprover_gotoc/codegen/operand.rs:152-261 | the fast path declines exactly the types that cannot be written directly; integers are the read value truncated to the declared width, an uninitialised scalar is the source's panic, a char is a signed 32-bit constant, a struct is built around its only data field and a 1-tuple around its element |
| OperandCodegen.AllocCache.StructConstant | kani-compiler/src/codegen_cprover_gotoc/codegen/operand.rs:205-250 | a struct other than TypeId is built directly only when exactly one field is not zero-sized and that field can itself be built; zero-sized fields become unit values |
| OperandCodegen.AllocCache.CodegenAllocation | kani-compiler/src/codegen_cprover_gotoc/codegen/operand.rs:130-142 | a constant the fast path declines is read through a byte pointer to its materialised global, cast to a pointer to the constant's type; cache entries are never dropped |
| OperandCodegen.AllocCache.CodegenConst | kani-compiler/src/codegen_cprover_gotoc/codegen/operand.rs:62-128 | an allocated constant goes through the allocation lowering, a zero-sized function item is its singleton global (and fails exactly when its function is undeclared), any other zero-sized constant is its type's unit value, and a constant that is not monomorphic is the source's panic |
| OperandCodegen.AllocCache.CodegenFnItem | kani-compiler/src/codegen_cprover_gotoc/codegen/operand.rs:690-697 | a function item lowers to its function's singleton global, which then exists, exactly when the function symbol resolves; the cache is unchanged |
| OperandCodegen.AllocCache.SameAllocationSameGlobal | kani-compiler/src/codegen_cprover_gotoc/codegen/operand.rs:491-507 | materialising the same allocation twice yields the same global |
| CheckValues.IsFullIffAll | kani-compiler/src/kani_middle/transform/check_values.rs:223-229 | a range is full exactly when every value of its width lies in it |
| CheckValues.RangeContainsSound | kani-compiler/src/kani_middle/transform/check_values.rs:267-273 | when `range_contains(r1, r2)` holds, every value of the width in r2 is in r1 |
| CheckValues.RangeContainsExact | kani-compiler/src/kani_middle/transform/check_values.rs:267-273 | for two ranges that do not wrap, containment of their values implies that `range_contains` holds |
| CheckValues.ReqIsFullAcceptsAll | kani-compiler/src/kani_middle/transform/check_values.rs:223-229 | a requirement reported full accepts every value of its width (a Multiple requirement is never full) |
| CheckValues.ContainsSound | kani-compiler/src/kani_middle/transform/check_values.rs:234-261 | for requirements of equal size, `contains` is sound in every Single/Multiple combination: every value the contained requirement accepts, the containing one accepts |
| CheckValues.CharReqIsScalarValues | kani-compiler/src/kani_middle/transform/check_values.rs:194-202 | the `char` requirement accepts exactly the Unicode scalar values (0 to 0xD7FF and 0xE000 to 0x10FFFF) and is not full |
| CheckValues.TryFromTy | kani-compiler/src/kani_middle/transform/check_values.rs:193-221 | a `char` gets the `char` requirement; any other type has a requirement exactly when its ABI starts with an initialised scalar; requirements start at offset 0 |
| CheckValues.TyReq | kani-compiler/src/kani_middle/transform/check_values.rs:916-925 | the result is non-empty exactly when the type has its own requirement and it is not full; it then holds that requirement's size and range, moved to the current offset |
| CheckValues.RepeatNoneFull | kani-compiler/src/kani_middle/transform/check_values.rs:928-948 | repeating an element's requirements over the array adds no full requirement |
| CheckValues.RepeatLength | kani-compiler/src/kani_middle/transform/check_values.rs:928-948 | an array of count elements has count times the element's requirements |
| CheckValues.RepeatAt | kani-compiler/src/kani_middle/transform/check_values.rs:928-948 | the j-th requirement of element idx is the element's j-th requirement shifted by idx times the stride |
| CheckValues.ValidityNoneFull | kani-compiler/src/kani_middle/transform/check_values.rs:910-1072 | no requirement `ty_validity_per_offset` returns is full |
| CheckValues.FieldsNoneFull | kani-compiler/src/kani_middle/transform/check_values.rs:1006-1019 | no requirement collected from a list of fields is full |
| CheckValues.FieldsErrPropagates | kani-compiler/src/kani_middle/transform/check_values.rs:1010-1019 | the first field that fails makes the whole field walk fail with its error |
| CheckValues.VariantsErrPropagates | kani-compiler/src/kani_middle/transform/check_values.rs:982-993 | in the corrected walk over each variant's own field offsets, the first variant field that fails makes the whole variant walk fail with its error |
| CheckValues.TaggedFieldsAsWritten | kani-compiler/src/kani_middle/transform/check_values.rs:947-993 | as written, a tagged enum's field offset is read from the enum's own offsets: the walk cannot panic when every field index is within them, and panics when the first field's index is past them |
| CheckValues.TaggedEnumPanicsAsWritten | kani-compiler/src/kani_middle/transform/check_values.rs:979-1001 | for `enum E { A(u8, u8), B }` the as-written arm panics, and the corrected walk keeps only the tag's requirement |
| CheckValues.FieldsValidityEmpty | kani-compiler/src/kani_middle/transform/check_values.rs:984-992 | a variant's fields contribute nothing exactly when each field has no requirement at its own offset |
| CheckValues.VariantsValidityEmpty | kani-compiler/src/kani_middle/transform/check_values.rs:982-993 | the variants contribute nothing exactly when no field of any variant has a requirement |
| CheckValues.TaggedEnumValidity | kani-compiler/src/kani_middle/transform/check_values.rs:979-1001 | with the corrected offsets, a tagged enum is accepted exactly when no field of any variant has a requirement, and then carries only the tag's own requirement |
| CheckValues.TyValidityPerOffset | kani-compiler/src/kani_middle/transform/check_values.rs:910-1072 | the recursive walk returns exactly the specification: primitives and pointers carry their own requirement, non-empty arrays repeat the element's, structs add their fields' in memory order, pattern types add their base's at offset 0, niche enums, tagged enums with field requirements (walked at each variant's own field offsets, the corrected half of a finding) and unsupported types fail, unions and empty arrays impose nothing |
| CheckValues.FieldsValidityPerOffset | kani-compiler/src/kani_middle/transform/check_values.rs:1010-1019 | the loop over a struct's fields returns the concatenation of each field's requirements at its offset, or the first failure |
| CheckValues.AssignmentCheckPoints | kani-compiler/src/kani_middle/transform/check_values.rs:744-788 | with no requirement on the assigned value nothing is checked; otherwise the loop over projections collects exactly the specification's requirements |
| CheckValues.CheckPointsNeeded | kani-compiler/src/kani_middle/transform/check_values.rs:756-768 | every requirement kept is not full, is as wide as the assigned value, sits at offset 0 and does not contain the value's range |
| CheckValues.CheckPointsResetByOtherField | kani-compiler/src/kani_middle/transform/check_values.rs:769-773 | a projection through a field that is not the restricted first field discards the requirements collected so far |
| CheckValues.CheckPointsNeedField | kani-compiler/src/kani_middle/transform/check_values.rs:776-782 | a place without field projections needs no check |
| CheckValues.UintTyOf | kani-compiler/src/kani_middle/transform/check_values.rs:148-157 | sizes of 1, 2, 4, 8 and 16 bytes map to the unsigned type of that width, and every other size is the source's unreachable case |
| CheckValues.BuildLimitsExact | kani-compiler/src/kani_middle/transform/check_values.rs:805-905 | the emitted check reads the value at the requirement's offset with the requirement's width and holds exactly for the values the requirement accepts: start <= v <= end for a range that does not wrap, v >= start or v <= end for one that wraps, and either range for Multiple |
| ValidValuePass.FirstUnsafeFromSpec | kani-compiler/src/kani_middle/transform/check_values.rs:352-369 | the search finds the first unsafe instruction at or after the start, and finds none exactly when none is left |
| ValidValuePass.Instrument | kani-compiler/src/kani_middle/transform/check_values.rs:83-126 | inserting an instruction's checks adds one block per check: the first check ends the block, each later one ends a new block, and the instruction with the rest of the block lands in the last new block; the blocks before and after are unchanged |
| ValidValuePass.InstrumentChecks | kani-compiler/src/kani_middle/transform/check_values.rs:83-126 | instrumenting an instruction adds exactly the checks it needs, one per range and one per unsupported operation |
| ValidValuePass.InstrumentPending | kani-compiler/src/kani_middle/transform/check_values.rs:83-126 | after instrumenting, the checks the instruction needed are no longer pending, and nothing else changes in what is pending |
| ValidValuePass.Visit | kani-compiler/src/kani_middle/transform/check_values.rs:69-75 | visiting a block never removes blocks |
| ValidValuePass.VisitProgress | kani-compiler/src/kani_middle/transform/check_values.rs:69-126 | a visit that finds an instruction adds the at least one check it needs and as many blocks, and leaves that many fewer checks pending; a visit that finds nothing changes nothing |
| ValidValuePass.VisitFinds | kani-compiler/src/kani_middle/transform/check_values.rs:69-126 | visiting a block where an instruction is found adds its checks and as many blocks, and removes them from what is pending |
| ValidValuePass.VisitFindsNothing | kani-compiler/src/kani_middle/transform/check_values.rs:69-75 | visiting a block with nothing left to check changes nothing and leaves what is pending as it was |
| ValidValuePass.PassIntendedCounts | kani-compiler/src/kani_middle/transform/check_values.rs:65-126 | the walk that also visits the blocks splits create adds exactly as many checks and as many blocks as the unchecked unsafe instructions need |
| ValidValuePass.Transform | kani-compiler/src/kani_middle/transform/check_values.rs:65-78 | with the intended walk, every unsafe instruction of the body gets all its checks, the body grows by one block per check, and it is reported changed exactly when its block count grew, which is exactly when it had an unsafe instruction |
| ValidValuePass.TransformAsWritten | kani-compiler/src/kani_middle/transform/check_values.rs:65-78 | with the block range fixed before the first split, the result is the as-written walk, reported changed exactly when the block count grew |
| ValidValuePass.AsWrittenMissesSecondCheck | kani-compiler/src/kani_middle/transform/check_values.rs:69-75 | for one block with two unsafe instructions, the walk as written inserts one check and the intended walk inserts two |
| TyLayout.GenerateByteMask | kani-compiler/src/kani_middle/transform/check_uninit/ty_layout.rs:29-39 | the mask has exactly n entries and byte i is marked data exactly when some chunk starts at or before i and ends after it; chunks reaching past n are clipped |
| TyLayout.ByteMaskAppend | kani-compiler/src/kani_middle/transform/check_uninit/ty_layout.rs:29-39 | the mask of two chunk lists together marks a byte exactly when the mask of either list marks it |
| TyLayout.DataBytesForTy | kani-compiler/src/kani_middle/transform/check_uninit/ty_layout.rs:178-409 | the recursive walk returns exactly the chunk specification, with variant masks compared from byte 0 of the whole object as the source does |
| TyLayout.FieldsDataBytes | kani-compiler/src/kani_middle/transform/check_uninit/ty_layout.rs:222-236 | the loop over fields in memory order returns the concatenation of the fields' chunks at their offsets, or the first failure |
| TyLayout.FieldChunksErr | kani-compiler/src/kani_middle/transform/check_uninit/ty_layout.rs:222-236 | the first field whose chunks fail makes the whole field walk fail with its error |
| TyLayout.VariantChunksErr | kani-compiler/src/kani_middle/transform/check_uninit/ty_layout.rs:257-279 | the first variant whose chunks fail makes the whole variant walk fail with its error |
| TyLayout.ChunksKnownErrors | kani-compiler/src/kani_middle/transform/check_uninit/ty_layout.rs:178-409 | the chunk computation never reports an unknown unsized layout; that error belongs only to the pointee computation |
| TyLayout.FieldsKnownErrors | kani-compiler/src/kani_middle/transform/check_uninit/ty_layout.rs:222-236 | the fields' chunk computation never reports an unknown unsized layout |
| TyLayout.VariantsKnownErrors | kani-compiler/src/kani_middle/transform/check_uninit/ty_layout.rs:257-279 | the variants' chunk computation never reports an unknown unsized layout |
| TyLayout.RepeatLength | kani-compiler/src/kani_middle/transform/check_uninit/ty_layout.rs:192-212 | an array of count elements has count times the element's chunks |
| TyLayout.RepeatAt | kani-compiler/src/kani_middle/transform/check_uninit/ty_layout.rs:192-212 | chunk j of copy idx is the element's chunk j moved by idx times the stride |
| TyLayout.ArrayChunks | kani-compiler/src/kani_middle/transform/check_uninit/ty_layout.rs:192-212 | an empty array has no chunks; otherwise the array has count copies of its element's chunks, copy idx moved by idx times the stride |
| TyLayout.PointerChunks | kani-compiler/src/kani_middle/transform/check_uninit/ty_layout.rs:366-393 | a thin pointer is one chunk of the pointer's size at the current offset; a fat pointer is its two scalars at their field offsets |
| TyLayout.VariantChunksLength | kani-compiler/src/kani_middle/transform/check_uninit/ty_layout.rs:257-279 | the variant walk gives one chunk list per variant |
| TyLayout.TaggedEnumFitsEveryVariant | kani-compiler/src/kani_middle/transform/check_uninit/ty_layout.rs:237-316 | with the masks compared over the enum's own bytes, an accepted tagged enum starts with its tag chunk and the field chunks kept have, within the enum, exactly the data/padding pattern of every variant |
| TyLayout.TaggedEnumAtOffsetAsWritten | kani-compiler/src/kani_middle/transform/check_uninit/ty_layout.rs:285-300 | a two-variant enum whose variants pad differently is rejected at offset 0, yet inside the tuple (u32, enum) the walk as written accepts it and marks bytes that the second variant uses as padding; with the masks compared over the enum's own bytes, the tuple is rejected too |
| TyLayout.MaxLen | kani-compiler/src/kani_middle/transform/check_uninit/ty_layout.rs:56-66 | the largest mask length is at least each mask's length and is the length of one of them |
| TyLayout.MaybeSize | kani-compiler/src/kani_middle/transform/check_uninit/ty_layout.rs:56-66 | a sized layout gives its mask's length, a slice its element mask's length, a union the largest field mask's length, and only a trait object gives none |
| TyLayout.UnionFieldMasks | kani-compiler/src/kani_middle/transform/check_uninit/ty_layout.rs:110-126 | a union has one mask per field, and the first field whose chunks fail decides the error, which is never an unknown unsized layout |
| TyLayout.UnionFieldMaskSizes | kani-compiler/src/kani_middle/transform/check_uninit/ty_layout.rs:110-126 | each union field's mask is as long as that field's size |
| TyLayout.FromTyFacts | kani-compiler/src/kani_middle/transform/check_uninit/ty_layout.rs:107-165 | a union has one mask per member, str is a slice of u8 masks, exactly the dyn types are trait objects, a sized mask covers the type's size, a slice mask covers one element, and the layout is unknown exactly for unsized types that are not a union, str, slice or dyn |
| TyLayout.TysLayoutCmpToSize | kani-compiler/src/kani_middle/transform/check_uninit/ty_layout.rs:423-452 | the comparison holds only when both layouts are sized or slices and the target's mask is no longer than the source's |
| TyLayout.CompatibleIffDataSubset | kani-compiler/src/kani_middle/transform/check_uninit/ty_layout.rs:411-415 | two layouts are compatible exactly when the target's mask is no longer and every data byte of the target is a data byte of the source |
| TyLayout.EqualIffPrefix | kani-compiler/src/kani_middle/transform/check_uninit/ty_layout.rs:417-421 | two layouts are equal to size exactly when the target's mask is no longer than the source's and is its prefix |
| TyLayout.EqualImpliesCompatible | kani-compiler/src/kani_middle/transform/check_uninit/ty_layout.rs:411-421 | layouts that are equal to size are compatible |
| CheckUninit.SkippedIffMemInitModel | kani-compiler/src/kani_middle/transform/check_uninit/mod.rs:56-69 | the bodies left alone are exactly those of the twelve memory-initialisation model functions |
| CheckUninit.MaskOfLayoutArray | kani-compiler/src/kani_middle/transform/check_uninit/mod.rs:662-688 | the bool array built from a mask has one constant per mask byte, in order, so it spells the mask back |
| CheckUninit.OpEffect | kani-compiler/src/kani_middle/transform/check_uninit/mod.rs:134-196 | every operation inserts at least one block (a check, a call or a block) |
| CheckUninit.OpAddsBlocks | kani-compiler/src/kani_middle/transform/check_uninit/mod.rs:134-196 | the instrumentation of every operation adds at least one basic block |
| CheckUninit.UnsupportedAndUnsafeOps | kani-compiler/src/kani_middle/transform/check_uninit/mod.rs:140-170 | an unsupported operation, or one whose pointee has no computable layout, inserts exactly one unsupported check and no local; a trivially unsafe one assigns false to a fresh boolean and inserts a safety check of it |
| CheckUninit.CheckCallsModel | kani-compiler/src/kani_middle/transform/check_uninit/mod.rs:200-322 | a check of a sized pointee calls is_ptr_initialized(ptr, mask), or the slice-chunk model with the count added; a slice pointee calls the slice model with the element type and a str pointee the str model with u8; a trait-object or union pointee gets one unsupported check; each call is followed by a safety check of its result |
| CheckUninit.SetOnUnion | kani-compiler/src/kani_middle/transform/check_uninit/mod.rs:439-462 | a set on a union pointee uses the mask of the union field being created, and without such a field inserts only an unsupported check |
| CheckUninit.CopyPassesEndpoints | kani-compiler/src/kani_middle/transform/check_uninit/mod.rs:499-526 | a copy inserts one call of copy_init_state instantiated with the pointee's size and type, passing (from, to, count) |
| CheckUninit.CheckEffectWellFormed | kani-compiler/src/kani_middle/transform/check_uninit/mod.rs:200-322 | what a check inserts refers only to fresh locals of the right types, its mask array is exactly as long as the size the model function is instantiated with, and its safety check reads the boolean the call computed |
| CheckUninit.SetEffectWellFormed | kani-compiler/src/kani_middle/transform/check_uninit/mod.rs:326-496 | what a set inserts refers only to fresh locals of the right types, with a mask array as long as the instantiated size |
| CheckUninit.TransferEffectWellFormed | kani-compiler/src/kani_middle/transform/check_uninit/mod.rs:499-620 | what a copy, union assignment or argument transfer inserts refers only to fresh locals of the right types and passes no mask |
| CheckUninit.OpEffectWellFormed | kani-compiler/src/kani_middle/transform/check_uninit/mod.rs:134-196 | whatever an operation inserts is well formed in the same sense |
| CheckUninit.WellFormedConcat | kani-compiler/src/kani_middle/transform/check_uninit/mod.rs:119-131 | the insertions of two operations, the second numbering its locals after the first's, are well formed together |
| CheckUninit.ExtendWellFormed | kani-compiler/src/kani_middle/transform/check_uninit/mod.rs:119-131 | adding one operation's insertions after well-formed insertions keeps them well formed |
| CheckUninit.OpsEffectWellFormed | kani-compiler/src/kani_middle/transform/check_uninit/mod.rs:110-131 | the insertions of a whole sequence of operations are well formed |
| CheckUninit.OpsAddBlocksIffAny | kani-compiler/src/kani_middle/transform/check_uninit/mod.rs:110-131 | a sequence of operations adds at least one block per operation, and adds none exactly when it is empty |
| CheckUninit.OrderedOpsAppend | kani-compiler/src/kani_middle/transform/check_uninit/mod.rs:110-113 | the instructions are handled from last to first, so the operations of a later group come before those of an earlier one |
| CheckUninit.OrderedOpsValid | kani-compiler/src/kani_middle/transform/check_uninit/mod.rs:110-113 | when every operation of every instruction is valid, so is the ordered sequence |
| CheckUninit.MkLayoutOperand | kani-compiler/src/kani_middle/transform/check_uninit/mod.rs:662-688 | exactly one assignment is pushed, of the mask as a bool array to a fresh local of that array type, and the operand returned moves out of that local; no block is inserted |
| CheckUninit.UninitInstrumenter.constructor | kani-compiler/src/kani_middle/transform/check_uninit/mod.rs:81-96 | the instrumenter keeps the safety and unsupported check types it is given |
| CheckUninit.UninitInstrumenter.Instrument | kani-compiler/src/kani_middle/transform/check_uninit/mod.rs:98-117 | a skipped model function's body is unchanged and reported unchanged; otherwise the body receives exactly the insertions of the instructions' operations from last instruction to first, "before" operations ahead of "after" ones, and changed holds exactly when the block count changed, which is exactly when there was an operation |
| CheckUninit.UninitInstrumenter.BuildCheckForInstruction | kani-compiler/src/kani_middle/transform/check_uninit/mod.rs:119-132 | an instruction's "before" operations are instrumented and then its "after" operations, appended to what was inserted so far |
| CheckUninit.UninitInstrumenter.BuildChecksForOps | kani-compiler/src/kani_middle/transform/check_uninit/mod.rs:123-128 | the loop instruments a list of operations in order, appending each one's insertions |
| CheckUninit.UninitInstrumenter.BuildCheckForOperation | kani-compiler/src/kani_middle/transform/check_uninit/mod.rs:134-196 | an operation inserts exactly the locals and insertions its specification prescribes |
| CheckUninit.UninitInstrumenter.BuildGetAndCheck | kani-compiler/src/kani_middle/transform/check_uninit/mod.rs:200-322 | a check inserts exactly the locals and insertions of the check specification |
| CheckUninit.UninitInstrumenter.BuildSet | kani-compiler/src/kani_middle/transform/check_uninit/mod.rs:326-496 | a set inserts exactly the locals and insertions of the set specification |
| CheckUninit.UninitInstrumenter.BuildCopy | kani-compiler/src/kani_middle/transform/check_uninit/mod.rs:499-526 | a copy inserts exactly one unit local and one call of copy_init_state with (from, to, count) |
| CheckUninit.UninitInstrumenter.BuildArgumentOperation | kani-compiler/src/kani_middle/transform/check_uninit/mod.rs:531-581 | a store or load of argument information inserts one block calling the store or load model with the pointer and the argument's number |
| CheckUninit.UninitInstrumenter.BuildAssignUnion | kani-compiler/src/kani_middle/transform/check_uninit/mod.rs:584-620 | a union assignment inserts one block calling copy_init_state_single with (from, to) |
| CheckUninit.UninitInstrumenter.InjectSafetyCheck | kani-compiler/src/kani_middle/transform/check_uninit/mod.rs:622-637 | a safety check assigns false to a fresh boolean and inserts a check of it with the given reason |
| CheckUninit.UninitInstrumenter.InjectUnsupportedCheck | kani-compiler/src/kani_middle/transform/check_uninit/mod.rs:639-647 | an unsupported check inserts exactly one check of the unsupported check type with no condition |
| CodegenUnits.IterSucc | kani-compiler/src/kani_middle/codegen_units.rs:281-305 | one more step along a stub chain follows the stub of the current function when it has one and stays put otherwise |
| CodegenUnits.IterAdd | kani-compiler/src/kani_middle/codegen_units.rs:281-305 | following a stub chain a+b steps is following it a steps and then b more |
| CodegenUnits.IterFixed | kani-compiler/src/kani_middle/codegen_units.rs:281-305 | a function that is not stubbed is the end of its own chain |
| CodegenUnits.WalkEndsUnstubbed | kani-compiler/src/kani_middle/codegen_units.rs:285-302 | a walk that reports no cycle stops at a function that is not stubbed, and wherever it stops is reachable along the stub chain |
| CodegenUnits.PeriodicChain | kani-compiler/src/kani_middle/codegen_units.rs:285-302 | a chain that returns to an earlier stubbed function stays among stubbed functions forever |
| CodegenUnits.CycleIsReal | kani-compiler/src/kani_middle/codegen_units.rs:285-302 | when the walk reports a cycle, the chain really never leaves the stubbed functions |
| CodegenUnits.WalkCycleIff | kani-compiler/src/kani_middle/codegen_units.rs:281-305 | a cycle is reported exactly when the stub chain never reaches a function that is not stubbed; otherwise the walk ends at an unstubbed function |
| CodegenUnits.Transitive | kani-compiler/src/kani_middle/codegen_units.rs:281-305 | the transitive stub map has exactly the keys of the original |
| CodegenUnits.FollowStubs | kani-compiler/src/kani_middle/codegen_units.rs:284-302 | the loop with a visited set follows the stub chain from a start function, stopping at the first revisited stub (a cycle) or at a function that is not stubbed, exactly as the walk specifies |
| CodegenUnits.ApplyTransitivity | kani-compiler/src/kani_middle/codegen_units.rs:281-305 | every original function is mapped to the end of its stub chain, the keys are exactly the input's, and a cycle is reported for exactly those functions whose chain never leaves the stubs |
| CodegenUnits.ExtractContracts | kani-compiler/src/kani_middle/codegen_units.rs:225-245 | a harness uses the contract check of its target exactly when it is a contract harness whose target resolves, and a verified stub exactly when one of its listed stubs resolves to it |
| CodegenUnits.UnitsByKey | kani-compiler/src/kani_middle/codegen_units.rs:188-213 | after the loop, each key of the map holds exactly the harnesses that have that key, with the transitive stubs of that key; the stub-cycle errors are exactly the cycling stubbed functions of each key, reported against the harness that started its unit |
| CodegenUnits.GroupedByStep | kani-compiler/src/kani_middle/codegen_units.rs:195-210 | adding a harness to the unit of its key (or to a new unit when the key is new) keeps every unit exactly the harnesses seen so far with that key |
| CodegenUnits.CycleErrorsStep | kani-compiler/src/kani_middle/codegen_units.rs:201-210 | joining an existing unit reports nothing; starting a unit reports the cycles of its key's stubs against the new harness; either way the errors stay exactly the cycles of the units' first harnesses |
| CodegenUnits.UnitsOf | kani-compiler/src/kani_middle/codegen_units.rs:212 | the units are the map's values, one per distinct key, none missing |
| CodegenUnits.GroupByStubs | kani-compiler/src/kani_middle/codegen_units.rs:188-213 | every harness is in some unit, units hold only given harnesses, two harnesses share a unit exactly when they have the same (contract usages, stub map) key, each unit's stubs are the transitive closure of its key's, and no unit is empty or holds a harness twice; a stub cycle is reported for a unit's first harness exactly for each stubbed function whose chain has a cycle |
| CodegenUnits.ValidateUnits | kani-compiler/src/kani_middle/codegen_units.rs:266-278 | there is no error exactly when every stub pair of every unit is compatible, and each error is reported at the first harness of its unit |
| CodegenUnits.FnListContainsIffSubstring | kani-compiler/src/kani_middle/codegen_units.rs:388-391 | a list contains an instance exactly when some entry occurs inside the instance's pretty name; listing the exact name adds nothing |
| CodegenUnits.UserIncludedCases | kani-compiler/src/kani_middle/codegen_units.rs:87-93 | a non-empty include list admits only matching functions; otherwise a non-empty exclude list rejects matching functions; otherwise everything is admitted |
| CodegenUnits.VerifiableFns | kani-compiler/src/kani_middle/codegen_units.rs:85-95 | a crate function gets an automatic harness exactly when the user's filter admits it and it is eligible |
| CodegenUnits.AutoInfo | kani-compiler/src/kani_middle/codegen_units.rs:96-101 | the automatic harnesses' metadata is recorded under exactly the automatic harnesses |
| CodegenUnits.WithLoopContracts | kani-compiler/src/kani_middle/codegen_units.rs:138-150 | recording loop contracts sets the flag; an automatically generated harness becomes a contract harness targeting its pretty name; nothing else in the metadata changes |
| CodegenUnits.WithLoopContractsIdempotent | kani-compiler/src/kani_middle/codegen_units.rs:138-150 | recording loop contracts twice is the same as recording them once |
| CodegenUnits.WithModifies | kani-compiler/src/kani_middle/codegen_units.rs:131-135 | recording modifies contracts keeps the set of harnesses |
| CodegenUnits.WithModifiesEffect | kani-compiler/src/kani_middle/codegen_units.rs:131-135 | only the contract of the named harnesses changes, a harness not named is unchanged, and a named harness keeps the last contract given for it |
| CodegenUnits.AppendedUnits | kani-compiler/src/kani_middle/codegen_units.rs:103-113 | appending the automatic units after the manual ones keeps every manual harness in a unit and places the automatic units last |
| CodegenUnits.CodegenUnits.constructor | kani-compiler/src/kani_middle/codegen_units.rs:61-123 | under Harnesses the units are exactly the grouping of the manual harnesses (a partition by key, with transitive stubs); under AllFns those units come first and the automatic harnesses follow in their own stub-free units, with their metadata added; in both modes the stub-cycle errors of the grouping are kept; any other mode has no units, no harness metadata and no errors |
| CodegenUnits.CodegenUnits.StoreModifies | kani-compiler/src/kani_middle/codegen_units.rs:131-135 | the harness metadata becomes the specification's update and the units are unchanged |
| CodegenUnits.CodegenUnits.StoreLoopContracts | kani-compiler/src/kani_middle/codegen_units.rs:138-150 | exactly the listed harnesses get the loop-contract update and every other entry and the units are unchanged |
| CodegenUnits.CodegenUnits.GenerateMetadata | kani-compiler/src/kani_middle/codegen_units.rs:164-174 | the metadata carries the crate name and partitions the harness metadata into proof and test lists, each harness in exactly one list according to its kind |
| Resolve.GenericArgsToString | kani-compiler/src/kani_middle/resolve.rs:568-570 | the printed generic arguments contain no whitespace character and are no longer than the token text |
| Resolve.GenericArgsToStringAppend | kani-compiler/src/kani_middle/resolve.rs:568-570 | dropping whitespace distributes over concatenation of token text |
| Resolve.GenericArgsToStringIdempotent | kani-compiler/src/kani_middle/resolve.rs:568-570 | dropping whitespace twice is dropping it once |
| Resolve.NoWhitespaceUnchanged | kani-compiler/src/kani_middle/resolve.rs:568-570 | text without whitespace is printed unchanged |
| Resolve.IsItemNameSpec | kani-compiler/src/kani_middle/resolve.rs:706-710 | an item path matches a name exactly when its last `::` component is that name |
| Resolve.LastTwoItemsMatchSpec | kani-compiler/src/kani_middle/resolve.rs:726-741 | a path matches `generic_args::name` exactly when the generic arguments are `::` followed by its second-to-last component and the name is its last component |
| Resolve.LastTwoItemsMatchNeedsTwo | kani-compiler/src/kani_middle/resolve.rs:729-731 | a path with a single component never matches |
| Resolve.LastTwoItemsMatchFormat | kani-compiler/src/kani_middle/resolve.rs:747-761 | the unit-test shape `prefix::inner<generic_args>::name` matches for any non-empty prefix, as the length-one and length-three tests check |
| Resolve.FindNamedSpec | kani-compiler/src/kani_middle/resolve.rs:387-397 | the external crate lookup finds nothing exactly when no used crate has the name, and otherwise returns the first crate with it |
| Resolve.FindChild | kani-compiler/src/kani_middle/resolve.rs:400-405 | a foreign module child is returned only when it has the name and is a definition; nothing is returned exactly when every child with the name has no definition |
| Resolve.FirstItemNamed | kani-compiler/src/kani_middle/resolve.rs:647-664 | the result is one of the items and its path ends in the name; nothing is returned exactly when no item's path ends in the name |
| Resolve.ScanItemsSpec | kani-compiler/src/kani_middle/resolve.rs:428-456 | the scan of a module's items reports globs exactly when no item with the name yields a definition, returns every glob import seen, and otherwise returns the definition of the first item with the name that yields one |
| Resolve.DirectItemWins | kani-compiler/src/kani_middle/resolve.rs:428-456 | a local module's own items take precedence over its glob imports, which are collected only when no item with the name resolves |
| Resolve.GlobVisit | kani-compiler/src/kani_middle/resolve.rs:490-502 | one turn of the worklist loop leaves the remaining search unchanged and either marks a new import visited or shortens the worklist |
| Resolve.ResolveInGlobUses | kani-compiler/src/kani_middle/resolve.rs:484-518 | the loop's result is the outcome of the recursive worklist search from the collected glob imports |
| Resolve.GlobSearchVisitsWork | kani-compiler/src/kani_middle/resolve.rs:490-502 | every pending import is visited, and nothing visited is forgotten |
| Resolve.GlobSearchFacts | kani-compiler/src/kani_middle/resolve.rs:490-502 | the search ends on a set of imports closed under following nested globs, and its matches are exactly the definitions found in them |
| Resolve.GlobSearchLeast | kani-compiler/src/kani_middle/resolve.rs:490-502 | the visited imports are contained in every closed set that contains the start, so no import outside the reachable ones is explored |
| Resolve.ResolveInGlobUsesSpec | kani-compiler/src/kani_middle/resolve.rs:484-518 | the glob search visits exactly the imports reachable from the start; it succeeds exactly when one reachable import defines the name, reports a missing item exactly when none does and ambiguity exactly when two or more do |
| Resolve.LeadingSupers | kani-compiler/src/kani_middle/resolve.rs:359-384 | the number of leading `super` segments: all counted segments are `super` and the next one is not |
| Resolve.ResolveSuper | kani-compiler/src/kani_middle/resolve.rs:359-384 | the loop climbing one parent per leading `super` computes the climb function |
| Resolve.ClimbSupersSpec | kani-compiler/src/kani_middle/resolve.rs:359-384 | climbing n `super` segments succeeds exactly when the module has at least n ancestors, lands on the n-th ancestor with no generic arguments and leaves the remaining segments untouched; too many give the extra-super error |
| Resolve.ItemsNamed | kani-compiler/src/kani_middle/resolve.rs:580-587 | the candidates are exactly the inherent items whose path ends in the name |
| Resolve.ItemsMatching | kani-compiler/src/kani_middle/resolve.rs:616-624 | the refined candidates are exactly the candidates whose last two components match the generic arguments and name |
| Resolve.ResolveInTypeDefCases | kani-compiler/src/kani_middle/resolve.rs:573-644 | missing item exactly when no inherent item has the name; the result has the name; without generic arguments it succeeds exactly when one candidate exists; with several candidates only angle-bracketed arguments can pick one and it matches them; parenthesized arguments with several candidates are an invalid path |
| Resolve.ResolveInTrait | kani-compiler/src/kani_middle/resolve.rs:647-664 | the result is an associated item of the trait with the name, and it fails exactly when none has it |
| Resolve.ResolveInPrimitive | kani-compiler/src/kani_middle/resolve.rs:667-703 | no segment left is exactly the unexpected-primitive error; on success the base is an item of the primitive's impls named by the first segment, with no generic arguments and the rest of the segments left |
| Resolve.ResolvePrefixLocalFirst | kani-compiler/src/kani_middle/resolve.rs:330-348 | a plain first segment resolves in the current module first; only a missing-item error falls back to an external crate of that name, and any other error is returned as it is |
| Resolve.SelfSuperClimbsLikeSuper | kani-compiler/src/kani_middle/resolve.rs:318-325 | `self::super::…` resolves like `super::…`, and `self::` alone stays in the current module |
| Resolve.ResolveSegmentsAppend | kani-compiler/src/kani_middle/resolve.rs:150-166 | folding the remaining segments over a concatenation is folding the first part and continuing from its result, stopping at the first error |
| Resolve.ValidateFn | kani-compiler/src/kani_middle/resolve.rs:32-41 | the kind check succeeds exactly for functions and associated functions and returns the definition unchanged |
| Resolve.ResolveFnPathIsFunction | kani-compiler/src/kani_middle/resolve.rs:53-91 | every successful resolution is a function or method, and it is an implementation resolution exactly when the path is trait-qualified |
| Resolve.ResolveFn | kani-compiler/src/kani_middle/resolve.rs:96-112 | an unparsable string is an invalid-path error naming it; success is always a function or method; a trait-qualified path is always an error |
| Strings.SplitJoinPath | kani-compiler/src/kani_middle/resolve.rs:706-710 | splitting at `::` a path joined from colon-free components gives the components back |
| Intrinsics.InputsMatchSpec | kani-compiler/src/intrinsics.rs:152-168 | the input checks pass exactly when there are as many inputs as patterns and each input has its pattern's kind |
| Intrinsics.SigMatchesSpec | kani-compiler/src/intrinsics.rs:152-168 | a signature matches exactly when its inputs match pattern by pattern with none left over and its output has the output pattern's kind |
| Intrinsics.FirstSomeSpec | kani-compiler/src/intrinsics.rs:450-453 | the `or_else` chain yields nothing exactly when no family recognises the name, and otherwise the answer of the first family that does |
| Intrinsics.FallbackFirstMatchWins | kani-compiler/src/intrinsics.rs:450-458 | for a name the main match does not handle, the first of the atomic, SIMD, `f32` and `f64` families that recognises it decides the result |
| Intrinsics.RunArmNotNew | kani-compiler/src/intrinsics.rs:172-449 | no table arm yields an unimplemented intrinsic carrying the new-issue link |
| Intrinsics.UnknownIsUnimplemented | kani-compiler/src/intrinsics.rs:450-458 | a name yields an unimplemented intrinsic with the new-issue link exactly when no table knows it and it does not start with `simd_shuffle`, whatever the signature |
| Intrinsics.ShuffleSpec | kani-compiler/src/intrinsics.rs:617-625 | every name starting with `simd_shuffle` is a shuffle keeping the rest of the name when the signature has exactly three inputs, and a signature panic otherwise |
| Intrinsics.CallerLocationIsUnimplemented | kani-compiler/src/intrinsics.rs:226-232 | `caller_location` with no inputs and a shared reference output is unimplemented with its own issue link; any other signature panics |
| Intrinsics.CatchUnwindIsUnimplemented | kani-compiler/src/intrinsics.rs:233-239 | `catch_unwind` with a function pointer, a mutable raw pointer and a function pointer returning `i32` is unimplemented with its own issue link; any other signature panics |
| Intrinsics.LoweredUnchecked | kani-compiler/src/intrinsics.rs:388-391 | the unchecked arithmetic names are arms that must have been lowered before code generation |
| Intrinsics.LoweredUnreachable | kani-compiler/src/intrinsics.rs:404-409 | `unreachable` and `variant_count` are arms that must have been lowered before code generation |
| Intrinsics.LoweredNamesPanic | kani-compiler/src/intrinsics.rs:180-409 | every name lowered or evaluated before code generation panics when it reaches classification, whatever its signature |
| Intrinsics.PowiF32 | kani-compiler/src/intrinsics.rs:691-694 | `powif32` is recognised by the `f32` family and needs an `f32` and an `i32` returning an `f32` |
| Intrinsics.FmaF64 | kani-compiler/src/intrinsics.rs:753-756 | `fmaf64` is recognised by the `f64` family and needs three `f64`s returning an `f64` |
| CallCargo.Underscored | kani-driver/src/call_cargo.rs:356-365 | the respelled name has the same length and differs only where a `-` became `_` |
| CallCargo.UnderscoredHasNoDash | kani-driver/src/call_cargo.rs:356-365 | a respelled name has no dash, and respelling twice is respelling once |
| CallCargo.SameTargetIsEquivalence | kani-driver/src/call_cargo.rs:356-365 | the loose target comparison is reflexive, symmetric and transitive |
| CallCargo.SameTargetAcrossSpellings | kani-driver/src/call_cargo.rs:347-365 | for every target, the same target reported under its underscored name with other crate types is still the target built; one of another kind is not |
| CallCargo.ToArgsSelects | kani-driver/src/call_cargo.rs:548-554 | libraries are selected with one argument and binaries and tests with two naming the target; equal arguments mean the same kind and, except for libraries, the same name |
| CallCargo.DescribeInjective | kani-driver/src/call_cargo.rs:565-572 | equal descriptions mean the same kind of target with the same name |
| CallCargo.PackageTargets | kani-driver/src/call_cargo.rs:586-658 | the loop over a package's targets computes the scan of the targets in order |
| CallCargo.ScanTarget | kani-driver/src/call_cargo.rs:590-642 | one target contributes the scan of its kinds in order followed by the library decision taken from the two flags |
| CallCargo.KindArm | kani-driver/src/call_cargo.rs:595-631 | one kind contributes its arm's pushes, and marks a supported library or a procedural macro exactly when libraries are included and the kind is one |
| CallCargo.KindsScanFacts | kani-driver/src/call_cargo.rs:595-631 | the kinds of a target push its binary exactly when a kind is `Bin` and it is included, its test exactly when a kind is `Test`, tests are included and `--tests` was given, record it as an ignored test exactly when `--tests` was not, and never push a library |
| CallCargo.LibraryOnce | kani-driver/src/call_cargo.rs:633-641 | a target with a library kind is verified as a library exactly once when libraries are included and it is not a procedural macro, and is reported as a skipped procedural macro when it is both |
| CallCargo.BinariesAndTests | kani-driver/src/call_cargo.rs:586-658 | a binary target is verified exactly when included; a test target exactly when tests are included and `--tests` was given, and recorded as ignored exactly when `--tests` was not; every verification target is the target it came from |
| CallCargo.TargetsScanMembers | kani-driver/src/call_cargo.rs:586-658 | a package's verification targets are exactly those its targets contribute one by one |
| CallCargo.LastDot | kani-driver/src/call_cargo.rs:511-512 | the position of a dot after which the name has no dot, or none when the name has no dot |
| CallCargo.SplitNameRejoins | kani-driver/src/call_cargo.rs:511-512 | stem and extension rejoin with a dot into the file name, the stem is not empty and the extension has no dot |
| CallCargo.SplitNameOfJoin | kani-driver/src/call_cargo.rs:511-512 | a name built from a stem and a dot-free extension splits back into them |
| CallCargo.TryArtifact | kani-driver/src/call_cargo.rs:519 | a metadata file becomes an artifact exactly when it exists, and the artifact is that file |
| CallCargo.FirstMapped | kani-driver/src/call_cargo.rs:510-533 | an artifact is found exactly when some file maps to one, and it is the mapping of the first such file |
| CallCargo.RmetaMapsToMetadata | kani-driver/src/call_cargo.rs:511-519 | `dir/libC.rmeta` maps to `dir/C.kani-metadata.json` when that file exists and to nothing otherwise |
| CallCargo.RlibNeverMaps | kani-driver/src/call_cargo.rs:520-523 | an `.rlib` file never maps to an artifact |
| CallCargo.CustomBuildIgnored | kani-driver/src/call_cargo.rs:506-509 | the artifact of a custom build script never yields a Kani artifact |
| CallCargo.LastSomeSpec | kani-driver/src/call_cargo.rs:376-379 | searching from the back yields a value exactly when some entry has one, and then the value of the last entry that has one |
| CallCargo.PickArtifactIsLast | kani-driver/src/call_cargo.rs:347-380 | the build yields an artifact exactly when some rustc artifact belongs to the target and maps, and then it is the mapping of the last such artifact |
| CallCargo.Select | kani-driver/src/call_cargo.rs:433-463 | the selected packages are exactly those of the list whose id is in the set, or not in it, as asked |
| CallCargo.ToPackageIdsSpec | kani-driver/src/call_cargo.rs:385-418 | the lookup succeeds exactly when every name resolves, and then maps the id of every name to a name with that id; otherwise it reports the first name that does not resolve |
| CallCargo.OuterNames | kani-driver/src/call_cargo.rs:443-453 | the names reported are exactly those of the requested packages cargo knows that are outside the workspace |
| CallCargo.SelectedPackages | kani-driver/src/call_cargo.rs:436-455 | with `--package`, the packages verified are exactly the workspace packages some requested name resolves to, at least as many as requested; a report of missing packages names exactly the requested packages outside the workspace, which is the corrected report of `CallCargo.OuterNames` rather than the source's as-written list; any other error is a name that does not resolve |
| CallCargo.ExcludedPackages | kani-driver/src/call_cargo.rs:456-464 | with `--exclude`, the packages verified are exactly the workspace packages no excluded name resolves to, and an error is a name that does not resolve |
| CallCargo.UnfilteredPackages | kani-driver/src/call_cargo.rs:465-469 | without `--package` or `--exclude`, all workspace members with `--workspace` and the default members otherwise, never an error |
| CallCargo.OuterNamesAsWritten | kani-driver/src/call_cargo.rs:445-452 | every name reported as written is the name of a requested package cargo knows, but it may be inside the workspace |
| CallCargo.OuterNamesListsWorkspacePackages | kani-driver/src/call_cargo.rs:443-453 | requesting workspace package `a` and non-workspace package `b` fails with only `b` reported in the corrected model, while the report as written lists `a` as well |
| CallCargo.BuildFromErrorSticks | kani-driver/src/call_cargo.rs:228-235 | once building a prefix of the targets has failed, building more targets returns the same error |
| CallCargo.BuildEach | kani-driver/src/call_cargo.rs:213-241 | the loop over one package's targets continues the build of the targets before it |
| CallCargo.BuildPackage | kani-driver/src/call_cargo.rs:212-242 | one package's turn extends the build by its targets and reports whether it had any |
| CallCargo.BuildTargets | kani-driver/src/call_cargo.rs:208-248 | the loops over packages and their targets and the final check compute the cargo build function |
| CallCargo.BuildFromFacts | kani-driver/src/call_cargo.rs:213-241 | building targets in order fails exactly when some target fails without keep-going, with the message of the first failure; every artifact yielded was produced by building some target |
| CallCargo.CargoBuildOutcome | kani-driver/src/call_cargo.rs:208-248 | the build fails for want of targets exactly when no package has a verification target, and succeeds exactly when there is some target and either keep-going holds or every target builds |

## Left out

Source files outside the model:

- `kani-compiler/src/kani_middle/transform/body.rs` is not part of this model. `CheckUninit.MutableBody` stands in for its insertion primitives as an insertion log. Each inserted item is appended to the log, fresh locals are allocated, and a terminator adds one block. Block splitting and the rewriting of terminators are not modelled.
- `check_uninit/relevant_instruction.rs` and the MIR visitor that finds the next unsafe instruction are not part of this model. Each block is a sequence of abstract instructions, and the operations of an instruction are an input.
- The lowering of arbitrary operands, places and rvalues, and the typing of goto expressions, are not modelled. Their results are opaque expressions given as inputs.
- rustc queries are inputs or fields of a world value. These include `layout_of`, `type_of`, `fn_abi`, `def_path_str`, `module_children`, `inherent_impls`, the HIR parent chain and instance resolution.
- Hook dispatch, intrinsic code generation and vtable restriction are given as inputs. So are `make_source_region` and the symbol table's implementation.
- The syn parse of a path string, and the resolution of the `Self` type of a qualified path (`type_resolution`), are inputs to `Resolve.ResolveFn` and `Resolve.ResolveFnPath`.
- Process and file plumbing in the driver is left out, because it is I/O:
  - `run_build`, `cargo_metadata`, `cargo_build_std`, `cargo_init_lib` and `print_msg`;
  - the spawning of `cargo pkgid`, which is the `pkgid` function parameter;
  - opening and parsing artifact stub files, which are the `stubs` map of `CallCargo.FileSystem`;
  - checking that a file exists, which is its `present` set.
- The driver's `failed_targets` list and the error printed for each failed target under `--keep-going` are left out. They are diagnostics only; `CallCargo.BuildFrom` skips such a target and keeps going.
- The harness metadata files of `codegen_units.rs` are left out, because they are file I/O: `write_metadata`, `store_metadata` and `metadata_output_path`. The `include_*` flags and the automatic-harness facts that need a function body are parameters.
- Floating-point arithmetic is not modelled. Float constants are opaque bit patterns.
- Tracing, debug output and the `TIME_COMPILER` timing print are left out.
- Source locations attached to goto statements are not modelled.

Deliberate simplifications:

- `Resolve.ResolveSegments` uses the base path's generic arguments for every type lookup in the fold, as the source does. Arguments on later segments are not inspected.
- `CodegenUnits.CodegenUnits.constructor` does not call `ValidateUnits`. The source aborts compilation when validation fails, or when grouping reported a stub cycle (the `abort_if_errors` at the end of `validate_units`). The model keeps the cycle errors in `stubCycleErrors` and proves the validation separately, so it does not model the abort itself.
- `CodegenUnits.CodegenUnits.GenerateMetadata` returns the crate name and the two harness lists. It leaves out `unsupported_features`, which the source always leaves empty, and `contracted_functions`, which `gen_contracts_metadata` computes from the compiler's view of the crate.
- `TyLayout.FromTy` and `TyLayout.UnionFieldMasks` use the corrected window `FromOffset` (see Findings), where the source's `from_ty` calls `data_bytes_for_ty` as written. So do all the `CheckUninit` members that take layouts from `FromTy`: the check, set and copy specifications and the `UninitInstrumenter` methods built on them. For a pointee such as `(u32, E)` with `enum E { A(u8), B(u16) }`, the source computes a sized mask and inserts an `is_ptr_initialized` check; the model rejects the layout and inserts an unsupported check instead. `TyLayout.DataBytesForTy` models the as-written walk on its own.
- `CallCargo.SelectedPackages` and `CallCargo.PackagesToVerify` state the corrected report of missing packages, `CallCargo.OuterNames` (see Findings). As written, the source's report also names requested packages that were found in the workspace; with `--package a --package b`, where only `a` is a workspace member, the source names `a` and `b` and the model names `b`. `CallCargo.OuterNamesAsWritten` models the source's list.
- `CheckValues.TyValidityPerOffset`, `CheckValues.VariantsErrPropagates` and everything built on `CheckValues.Validity` walk a tagged enum's variant fields at the variants' own offsets (see Findings). As written, the source reads those offsets from the enum's own offsets, which hold only the tag. For `enum E { A(u8, u8), B }` the source panics, and the model accepts `E` with the tag's requirement. For a variant whose only field is field 0, the source checks that field at the tag's offset. `CheckValues.TaggedEnumAsWritten` models the source's arm on its own.
- `ValidValuePass.Instrument` represents each inserted check, and the statements that compute its condition, by one `Check` instruction. The assignment that copies the value before a value-validity check is omitted. The number of checks an instruction needs is an input; the operations and ranges that decide it are not modelled in this module.
- `FunctionCodegen.MatchingRegions` treats every coverage mapping as a code mapping. The source reaches `unreachable!` on a mapping of another kind.
- `CallCargo.BuildFrom` takes each target's build outcome as an input, and that outcome includes setting up the target's cargo command. In the source, a failure to set up the command returns an error at once, whatever `--keep-going` says. The model does not tell that failure apart from a failed build, which `--keep-going` skips.
- `CallCargo.MapKaniArtifact` reads an artifact's stub from the `stubs` map of `CallCargo.FileSystem` as an already parsed metadata path. A stub file that is missing maps to nothing, as in the source. The source panics on a stub file that opens but does not parse, and the model has no such file.
- `FunctionCodegen.GotocCtx.CodegenSpreadArg`, `FunctionCodegen.GotocCtx.DeclareVariables` and `FunctionCodegen.GotocCtx.CodegenFunction` require a well-formed body. A spread argument that is not zero-sized must be a tuple argument of a function that is not a closure. The source asserts the first and reaches `unreachable!` otherwise. `SpreadShape.NotATuple` is still reachable, for a zero-sized spread argument, which the source skips before looking at its type.
- `FunctionCodegen.GotocCtx.DeclareVariable` models `declare_variable` from its call in `codegen_spread_arg`. The definition of `declare_variable` is not part of this model; the method inserts the symbol and pushes its declaration, as `codegen_declare_variables` does for the other locals.
- Error messages are structured values, not formatted strings.
- `CallCargo.PackagesToVerify` keeps the requested names as a sequence in `PackagesNotFound`. It does not model the message text, which joins the names with the separator `` `, ``.
- `CallCargo.MetadataPath` returns nothing for the crate names `""`, `.` and `..`, that is, for the artifacts `lib.rmeta`, `lib..rmeta` and `lib...rmeta`. For `..` the source's `set_extension` has no file name to change. For `""` and `.` the joined path names the directory itself, so the source looks for `<dir>.kani-metadata.json` beside the directory; the model does not represent that path. Cargo does not produce such artifacts.
- `Intrinsics.FromInstance` takes the intrinsic's name and signature directly. It does not model how an `Instance` is turned into them.
- `OperandCodegen.AllocCache.ConstPtr` and `OperandCodegen.AllocCache.AllocInMemory` differ from the source in three ways:
  - pointers with provenance are lowered before the byte partition is built, in the same order as the source;
  - struct field types, and the transmute of an initialiser to the allocation type, are omitted;
  - nesting of allocations is bounded, and reaching the bound gives `NestingTooDeep`.
- `OperandCodegen.AllocCache.AllocInMemory` states the new global's constness and initialiser only when no global of that name existed when the initialiser was written (its ghost `existed` is false). That is always so for a name that was free before the call and an allocation without provenance. A nested materialisation of a provenance target could in principle create the same name first; the source then keeps that global, and the model does not say what it holds.
- `OperandCodegen.AllocCache.AllocPointer` and `OperandCodegen.AllocCache.ConstPtr` state the base of a pointer into a static or a materialised global only as "some base". The contracts do not name it as the static's symbol or the cached global.
- `OperandCodegen.AllocCache.ConstPtr` stores a `str` literal's bytes without checking that they are UTF-8. The source panics on bytes that are not UTF-8 (`from_utf8(...).expect`).
- `OperandCodegen.AllocCache.CodegenFnItem` and `OperandCodegen.FuncSymbol` take from the caller whether the function is foreign and the symbol its lookup yields.
- `FunctionCodegen.GotocCtx.CodegenFunction` requires the symbol to be declared and to be a function. The source panics on a missing or non-function symbol, and its only caller declares the function first. The lowered basic blocks are an input.
- `TyLayout.MaybeSize` requires a union to have at least one field. The source calls `unwrap` on the maximum there, and `from_ty` never builds an empty union layout.

## Findings

| source | as written | input that shows it | evidently intended | confidence | as-written member | corrected member |
|---|---|---|---|---|---|---|
| kani-compiler/src/kani_middle/transform/check_values.rs:65-78 | `for bb_idx in 0..new_body.blocks().len()` evaluates the bound once, although the comment beside it says the length must not be cached. Blocks appended by inserting a check are never visited. | A body with one block holding two unsafe instructions that need one check each, `[[Unsafe(1, 0), Unsafe(2, 0)]]`: one check is inserted instead of two. | Visit blocks while the index is below the current block count, so that every unsafe instruction gets a check. | high (not executed) | ValidValuePass.TransformAsWritten, ValidValuePass.AsWrittenMissesSecondCheck | ValidValuePass.Transform, ValidValuePass.PassIntendedCounts |
| kani-compiler/src/kani_middle/transform/check_uninit/ty_layout.rs:285-300 | The variant masks of a tagged enum are generated over bytes `0..size`, but the variant chunks lie at `current_offset`. | The tuple `(u32, E)` with `enum E { A(u8), B(u16) }` at offset 4 and a 1-byte tag. Every variant mask is all padding, so the enum is accepted with variant `A`'s chunks. Bytes 6 and 7, which `B` uses, count as padding. On its own, `E` is rejected. | Compare the variant masks over the enum's own bytes, `current_offset..current_offset + size`. | high (not executed) | TyLayout.DataBytesForTy, TyLayout.TaggedEnumAtOffsetAsWritten | TyLayout.TaggedEnumFitsEveryVariant |
| kani-driver/src/call_cargo.rs:443-453 | When some `--package` names are not workspace members, the report lists the name of every requested package cargo knows, including those found in the workspace. | `--package a --package b`, where `a` is a workspace member and `b` is a package outside the workspace: the message says `a` and `b` were not found. | List only the requested packages that are not workspace members. | medium (not executed) | CallCargo.OuterNamesAsWritten, CallCargo.OuterNamesListsWorkspacePackages | CallCargo.OuterNames |
| kani-compiler/src/kani_middle/transform/check_values.rs:979-993 | In the arm for a tagged enum, the offset of a variant's field `field_idx` is read from `offsets`, the enum's own field offsets (line 949). For a tagged enum these hold only the tag, as the layout code of `ty_layout.rs` asserts. Any field index past 0 is out of bounds, and field 0 is placed at the tag's offset. | `enum E { A(u8, u8), B }`: the walk reaches `A`'s second field and indexes `offsets[1]`, which panics. | Read each field's offset from the variant's own layout, `variant.fields`. `E` is then accepted with the tag's requirement only. | medium (not executed) | CheckValues.TaggedFieldsAsWritten, CheckValues.TaggedEnumPanicsAsWritten | CheckValues.TaggedEnumValidity, CheckValues.TyValidityPerOffset |
