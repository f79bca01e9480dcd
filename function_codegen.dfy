/**
 * The per-function driver of the goto-program code generator: declaring a function
 * symbol, defining it once, declaring the MIR locals as goto variables, re-tupling a
 * "spread" argument, and the two coverage helpers (merging source regions and parsing
 * the textual form of a coverage counter).
 */
module FunctionCodegen {
  import opened Wrappers
  import opened Strings
  import opened Goto

  datatype Location = Builtin | InSource(line: nat) | NoLocation

  /** A symbol-table entry: a function (declared, or defined with a body) or a variable. */
  datatype SymbolValue =
    | FunctionSym(definition: Option<Stmt>)
    | VariableSym(isHidden: bool, isParameter: bool)

  datatype Symbol = Symbol(name: string, value: SymbolValue, location: Location)

  /**
   * What the code generator knows about one MIR local: its goto variable name, whether
   * the user wrote it, whether its type is zero-sized, and the initializer the
   * type-directed code chooses for its declaration.
   */
  datatype LocalDecl = LocalDecl(name: string, isUserVariable: bool, isZst: bool, defaultInit: Option<Expr>)

  /** The type of the spread argument: a tuple (with the zero-sizedness of each element) or not. */
  datatype SpreadShape = TupleOf(elemIsZst: seq<bool>) | NotATuple

  /**
   * A MIR body as seen by the driver: local 0 is the return place, locals 1..=numArgs
   * are the parameters, the rest are locals. `spreadName(lc)` is the name given to the
   * untupled parameter that stands for local `lc`.
   */
  datatype MirBody = MirBody(
    locals: seq<LocalDecl>,
    numArgs: nat,
    spreadArg: Option<nat>,
    spreadShape: SpreadShape,
    spreadTupleType: Type,
    isClosure: bool,
    spreadName: nat -> string)

  /**
   * What the source relies on rustc for: distinct variable names, a spread argument that
   * is a local, and (unless it is zero-sized) a tuple of a function that is not a closure.
   */
  predicate WellFormed(body: MirBody)
  {
    && (forall i, j :: 0 <= i < j < |body.locals| ==> body.locals[i].name != body.locals[j].name)
    && (body.spreadArg.Some? ==>
         && body.spreadArg.value < |body.locals|
         && (!body.locals[body.spreadArg.value].isZst ==> !body.isClosure && body.spreadShape.TupleOf?))
  }

  predicate IsArgIndex(body: MirBody, lc: nat) { 0 < lc <= body.numArgs }

  predicate IsSpread(body: MirBody, lc: nat) { body.spreadArg == Some(lc) }

  /** The symbol declared for local `lc`. */
  function VarSymbol(body: MirBody, lc: nat): Symbol
    requires lc < |body.locals|
  {
    var l := body.locals[lc];
    Symbol(l.name, VariableSym(!l.isUserVariable, IsArgIndex(body, lc) && !l.isZst), NoLocation)
  }

  /** `table` after inserting the symbols of the locals below `n` (the spread argument skipped), in index order. */
  function DeclareLocals(table: map<string, Symbol>, body: MirBody, n: nat): map<string, Symbol>
    requires n <= |body.locals|
  {
    if n == 0 then table
    else
      var prev := DeclareLocals(table, body, n - 1);
      if IsSpread(body, n - 1) then prev else prev[body.locals[n - 1].name := VarSymbol(body, n - 1)]
  }

  /**
   * With distinct local names, every local other than the spread argument ends up in
   * the table under its own name with its variable symbol, and every other entry is
   * the one the table had before.
   */
  lemma {:induction false} DeclareLocalsSpec(table: map<string, Symbol>, body: MirBody, n: nat)
    requires WellFormed(body) && n <= |body.locals|
    ensures forall lc :: 0 <= lc < n && !IsSpread(body, lc) ==>
      body.locals[lc].name in DeclareLocals(table, body, n)
      && DeclareLocals(table, body, n)[body.locals[lc].name] == VarSymbol(body, lc)
    ensures forall x :: x in DeclareLocals(table, body, n) && (forall lc :: 0 <= lc < n && !IsSpread(body, lc) ==> body.locals[lc].name != x) ==>
      x in table && DeclareLocals(table, body, n)[x] == table[x]
    ensures forall x :: x in table ==> x in DeclareLocals(table, body, n)
  {
    DeclareLocalsDeclares(table, body, n);
    DeclareLocalsKeeps(table, body, n);
  }

  /** Every local below `n` other than the spread argument is declared under its own name. */
  lemma {:induction false} DeclareLocalsDeclares(table: map<string, Symbol>, body: MirBody, n: nat)
    requires WellFormed(body) && n <= |body.locals|
    ensures forall lc :: 0 <= lc < n && !IsSpread(body, lc) ==>
      body.locals[lc].name in DeclareLocals(table, body, n)
      && DeclareLocals(table, body, n)[body.locals[lc].name] == VarSymbol(body, lc)
  {
    if n > 0 {
      DeclareLocalsDeclares(table, body, n - 1);
    }
  }

  /** Names no local below `n` declares keep their entry, and no entry of `table` is dropped. */
  lemma {:induction false} DeclareLocalsKeeps(table: map<string, Symbol>, body: MirBody, n: nat)
    requires n <= |body.locals|
    ensures forall x :: x in DeclareLocals(table, body, n) && (forall lc :: 0 <= lc < n && !IsSpread(body, lc) ==> body.locals[lc].name != x) ==>
      x in table && DeclareLocals(table, body, n)[x] == table[x]
    ensures forall x :: x in table ==> x in DeclareLocals(table, body, n)
  {
    if n > 0 {
      DeclareLocalsKeeps(table, body, n - 1);
    }
  }

  /** The parameter names recorded for the locals below `n`, in index order. */
  function ParamNames(body: MirBody, n: nat): seq<string>
    requires n <= |body.locals|
  {
    if n == 0 then []
    else
      var here := if !IsSpread(body, n - 1) && IsArgIndex(body, n - 1) then [body.locals[n - 1].name] else [];
      ParamNames(body, n - 1) + here
  }

  /** The declarations pushed for the locals below `n`, in index order. */
  function VarDecls(body: MirBody, n: nat): seq<Stmt>
    requires n <= |body.locals|
  {
    if n == 0 then []
    else
      var here := if !IsSpread(body, n - 1) && !IsArgIndex(body, n - 1)
        then [Decl(Sym(body.locals[n - 1].name), body.locals[n - 1].defaultInit)] else [];
      VarDecls(body, n - 1) + here
  }

  function AppendParams(params: map<string, seq<string>>, fnName: string, names: seq<string>): map<string, seq<string>>
  {
    if names == [] then params
    else params[fnName := (if fnName in params then params[fnName] else []) + names]
  }

  /** The parameter list of `fnName` extended with `x` (the source's `insert_parameter`). */
  function PushParam(params: map<string, seq<string>>, fnName: string, x: string): map<string, seq<string>>
  {
    params[fnName := (if fnName in params then params[fnName] else []) + [x]]
  }

  lemma {:induction false} AppendParamsSnoc(params: map<string, seq<string>>, fnName: string, names: seq<string>, x: string)
    ensures AppendParams(params, fnName, names + [x]) == PushParam(AppendParams(params, fnName, names), fnName, x)
  {
    var prior := if fnName in params then params[fnName] else [];
    assert names + [x] != [];
    if names != [] {
      assert prior + names + [x] == prior + (names + [x]);
    } else {
      assert names + [x] == [x];
    }
  }

  /** Every argument index other than the spread one is recorded, in order, and nothing else is. */
  lemma {:induction false} ParamNamesSpec(body: MirBody, n: nat)
    requires n <= |body.locals|
    ensures |ParamNames(body, n)| == |set lc | 0 <= lc < n && IsArgIndex(body, lc) && !IsSpread(body, lc)|
    ensures forall lc :: 0 <= lc < n && IsArgIndex(body, lc) && !IsSpread(body, lc) ==> body.locals[lc].name in ParamNames(body, n)
    ensures forall x :: x in ParamNames(body, n) ==>
      exists lc :: 0 <= lc < n && IsArgIndex(body, lc) && !IsSpread(body, lc) && body.locals[lc].name == x
  {
    ParamNamesCount(body, n);
    ParamNamesMembers(body, n);
  }

  /** One parameter name per argument local below `n` that is not the spread argument. */
  lemma {:induction false} ParamNamesCount(body: MirBody, n: nat)
    requires n <= |body.locals|
    ensures |ParamNames(body, n)| == |set lc | 0 <= lc < n && IsArgIndex(body, lc) && !IsSpread(body, lc)|
  {
    if n > 0 {
      ParamNamesCount(body, n - 1);
      var prev := set lc | 0 <= lc < n - 1 && IsArgIndex(body, lc) && !IsSpread(body, lc);
      var now := set lc | 0 <= lc < n && IsArgIndex(body, lc) && !IsSpread(body, lc);
      if IsArgIndex(body, n - 1) && !IsSpread(body, n - 1) {
        assert now == prev + {n - 1};
      } else {
        assert now == prev;
      }
    }
  }

  /** The parameter names below `n` are exactly the names of the argument locals below `n`. */
  lemma {:induction false} ParamNamesMembers(body: MirBody, n: nat)
    requires n <= |body.locals|
    ensures forall lc :: 0 <= lc < n && IsArgIndex(body, lc) && !IsSpread(body, lc) ==> body.locals[lc].name in ParamNames(body, n)
    ensures forall x :: x in ParamNames(body, n) ==>
      exists lc :: 0 <= lc < n && IsArgIndex(body, lc) && !IsSpread(body, lc) && body.locals[lc].name == x
  {
    if n > 0 {
      ParamNamesMembers(body, n - 1);
    }
  }

  /** A declaration is pushed exactly for the return place and the non-argument locals. */
  lemma {:induction false} VarDeclsSpec(body: MirBody, n: nat)
    requires n <= |body.locals|
    ensures forall lc :: 0 <= lc < n && !IsArgIndex(body, lc) && !IsSpread(body, lc) ==>
      Decl(Sym(body.locals[lc].name), body.locals[lc].defaultInit) in VarDecls(body, n)
    ensures forall s :: s in VarDecls(body, n) ==>
      exists lc :: 0 <= lc < n && !IsArgIndex(body, lc) && !IsSpread(body, lc)
        && s == Decl(Sym(body.locals[lc].name), body.locals[lc].defaultInit)
  {
    if n > 0 { VarDeclsSpec(body, n - 1); }
  }

  /** The fields of the re-tupled spread argument: field "i" holds the untupled parameter for local spread+i. */
  function SpreadFields(body: MirBody): (fields: map<string, Expr>)
    requires body.spreadArg.Some? && body.spreadShape.TupleOf?
    ensures forall i :: 0 <= i < |body.spreadShape.elemIsZst| ==>
      NatToString(i) in fields && fields[NatToString(i)] == Sym(body.spreadName(body.spreadArg.value + i))
  {
    NatToStringInjectiveAll();
    var fields := map i | 0 <= i < |body.spreadShape.elemIsZst| :: NatToString(i) := Sym(body.spreadName(body.spreadArg.value + i));
    fields
  }

  lemma {:induction false} NatToStringInjectiveAll()
    ensures forall m: nat, n: nat :: NatToString(m) == NatToString(n) ==> m == n
  {
    forall m: nat, n: nat | NatToString(m) == NatToString(n) ensures m == n { NatToStringInjective(m, n); }
  }

  /** The symbols inserted for the untupled spread parameters `spreadName(spread + i)`. */
  function SpreadSymbols(body: MirBody, n: nat): seq<Symbol>
    requires body.spreadArg.Some? && body.spreadShape.TupleOf? && n <= |body.spreadShape.elemIsZst|
  {
    if n == 0 then []
    else
      var sym := Symbol(body.spreadName(body.spreadArg.value + n - 1),
        VariableSym(false, !body.spreadShape.elemIsZst[n - 1]), NoLocation);
      SpreadSymbols(body, n - 1) + [sym]
  }

  function InsertAll(table: map<string, Symbol>, syms: seq<Symbol>): map<string, Symbol>
    decreases |syms|
  {
    if syms == [] then table else InsertAll(table[syms[0].name := syms[0]], syms[1..])
  }

  lemma {:induction false} InsertAllSnoc(table: map<string, Symbol>, syms: seq<Symbol>, s: Symbol)
    ensures InsertAll(table, syms + [s]) == InsertAll(table, syms)[s.name := s]
    decreases |syms|
  {
    if syms == [] {
      assert syms + [s] == [s];
    } else {
      assert (syms + [s])[1..] == syms[1..] + [s];
      InsertAllSnoc(table[syms[0].name := syms[0]], syms[1..], s);
    }
  }

  lemma {:induction false} InsertAllKeepsNames(table: map<string, Symbol>, syms: seq<Symbol>)
    requires forall n :: n in table ==> table[n].name == n
    ensures forall n :: n in InsertAll(table, syms) ==> InsertAll(table, syms)[n].name == n
    decreases |syms|
  {
    if syms != [] { InsertAllKeepsNames(table[syms[0].name := syms[0]], syms[1..]); }
  }

  /** The symbol table, the per-function parameter lists and the block under construction. */
  class GotocCtx {
    var symbols: map<string, Symbol>
    var parameters: map<string, seq<string>>
    var block: seq<Stmt>

    ghost predicate Valid() reads this
    {
      forall n :: n in symbols ==> symbols[n].name == n
    }

    constructor ()
      ensures Valid() && symbols == map[] && parameters == map[] && block == []
    {
      symbols := map[];
      parameters := map[];
      block := [];
    }

    method Insert(sym: Symbol)
      requires Valid()
      modifies this
      ensures Valid()
      ensures symbols == old(symbols)[sym.name := sym]
      ensures parameters == old(parameters) && block == old(block)
    {
      symbols := symbols[sym.name := sym];
    }

    /**
     * Inserts a fresh function declaration, or replaces an existing entry only when
     * that entry's location is builtin; otherwise the table is left unchanged.
     */
    method DeclareFunction(sym: Symbol)
      requires Valid() && sym.value == FunctionSym(None)
      modifies this
      ensures Valid()
      ensures sym.name !in old(symbols) ==> symbols == old(symbols)[sym.name := sym]
      ensures sym.name in old(symbols) && old(symbols)[sym.name].location.Builtin? ==>
        symbols == old(symbols)[sym.name := sym]
      ensures sym.name in old(symbols) && !old(symbols)[sym.name].location.Builtin? ==>
        symbols == old(symbols)
      ensures parameters == old(parameters) && block == old(block)
    {
      if sym.name !in symbols {
        Insert(sym);
      } else {
        var oldSym := symbols[sym.name];
        if oldSym.location.Builtin? {
          Insert(sym);
        }
      }
    }

    /**
     * Declares every local except the spread argument: one variable symbol each, the
     * argument locals recorded as parameters of `fnName`, and a declaration pushed
     * onto the current block for the return place and the non-argument locals.
     */
    method DeclareVariables(body: MirBody, fnName: string)
      requires Valid()
      modifies this
      ensures Valid()
      ensures symbols == DeclareLocals(old(symbols), body, |body.locals|)
      ensures parameters == AppendParams(old(parameters), fnName, ParamNames(body, |body.locals|))
      ensures block == old(block) + VarDecls(body, |body.locals|)
    {
      var lc := 0;
      while lc < |body.locals|
        invariant 0 <= lc <= |body.locals|
        invariant Valid()
        invariant symbols == DeclareLocals(old(symbols), body, lc)
        invariant parameters == AppendParams(old(parameters), fnName, ParamNames(body, lc))
        invariant block == old(block) + VarDecls(body, lc)
      {
        if IsSpread(body, lc) {
          assert ParamNames(body, lc + 1) == ParamNames(body, lc);
          lc := lc + 1;
          continue;
        }
        var l := body.locals[lc];
        var sym := VarSymbol(body, lc);
        Insert(sym);
        if !(0 < lc <= body.numArgs) {
          assert ParamNames(body, lc + 1) == ParamNames(body, lc);
        }
        if 0 < lc <= body.numArgs {
          assert ParamNames(body, lc + 1) == ParamNames(body, lc) + [l.name];
          AppendParamsSnoc(old(parameters), fnName, ParamNames(body, lc), l.name);
          parameters := PushParam(parameters, fnName, l.name);
        }
        if lc < 1 || lc > body.numArgs {
          block := block + [Decl(Sym(l.name), l.defaultInit)];
        }
        lc := lc + 1;
      }
    }

    /**
     * Re-tuples the spread argument: a zero-sized tuple needs nothing; otherwise each
     * element gets a parameter symbol, and the spread local is declared initialised with
     * the struct whose field "i" is the parameter for local spread+i.
     */
    method CodegenSpreadArg(body: MirBody)
      requires Valid() && WellFormed(body) && body.spreadArg.Some?
      modifies this
      ensures Valid() && parameters == old(parameters)
      ensures body.locals[body.spreadArg.value].isZst ==> symbols == old(symbols) && block == old(block)
      ensures !body.locals[body.spreadArg.value].isZst ==>
        var spread := body.locals[body.spreadArg.value];
        && symbols == InsertAll(old(symbols), SpreadSymbols(body, |body.spreadShape.elemIsZst|))
             [spread.name := Symbol(spread.name, VariableSym(!spread.isUserVariable, false), NoLocation)]
        && block == old(block) + [Decl(Sym(spread.name), Some(StructLit(body.spreadTupleType, SpreadFields(body))))]
    {
      var spreadArg := body.spreadArg.value;
      var spread := body.locals[spreadArg];
      if spread.isZst {
        return;
      }
      var elems := body.spreadShape.elemIsZst;
      var i := 0;
      while i < |elems|
        invariant 0 <= i <= |elems|
        invariant Valid() && parameters == old(parameters) && block == old(block)
        invariant symbols == InsertAll(old(symbols), SpreadSymbols(body, i))
      {
        var sym := Symbol(body.spreadName(spreadArg + i), VariableSym(false, !elems[i]), NoLocation);
        Insert(sym);
        InsertAllSnoc(old(symbols), SpreadSymbols(body, i), sym);
        i := i + 1;
      }
      var tuple := StructLit(body.spreadTupleType, SpreadFields(body));
      DeclareVariable(spread.name, !spread.isUserVariable, Some(tuple));
    }

    /** Inserts a local variable symbol and pushes its declaration. */
    method DeclareVariable(name: string, isHidden: bool, init: Option<Expr>)
      requires Valid()
      modifies this
      ensures Valid() && parameters == old(parameters)
      ensures symbols == old(symbols)[name := Symbol(name, VariableSym(isHidden, false), NoLocation)]
      ensures block == old(block) + [Decl(Sym(name), init)]
    {
      Insert(Symbol(name, VariableSym(isHidden, false), NoLocation));
      block := block + [Decl(Sym(name), init)];
    }

    /**
     * Defines the function `name` at most once. If the symbol already carries a
     * definition nothing changes; otherwise (it must then be a function) the prelude
     * and the local declarations are generated, followed by the lowered basic blocks
     * (`loweredBlocks`, produced by code outside this model), and the whole block
     * becomes the symbol's definition.
     */
    method CodegenFunction(body: MirBody, name: string, loweredBlocks: seq<Stmt>)
      requires Valid() && WellFormed(body)
      requires name in symbols && symbols[name].value.FunctionSym?
      modifies this
      ensures Valid()
      ensures old(symbols[name].value.definition.Some?) ==>
        symbols == old(symbols) && parameters == old(parameters) && block == old(block)
      ensures old(symbols[name].value.definition.None?) ==>
        && name in symbols
        && symbols[name] == Symbol(name, FunctionSym(Some(Block(
             FunctionPrelude(body) + VarDecls(body, |body.locals|) + loweredBlocks))), old(symbols[name].location))
        && parameters == AppendParams(old(parameters), name, ParamNames(body, |body.locals|))
        && block == []
    {
      var oldSym := symbols[name];
      if oldSym.value.definition.Some? {
        return;
      }
      block := [];
      if body.spreadArg.Some? {
        CodegenSpreadArg(body);
      }
      assert block == FunctionPrelude(body);
      DeclareVariables(body, name);
      assert block == FunctionPrelude(body) + VarDecls(body, |body.locals|);
      block := block + loweredBlocks;
      var stmts := block;
      block := [];
      Insert(Symbol(name, FunctionSym(Some(Block(stmts))), oldSym.location));
    }
  }

  /** The declaration the prelude emits: the re-tupled spread argument, when there is a non-zero-sized one. */
  function FunctionPrelude(body: MirBody): seq<Stmt>
    requires WellFormed(body)
  {
    if body.spreadArg.Some? && !body.locals[body.spreadArg.value].isZst then
      var spread := body.locals[body.spreadArg.value];
      [Decl(Sym(spread.name), Some(StructLit(body.spreadTupleType, SpreadFields(body))))]
    else []
  }

  /** A region of source text, 1-based lines and columns. */
  datatype SourceRegion = SourceRegion(startLine: nat, startCol: nat, endLine: nat, endCol: nat)

  function MinOf(s: seq<nat>): (m: nat)
    requires |s| > 0
    ensures m in s && forall k :: 0 <= k < |s| ==> m <= s[k]
  {
    if |s| == 1 then s[0] else var rest := MinOf(s[1..]); if s[0] <= rest then s[0] else rest
  }

  function MaxOf(s: seq<nat>): (m: nat)
    requires |s| > 0
    ensures m in s && forall k :: 0 <= k < |s| ==> s[k] <= m
  {
    if |s| == 1 then s[0] else var rest := MaxOf(s[1..]); if s[0] >= rest then s[0] else rest
  }

  function StartLines(rs: seq<SourceRegion>): (ls: seq<nat>)
    ensures |ls| == |rs| && forall k :: 0 <= k < |rs| ==> ls[k] == rs[k].startLine
  {
    seq(|rs|, k requires 0 <= k < |rs| => rs[k].startLine)
  }

  function EndLines(rs: seq<SourceRegion>): (ls: seq<nat>)
    ensures |ls| == |rs| && forall k :: 0 <= k < |rs| ==> ls[k] == rs[k].endLine
  {
    seq(|rs|, k requires 0 <= k < |rs| => rs[k].endLine)
  }

  /** The start columns of the regions that start on `line`, in order. */
  function StartColsOn(rs: seq<SourceRegion>, line: nat): (cols: seq<nat>)
    ensures forall k :: 0 <= k < |rs| && rs[k].startLine == line ==> rs[k].startCol in cols
    ensures forall c :: c in cols ==> exists k :: 0 <= k < |rs| && rs[k].startLine == line && rs[k].startCol == c
  {
    if rs == [] then []
    else
      var here := if rs[0].startLine == line then [rs[0].startCol] else [];
      var rest := StartColsOn(rs[1..], line);
      assert forall k :: 1 <= k < |rs| ==> rs[k] == rs[1..][k - 1];
      here + rest
  }

  /** The end columns of the regions that end on `line`, in order. */
  function EndColsOn(rs: seq<SourceRegion>, line: nat): (cols: seq<nat>)
    ensures forall k :: 0 <= k < |rs| && rs[k].endLine == line ==> rs[k].endCol in cols
    ensures forall c :: c in cols ==> exists k :: 0 <= k < |rs| && rs[k].endLine == line && rs[k].endCol == c
  {
    if rs == [] then []
    else
      var here := if rs[0].endLine == line then [rs[0].endCol] else [];
      var rest := EndColsOn(rs[1..], line);
      assert forall k :: 1 <= k < |rs| ==> rs[k] == rs[1..][k - 1];
      here + rest
  }

  /**
   * The smallest region covering a non-empty list of regions: it starts at the earliest
   * line, at the smallest column among the regions starting there, and ends at the
   * latest line, at the largest column among the regions ending there.
   */
  function MergeSourceRegion(rs: seq<SourceRegion>): (r: SourceRegion)
    requires |rs| > 0
  {
    var startLine := MinOf(StartLines(rs));
    var endLine := MaxOf(EndLines(rs));
    var startCols := StartColsOn(rs, startLine);
    var endCols := EndColsOn(rs, endLine);
    if startCols == [] || endCols == [] then
      // cannot happen: some region starts on the earliest line and some ends on the latest
      rs[0]
    else
      SourceRegion(startLine, MinOf(startCols), endLine, MaxOf(endCols))
  }

  predicate StartsAt(r: SourceRegion, m: SourceRegion) { r.startLine == m.startLine && r.startCol == m.startCol }

  predicate EndsAt(r: SourceRegion, m: SourceRegion) { r.endLine == m.endLine && r.endCol == m.endCol }

  /** The merged region starts where some region starts and ends where some region ends. */
  lemma {:induction false} MergeSourceRegionAttained(rs: seq<SourceRegion>)
    requires |rs| > 0
    ensures exists k :: 0 <= k < |rs| && StartsAt(rs[k], MergeSourceRegion(rs))
    ensures exists k :: 0 <= k < |rs| && EndsAt(rs[k], MergeSourceRegion(rs))
  {
    MergeNonEmptyCols(rs);
    var r := MergeSourceRegion(rs);
    var startCols := StartColsOn(rs, r.startLine);
    var endCols := EndColsOn(rs, r.endLine);
    assert r.startCol in startCols;
    assert r.endCol in endCols;
  }

  /** The merged region covers every region: none starts before it or ends after it. */
  lemma {:induction false} MergeSourceRegionCovers(rs: seq<SourceRegion>, k: nat)
    requires k < |rs|
    ensures MergeSourceRegion(rs).startLine <= rs[k].startLine
    ensures rs[k].startLine == MergeSourceRegion(rs).startLine ==> MergeSourceRegion(rs).startCol <= rs[k].startCol
    ensures rs[k].endLine <= MergeSourceRegion(rs).endLine
    ensures rs[k].endLine == MergeSourceRegion(rs).endLine ==> rs[k].endCol <= MergeSourceRegion(rs).endCol
  {
    MergeNonEmptyCols(rs);
    var r := MergeSourceRegion(rs);
    assert StartLines(rs)[k] == rs[k].startLine;
    assert EndLines(rs)[k] == rs[k].endLine;
    if rs[k].startLine == r.startLine {
      assert rs[k].startCol in StartColsOn(rs, r.startLine);
    }
    if rs[k].endLine == r.endLine {
      assert rs[k].endCol in EndColsOn(rs, r.endLine);
    }
  }

  lemma {:induction false} MergeNonEmptyCols(rs: seq<SourceRegion>)
    requires |rs| > 0
    ensures StartColsOn(rs, MinOf(StartLines(rs))) != []
    ensures EndColsOn(rs, MaxOf(EndLines(rs))) != []
  {
    var sl := MinOf(StartLines(rs));
    var i :| 0 <= i < |rs| && StartLines(rs)[i] == sl;
    assert rs[i].startCol in StartColsOn(rs, sl);
    var el := MaxOf(EndLines(rs));
    var j :| 0 <= j < |rs| && EndLines(rs)[j] == el;
    assert rs[j].endCol in EndColsOn(rs, el);
  }

  /** A coverage mapping: its counter and the source region the source map gives for its span, if any. */
  datatype Mapping = Mapping(bcb: nat, region: Option<SourceRegion>)

  /** Mapping `k` is one of counter `bcb` and has a region. */
  predicate Covers(mappings: seq<Mapping>, bcb: nat, k: int)
  {
    0 <= k < |mappings| && mappings[k].bcb == bcb && mappings[k].region.Some?
  }

  function MatchingRegions(mappings: seq<Mapping>, bcb: nat): (rs: seq<SourceRegion>)
    ensures forall k :: Covers(mappings, bcb, k) ==> mappings[k].region.value in rs
    ensures forall r :: r in rs ==> exists k :: Covers(mappings, bcb, k) && mappings[k].region.value == r
  {
    if mappings == [] then []
    else
      var here := if mappings[0].bcb == bcb && mappings[0].region.Some? then [mappings[0].region.value] else [];
      var rest := MatchingRegions(mappings[1..], bcb);
      assert forall k :: 1 <= k < |mappings| ==> mappings[k] == mappings[1..][k - 1];
      assert forall k :: Covers(mappings[1..], bcb, k) ==> Covers(mappings, bcb, k + 1);
      here + rest
  }

  /**
   * The region of counter `bcb`: none when the body carries no coverage information or
   * no mapping of that counter has a region, else the merge of all such regions.
   */
  function RegionFromCoverage(coverageInfo: Option<seq<Mapping>>, bcb: nat): (r: Option<SourceRegion>)
    ensures r.None? <==> coverageInfo.None? || forall k :: !Covers(coverageInfo.value, bcb, k)
  {
    match coverageInfo {
      case None => None
      case Some(mappings) =>
        var rs := MatchingRegions(mappings, bcb);
        if rs == [] then None
        else
          assert rs[0] in rs;
          Some(MergeSourceRegion(rs))
    }
  }

  /** The region found for a counter covers the region of every mapping of that counter. */
  lemma {:induction false} RegionFromCoverageCovers(mappings: seq<Mapping>, bcb: nat, k: nat)
    requires Covers(mappings, bcb, k)
    ensures RegionFromCoverage(Some(mappings), bcb).Some?
    ensures RegionFromCoverage(Some(mappings), bcb).value.startLine <= mappings[k].region.value.startLine
    ensures mappings[k].region.value.endLine <= RegionFromCoverage(Some(mappings), bcb).value.endLine
  {
    var rs := MatchingRegions(mappings, bcb);
    var j :| 0 <= j < |rs| && rs[j] == mappings[k].region.value;
    MergeSourceRegionCovers(rs, j);
  }

  const COUNTER_PREFIX: string := "VirtualCounter(bcb"

  /**
   * The counter number in the textual form of a coverage statement,
   * "VirtualCounter(bcbN)…"; `None` stands for the panics of the source (a different
   * prefix, no closing parenthesis, or a number that is not a u32).
   */
  function ParseCoverageOpaque(s: string): (r: Option<nat>)
    ensures r.Some? ==> COUNTER_PREFIX <= s && r.value < U32_LIMIT
  {
    if COUNTER_PREFIX <= s then
      var rest := s[|COUNTER_PREFIX|..];
      match FindChar(rest, ')') {
        case None => None
        case Some(i) => ParseU32(rest[..i])
      }
    else None
  }

  /** The textual form of the coverage statement for counter `n`. */
  function CounterText(n: nat): string
  {
    COUNTER_PREFIX + NatToString(n) + ")"
  }

  lemma {:induction false} ParseCoverageOpaqueRoundTrip(n: nat, tail: string)
    requires n < U32_LIMIT
    ensures ParseCoverageOpaque(CounterText(n) + tail) == Some(n)
  {
    var s := CounterText(n) + tail;
    var digits := NatToString(n);
    var rest := s[|COUNTER_PREFIX|..];
    assert COUNTER_PREFIX <= s;
    assert rest == digits + ")" + tail;
    assert forall k :: 0 <= k < |digits| ==> digits[k] != ')';
    assert rest[|digits|] == ')';
    assert rest[..|digits|] == digits;
    assert FindChar(rest, ')') == Some(|digits|);
    ParseU32OfNatToString(n);
  }
}
