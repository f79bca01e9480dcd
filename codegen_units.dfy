/**
 * Grouping of verification harnesses into codegen units: harnesses that use the same stubs
 * and contracts are compiled together, stubs are closed under transitivity (with cycle
 * detection), automatically generated harnesses each get a unit of their own, and the
 * per-harness metadata is updated as code generation discovers modifies clauses and loop
 * contracts.
 *
 * Compiler queries (the harnesses of the crate, their stub maps and contract usages, the
 * generated metadata, the eligibility facts that need a function body) are inputs.
 */
module CodegenUnits {
  import opened Wrappers
  import Strings

  type Harness = nat
  type FnDef = nat

  /** Which function is replaced by which. */
  type Stubs = map<FnDef, FnDef>

  datatype CodegenUnit = CodegenUnit(harnesses: seq<Harness>, stubs: Stubs)

  datatype HarnessKind = Proof | ProofForContract(targetFn: string) | Test

  /** Proof harnesses, with or without a contract, are verified; test harnesses are not. */
  predicate IsProofHarness(kind: HarnessKind) { !kind.Test? }

  /** The assigns contract recorded for a harness (its content is opaque here). */
  datatype AssignsContract = AssignsContract(id: nat)

  datatype HarnessMetadata = HarnessMetadata(
    prettyName: string,
    kind: HarnessKind,
    verifiedStubs: seq<string>,
    isAutomaticallyGenerated: bool,
    hasLoopContracts: bool,
    contract: Option<AssignsContract>)

  datatype ReachabilityType = Harnesses | AllFns | OtherReachability

  // ---------------------------------------------------------------------------
  // Stub transitivity
  // ---------------------------------------------------------------------------

  /** `f` after `n` replacements, stopping at a function that is not stubbed. */
  function Iter(stubs: Stubs, f: FnDef, n: nat): FnDef
    decreases n
  {
    if n == 0 || f !in stubs then f else Iter(stubs, stubs[f], n - 1)
  }

  lemma {:induction false} IterSucc(stubs: Stubs, f: FnDef, k: nat)
    ensures Iter(stubs, f, k + 1) == if Iter(stubs, f, k) in stubs then stubs[Iter(stubs, f, k)] else Iter(stubs, f, k)
    decreases k
  {
    if k > 0 && f in stubs {
      IterSucc(stubs, stubs[f], k - 1);
    }
  }

  lemma {:induction false} IterAdd(stubs: Stubs, f: FnDef, a: nat, b: nat)
    ensures Iter(stubs, f, a + b) == Iter(stubs, Iter(stubs, f, a), b)
    decreases a
  {
    if a > 0 && f in stubs {
      IterAdd(stubs, stubs[f], a - 1, b);
    } else if a > 0 {
      assert Iter(stubs, f, a) == f;
      IterFixed(stubs, f, b);
      IterFixed(stubs, f, a + b);
    }
  }

  lemma {:induction false} IterFixed(stubs: Stubs, f: FnDef, n: nat)
    requires f !in stubs
    ensures Iter(stubs, f, n) == f
  {
  }

  /**
   * The inner walk of `apply_transitivity`: follow the stubs from `cur`, remembering every
   * stub seen; stop at a function that is not stubbed, or, on meeting a stub seen before,
   * report a cycle and keep the current function.
   */
  function Walk(stubs: Stubs, cur: FnDef, visited: set<FnDef>): (r: (FnDef, bool))
    requires visited <= stubs.Values
    decreases |stubs.Values - visited|
  {
    if cur !in stubs then (cur, false)
    else
      var stub := stubs[cur];
      if stub in visited then (cur, true)
      else
        assert stubs.Values - (visited + {stub}) < stubs.Values - visited;
        Walk(stubs, stub, visited + {stub})
  }

  /** A walk that reports no cycle ends at a function that is not stubbed, reachable from where it started. */
  lemma {:induction false} WalkEndsUnstubbed(stubs: Stubs, cur: FnDef, visited: set<FnDef>)
    requires visited <= stubs.Values
    ensures !Walk(stubs, cur, visited).1 ==> Walk(stubs, cur, visited).0 !in stubs
    ensures exists n: nat :: Iter(stubs, cur, n) == Walk(stubs, cur, visited).0
    decreases |stubs.Values - visited|
  {
    if cur !in stubs {
      assert Iter(stubs, cur, 0) == cur;
    } else {
      var stub := stubs[cur];
      if stub in visited {
        assert Iter(stubs, cur, 0) == cur;
      } else {
        assert stubs.Values - (visited + {stub}) < stubs.Values - visited;
        WalkEndsUnstubbed(stubs, stub, visited + {stub});
        var n: nat :| Iter(stubs, stub, n) == Walk(stubs, stub, visited + {stub}).0;
        assert Iter(stubs, cur, n + 1) == Iter(stubs, stub, n);
      }
    }
  }

  /** The chain from `f` is periodic from `j` on with period `p`, so it stays among its first `k + 1` entries. */
  lemma {:induction false} PeriodicChain(stubs: Stubs, f: FnDef, j: nat, k: nat, n: nat)
    requires 1 <= j <= k && Iter(stubs, f, k + 1) == Iter(stubs, f, j)
    requires forall m: nat :: m <= k ==> Iter(stubs, f, m) in stubs
    ensures Iter(stubs, f, n) in stubs
    decreases n
  {
    if n > k {
      var p := k + 1 - j;
      IterAdd(stubs, f, k + 1, n - (k + 1));
      IterAdd(stubs, f, j, n - (k + 1));
      assert Iter(stubs, f, n) == Iter(stubs, f, n - p);
      PeriodicChain(stubs, f, j, k, n - p);
    }
  }

  /** `g` is reached from `f` after between 1 and `k` replacements. */
  ghost predicate ReachedWithin(stubs: Stubs, f: FnDef, k: nat, g: FnDef)
  {
    exists j: nat :: 1 <= j <= k && Iter(stubs, f, j) == g
  }

  /**
   * The walk from `f` has taken `k` steps, reaching `cur`, and `visited` holds the
   * functions it reached after its first step. If it then reports a cycle, the chain from
   * `f` really never reaches a function without a stub.
   */
  lemma {:induction false} CycleIsReal(stubs: Stubs, f: FnDef, cur: FnDef, visited: set<FnDef>, k: nat)
    requires visited <= stubs.Values
    requires cur == Iter(stubs, f, k)
    requires forall m: nat :: m < k ==> Iter(stubs, f, m) in stubs
    requires forall g :: g in visited ==> ReachedWithin(stubs, f, k, g)
    ensures Walk(stubs, cur, visited).1 ==> forall n: nat :: Iter(stubs, f, n) in stubs
    decreases |stubs.Values - visited|
  {
    if cur in stubs {
      var stub := stubs[cur];
      IterSucc(stubs, f, k);
      assert stub == Iter(stubs, f, k + 1);
      if stub in visited {
        var j: nat :| 1 <= j <= k && Iter(stubs, f, j) == stub;
        forall n: nat
          ensures Iter(stubs, f, n) in stubs
        {
          PeriodicChain(stubs, f, j, k, n);
        }
      } else {
        assert stubs.Values - (visited + {stub}) < stubs.Values - visited;
        forall g | g in visited + {stub}
          ensures ReachedWithin(stubs, f, k + 1, g)
        {
          if g == stub {
            assert Iter(stubs, f, k + 1) == g;
          } else {
            var j: nat :| 1 <= j <= k && Iter(stubs, f, j) == g;
            assert 1 <= j <= k + 1;
          }
        }
        CycleIsReal(stubs, f, stub, visited + {stub}, k + 1);
      }
    }
  }

  /**
   * A cycle is reported exactly when the stub chain from `f` never reaches a function
   * that is not stubbed; otherwise the walk ends at the first such function on the chain.
   */
  lemma {:induction false} WalkCycleIff(stubs: Stubs, f: FnDef)
    ensures Walk(stubs, f, {}).1 <==> forall n: nat :: Iter(stubs, f, n) in stubs
    ensures !Walk(stubs, f, {}).1 ==> Walk(stubs, f, {}).0 !in stubs
  {
    CycleIsReal(stubs, f, f, {}, 0);
    WalkEndsUnstubbed(stubs, f, {});
    if !Walk(stubs, f, {}).1 {
      var n: nat :| Iter(stubs, f, n) == Walk(stubs, f, {}).0;
      assert Iter(stubs, f, n) !in stubs;
    }
  }

  /** Every stubbed function, mapped to the end of its stub chain. */
  function Transitive(stubs: Stubs): (r: Stubs)
    ensures r.Keys == stubs.Keys
  {
    map orig | orig in stubs :: Walk(stubs, stubs[orig], {}).0
  }

  /** The inner loop of `apply_transitivity`: follow the stubs from `start`, remembering every stub seen. */
  method FollowStubs(stubs: Stubs, start: FnDef) returns (newFn: FnDef, cycle: bool)
    ensures (newFn, cycle) == Walk(stubs, start, {})
  {
    newFn := start;
    cycle := false;
    var visited: set<FnDef> := {};
    while newFn in stubs
      invariant visited <= stubs.Values
      invariant Walk(stubs, newFn, visited) == Walk(stubs, start, {})
      decreases |stubs.Values - visited|
    {
      var stub := stubs[newFn];
      if stub in visited {
        cycle := true;
        return;
      }
      assert stubs.Values - (visited + {stub}) < stubs.Values - visited;
      visited := visited + {stub};
      newFn := stub;
    }
  }

  /**
   * `apply_transitivity`: every stubbed function is mapped to the end of its stub chain,
   * and the functions whose chain has a cycle are reported (their walk stops there).
   */
  method ApplyTransitivity(stubs: Stubs) returns (newStubs: Stubs, cycles: set<FnDef>)
    ensures newStubs == Transitive(stubs)
    ensures forall orig :: orig in cycles <==> orig in stubs && Walk(stubs, stubs[orig], {}).1
  {
    newStubs := map[];
    cycles := {};
    var todo := stubs.Keys;
    while todo != {}
      invariant forall o :: o in todo ==> o in stubs
      invariant forall o :: o in newStubs <==> o in stubs && o !in todo
      invariant forall o :: o in newStubs ==> newStubs[o] == Walk(stubs, stubs[o], {}).0
      invariant forall o :: o in cycles <==> o in newStubs && Walk(stubs, stubs[o], {}).1
      decreases |todo|
    {
      var orig :| orig in todo;
      var newFn, cycle := FollowStubs(stubs, stubs[orig]);
      if cycle {
        cycles := cycles + {orig};
      }
      newStubs := newStubs[orig := newFn];
      todo := todo - {orig};
    }
  }

  // ---------------------------------------------------------------------------
  // Grouping harnesses into units
  // ---------------------------------------------------------------------------

  datatype ContractUsage = StubUsage(stubId: nat) | CheckUsage(checkId: nat)

  /**
   * `extract_contracts`: the function a contract harness checks and the verified stubs a
   * harness uses, each only when the name resolves (`resolve` stands for the resolver).
   */
  function ExtractContracts(md: HarnessMetadata, resolve: map<string, nat>): (r: set<ContractUsage>)
    ensures forall id :: CheckUsage(id) in r <==> md.kind.ProofForContract? && md.kind.targetFn in resolve && resolve[md.kind.targetFn] == id
    ensures forall id :: StubUsage(id) in r <==> exists s :: s in md.verifiedStubs && s in resolve && resolve[s] == id
  {
    (if md.kind.ProofForContract? && md.kind.targetFn in resolve then {CheckUsage(resolve[md.kind.targetFn])} else {})
    + set s | s in md.verifiedStubs && s in resolve :: StubUsage(resolve[s])
  }

  /** What makes two harnesses share a unit: their contract usages and their stubs. */
  datatype UnitKey = UnitKey(contracts: set<ContractUsage>, stubs: Stubs)

  /** The key of each harness, from the stub map and contract usages the compiler computes for it. */
  type HarnessConfig = map<Harness, UnitKey>

  predicate Configured(config: HarnessConfig, harnesses: seq<Harness>)
  {
    forall h :: h in harnesses ==> h in config
  }

  function KeyOf(config: HarnessConfig, h: Harness): UnitKey
    requires h in config
  {
    config[h]
  }

  predicate Distinct<T(==)>(s: seq<T>)
  {
    forall i, j :: 0 <= i < j < |s| ==> s[i] != s[j]
  }

  /** The unit of `key` lists exactly the harnesses with that key, in order, and its stubs are those of its first harness, made transitive. */
  ghost predicate UnitOfKey(config: HarnessConfig, harnesses: seq<Harness>, key: UnitKey, unit: CodegenUnit)
    requires Configured(config, harnesses)
  {
    && (forall h :: h in unit.harnesses <==> h in harnesses && KeyOf(config, h) == key)
    && Distinct(unit.harnesses)
    && |unit.harnesses| > 0
    && unit.stubs == Transitive(key.stubs)
  }

  /** The units as a map from key: every harness's key has its unit. */
  ghost predicate GroupedBy(config: HarnessConfig, harnesses: seq<Harness>, perStubs: map<UnitKey, CodegenUnit>)
    requires Configured(config, harnesses)
  {
    && (forall h :: h in harnesses ==> KeyOf(config, h) in perStubs)
    && forall key :: key in perStubs ==> UnitOfKey(config, harnesses, key, perStubs[key])
  }

  /** `orig` is stubbed for harness `h` and its stub chain has a cycle. */
  predicate CycleAt(config: HarnessConfig, h: Harness, orig: FnDef)
  {
    h in config && orig in config[h].stubs && Walk(config[h].stubs, config[h].stubs[orig], {}).1
  }

  /** `h` is the harness that started the unit of its key, and so the one stub cycles are reported against. */
  predicate FirstOfUnit(config: HarnessConfig, perStubs: map<UnitKey, CodegenUnit>, h: Harness)
  {
    h in config && config[h] in perStubs && |perStubs[config[h]].harnesses| > 0 && perStubs[config[h]].harnesses[0] == h
  }

  /**
   * The first loop of `group_by_stubs`: each harness joins the unit of its key, or starts
   * one with its stubs made transitive; the stub cycles `apply_transitivity` reports are
   * returned against the harness that started the unit.
   */
  method UnitsByKey(config: HarnessConfig, harnesses: seq<Harness>)
    returns (perStubs: map<UnitKey, CodegenUnit>, cycleErrors: set<(Harness, FnDef)>)
    requires Configured(config, harnesses) && Distinct(harnesses)
    ensures GroupedBy(config, harnesses, perStubs)
    ensures forall h: Harness, orig: FnDef :: (h, orig) in cycleErrors <==>
      h in harnesses && FirstOfUnit(config, perStubs, h) && CycleAt(config, h, orig)
  {
    perStubs := map[];
    cycleErrors := {};
    for n := 0 to |harnesses|
      invariant GroupedBy(config, harnesses[..n], perStubs)
      invariant forall h: Harness, orig: FnDef :: (h, orig) in cycleErrors <==>
        h in harnesses[..n] && FirstOfUnit(config, perStubs, h) && CycleAt(config, h, orig)
    {
      var harness := harnesses[n];
      var key := KeyOf(config, harness);
      ghost var prev := perStubs;
      ghost var prevErrors := cycleErrors;
      if key in perStubs {
        var unit := perStubs[key];
        perStubs := perStubs[key := unit.(harnesses := unit.harnesses + [harness])];
      } else {
        var stubs, cycles := ApplyTransitivity(key.stubs);
        perStubs := perStubs[key := CodegenUnit([harness], stubs)];
        cycleErrors := cycleErrors + set orig | orig in cycles :: (harness, orig);
      }
      GroupedByStep(config, harnesses, n, prev, perStubs);
      CycleErrorsStep(config, harnesses, n, prev, perStubs, prevErrors, cycleErrors);
    }
    assert harnesses[..|harnesses|] == harnesses;
  }

  /** One step of the first loop of `group_by_stubs` keeps the cycle errors reported against the units' first harnesses. */
  lemma {:induction false} CycleErrorsStep(config: HarnessConfig, harnesses: seq<Harness>, n: nat,
                                           prev: map<UnitKey, CodegenUnit>, next: map<UnitKey, CodegenUnit>,
                                           prevErrors: set<(Harness, FnDef)>, nextErrors: set<(Harness, FnDef)>)
    requires Configured(config, harnesses) && Distinct(harnesses) && n < |harnesses|
    requires GroupedBy(config, harnesses[..n], prev)
    requires forall h: Harness, orig: FnDef :: (h, orig) in prevErrors <==>
      h in harnesses[..n] && FirstOfUnit(config, prev, h) && CycleAt(config, h, orig)
    requires var key := KeyOf(config, harnesses[n]);
      && next == prev[key := if key in prev then prev[key].(harnesses := prev[key].harnesses + [harnesses[n]])
                             else CodegenUnit([harnesses[n]], Transitive(key.stubs))]
      && nextErrors == if key in prev then prevErrors
                       else prevErrors + set orig | orig in key.stubs && Walk(key.stubs, key.stubs[orig], {}).1 :: (harnesses[n], orig)
    ensures forall h: Harness, orig: FnDef :: (h, orig) in nextErrors <==>
      h in harnesses[..n + 1] && FirstOfUnit(config, next, h) && CycleAt(config, h, orig)
  {
    var harness := harnesses[n];
    var key := KeyOf(config, harness);
    assert harnesses[..n + 1] == harnesses[..n] + [harness];
    assert harness !in harnesses[..n];
    forall h | h in harnesses[..n]
      ensures FirstOfUnit(config, next, h) == FirstOfUnit(config, prev, h)
    {
      assert KeyOf(config, h) in prev;
    }
    if key in prev {
      assert UnitOfKey(config, harnesses[..n], key, prev[key]);
      assert prev[key].harnesses[0] in prev[key].harnesses;
      assert !FirstOfUnit(config, next, harness);
    }
  }

  /** One step of the first loop of `group_by_stubs` keeps the grouping. */
  lemma {:induction false} GroupedByStep(config: HarnessConfig, harnesses: seq<Harness>, n: nat, prev: map<UnitKey, CodegenUnit>, next: map<UnitKey, CodegenUnit>)
    requires Configured(config, harnesses) && Distinct(harnesses) && n < |harnesses|
    requires GroupedBy(config, harnesses[..n], prev)
    requires var key := KeyOf(config, harnesses[n]);
      next == prev[key := if key in prev then prev[key].(harnesses := prev[key].harnesses + [harnesses[n]])
                          else CodegenUnit([harnesses[n]], Transitive(key.stubs))]
    ensures GroupedBy(config, harnesses[..n + 1], next)
  {
    var harness := harnesses[n];
    var key := KeyOf(config, harness);
    assert harnesses[..n + 1] == harnesses[..n] + [harness];
    assert harness !in harnesses[..n];
    forall k | k in next
      ensures UnitOfKey(config, harnesses[..n + 1], k, next[k])
    {
      if k == key && key in prev {
        var hs := prev[key].harnesses;
        assert Distinct(hs + [harness]) by {
          forall i, j | 0 <= i < j < |hs| + 1 ensures (hs + [harness])[i] != (hs + [harness])[j] {
            if j == |hs| {
              assert hs[i] in hs;
            }
          }
        }
      }
    }
  }

  /** The units of a map from key, in some order, with the key of each. */
  method UnitsOf(perStubs: map<UnitKey, CodegenUnit>) returns (units: seq<CodegenUnit>, ghost keys: seq<UnitKey>)
    ensures |keys| == |units| && Distinct(keys)
    ensures forall i :: 0 <= i < |keys| ==> keys[i] in perStubs && units[i] == perStubs[keys[i]]
    ensures forall key :: key in perStubs ==> key in keys
  {
    units, keys := [], [];
    var todo := perStubs.Keys;
    while todo != {}
      invariant todo <= perStubs.Keys
      invariant |keys| == |units| && Distinct(keys)
      invariant forall i :: 0 <= i < |keys| ==> keys[i] in perStubs && keys[i] !in todo && units[i] == perStubs[keys[i]]
      invariant forall key :: key in perStubs && key !in todo ==> key in keys
      decreases |todo|
    {
      var key :| key in todo;
      units := units + [perStubs[key]];
      keys := keys + [key];
      todo := todo - {key};
    }
  }

  /**
   * `group_by_stubs`: harnesses are visited in the given order (the source's map order);
   * each one joins the unit of its key, or starts a new unit with its stubs made
   * transitive. Every harness ends up in exactly one unit, two harnesses share a unit iff
   * they have the same key, and a unit's stubs are those of every harness in it. A stub
   * cycle is reported, against the unit's first harness, exactly for the stubbed functions
   * whose chain has one.
   */
  method GroupByStubs(config: HarnessConfig, harnesses: seq<Harness>)
    returns (units: seq<CodegenUnit>, cycleErrors: set<(Harness, FnDef)>)
    requires Configured(config, harnesses) && Distinct(harnesses)
    ensures forall i, h :: 0 <= i < |units| && h in units[i].harnesses ==> h in harnesses
    ensures forall h :: h in harnesses ==> exists i :: 0 <= i < |units| && h in units[i].harnesses
    ensures forall i, j, h, g :: 0 <= i < |units| && 0 <= j < |units| && h in units[i].harnesses && g in units[j].harnesses ==>
      (i == j <==> KeyOf(config, h) == KeyOf(config, g))
    ensures forall i, h :: 0 <= i < |units| && h in units[i].harnesses ==> units[i].stubs == Transitive(KeyOf(config, h).stubs)
    ensures forall i :: 0 <= i < |units| ==> Distinct(units[i].harnesses) && |units[i].harnesses| > 0
    ensures forall e :: e in cycleErrors ==>
      e.0 in harnesses && CycleAt(config, e.0, e.1) && exists i :: 0 <= i < |units| && units[i].harnesses[0] == e.0
    ensures forall i, orig: FnDef :: 0 <= i < |units| && CycleAt(config, units[i].harnesses[0], orig) ==>
      (units[i].harnesses[0], orig) in cycleErrors
  {
    var perStubs;
    perStubs, cycleErrors := UnitsByKey(config, harnesses);
    ghost var keys;
    units, keys := UnitsOf(perStubs);
    forall i, h | 0 <= i < |units| && h in units[i].harnesses
      ensures h in harnesses && KeyOf(config, h) == keys[i]
    {
      assert UnitOfKey(config, harnesses, keys[i], perStubs[keys[i]]);
    }
    forall h | h in harnesses
      ensures exists i :: 0 <= i < |units| && h in units[i].harnesses
    {
      var key := KeyOf(config, h);
      var i :| 0 <= i < |keys| && keys[i] == key;
      assert UnitOfKey(config, harnesses, key, perStubs[key]);
    }
    GroupCyclesReported(config, harnesses, perStubs, units, keys, cycleErrors);
  }

  /** The cycle errors of the first loop, read off the units in the order `UnitsOf` lists them. */
  lemma {:induction false} GroupCyclesReported(config: HarnessConfig, harnesses: seq<Harness>, perStubs: map<UnitKey, CodegenUnit>,
                                               units: seq<CodegenUnit>, keys: seq<UnitKey>, cycleErrors: set<(Harness, FnDef)>)
    requires Configured(config, harnesses) && GroupedBy(config, harnesses, perStubs)
    requires forall h: Harness, orig: FnDef :: (h, orig) in cycleErrors <==>
      h in harnesses && FirstOfUnit(config, perStubs, h) && CycleAt(config, h, orig)
    requires |keys| == |units| && forall i :: 0 <= i < |keys| ==> keys[i] in perStubs && units[i] == perStubs[keys[i]]
    requires forall key :: key in perStubs ==> key in keys
    ensures forall i :: 0 <= i < |units| ==> |units[i].harnesses| > 0
    ensures forall e :: e in cycleErrors ==>
      e.0 in harnesses && CycleAt(config, e.0, e.1) && exists i :: 0 <= i < |units| && units[i].harnesses[0] == e.0
    ensures forall i, orig: FnDef :: 0 <= i < |units| && CycleAt(config, units[i].harnesses[0], orig) ==>
      (units[i].harnesses[0], orig) in cycleErrors
  {
    forall i | 0 <= i < |units|
      ensures |units[i].harnesses| > 0
    {
      assert UnitOfKey(config, harnesses, keys[i], perStubs[keys[i]]);
    }
    forall e | e in cycleErrors
      ensures exists i :: 0 <= i < |units| && units[i].harnesses[0] == e.0
    {
      var key := KeyOf(config, e.0);
      assert key in keys;
      var i :| 0 <= i < |keys| && keys[i] == key;
      assert units[i].harnesses[0] == e.0;
    }
    forall i, orig: FnDef | 0 <= i < |units| && CycleAt(config, units[i].harnesses[0], orig)
      ensures (units[i].harnesses[0], orig) in cycleErrors
    {
      assert UnitOfKey(config, harnesses, keys[i], perStubs[keys[i]]);
      assert units[i].harnesses[0] in units[i].harnesses;
    }
  }

  /**
   * `validate_units`: every stub pair of every unit is checked for compatibility
   * (`compat` stands for the compiler's check and returns its error message); each error
   * is reported against the first harness of its unit. Compilation stops iff there is one.
   */
  function ValidateUnits(units: seq<CodegenUnit>, compat: (FnDef, FnDef) -> Option<string>): (errors: set<(Harness, string)>)
    requires forall i :: 0 <= i < |units| ==> |units[i].harnesses| > 0
    ensures errors == {} <==> forall i, from :: 0 <= i < |units| && from in units[i].stubs ==> compat(from, units[i].stubs[from]).None?
    ensures forall e :: e in errors ==> exists i :: 0 <= i < |units| && e.0 == units[i].harnesses[0]
  {
    if units == [] then {}
    else
      var unit := units[|units| - 1];
      var here := set from | from in unit.stubs && compat(from, unit.stubs[from]).Some? :: (unit.harnesses[0], compat(from, unit.stubs[from]).value);
      var prev := ValidateUnits(units[..|units| - 1], compat);
      assert forall from :: from in unit.stubs && compat(from, unit.stubs[from]).Some? ==> (unit.harnesses[0], compat(from, unit.stubs[from]).value) in here;
      prev + here
  }

  // ---------------------------------------------------------------------------
  // Automatic harnesses
  // ---------------------------------------------------------------------------

  /** `fn_list_contains_instance`: the name is in the list, or some entry occurs inside it. */
  predicate FnListContains(prettyName: string, fnList: seq<string>)
  {
    prettyName in fnList || exists k :: 0 <= k < |fnList| && Strings.ContainsSubstring(prettyName, fnList[k])
  }

  /** Listing the exact name adds nothing: the list contains a name iff some entry occurs in it. */
  lemma {:induction false} FnListContainsIffSubstring(prettyName: string, fnList: seq<string>)
    ensures FnListContains(prettyName, fnList) <==>
      exists k :: 0 <= k < |fnList| && exists i: nat :: Strings.OccursAt(prettyName, fnList[k], i)
  {
    forall k | 0 <= k < |fnList|
      ensures Strings.ContainsSubstring(prettyName, fnList[k]) <==> exists i: nat :: Strings.OccursAt(prettyName, fnList[k], i)
    {
      Strings.ContainsSubstringSpec(prettyName, fnList[k]);
    }
    if prettyName in fnList {
      var k :| 0 <= k < |fnList| && fnList[k] == prettyName;
      assert prettyName[0..|prettyName|] == prettyName;
      assert Strings.OccursAt(prettyName, fnList[k], 0);
    }
  }

  /**
   * The user's filter: a non-empty include list admits only listed names; otherwise a
   * non-empty exclude list rejects listed names; otherwise everything is admitted.
   */
  predicate UserIncluded(prettyName: string, included: seq<string>, excluded: seq<string>)
  {
    if included != [] then FnListContains(prettyName, included)
    else if excluded != [] then !FnListContains(prettyName, excluded)
    else true
  }

  lemma {:induction false} UserIncludedCases(prettyName: string, included: seq<string>, excluded: seq<string>)
    ensures included != [] ==> (UserIncluded(prettyName, included, excluded) <==> FnListContains(prettyName, included))
    ensures included == [] && excluded != [] ==> (UserIncluded(prettyName, included, excluded) <==> !FnListContains(prettyName, excluded))
    ensures included == [] && excluded == [] ==> UserIncluded(prettyName, included, excluded)
  {
  }

  /**
   * A function of the crate that could get an automatic harness: its name, and the facts
   * about it that need the compiler (whether it is a proof harness, has a body, is part
   * of contract instrumentation, and whether every argument type implements `Arbitrary`),
   * with the harness instance and metadata the compiler would generate for it.
   */
  datatype Candidate = Candidate(
    name: string,
    isProofHarness: bool,
    hasBody: bool,
    isContractMode: bool,
    argsArbitrary: bool,
    harness: Harness,
    metadata: HarnessMetadata)

  /** `is_eligible_for_automatic_harness`. */
  predicate IsEligible(c: Candidate)
  {
    && !c.isProofHarness && c.hasBody
    && !Strings.ContainsSubstring(c.name, "kani::Arbitrary")
    && !Strings.ContainsSubstring(c.name, "kani::Invariant")
    && !c.isContractMode
    && c.argsArbitrary
  }

  /** The candidates that pass the user's filter and are eligible, in order. */
  function VerifiableFns(candidates: seq<Candidate>, included: seq<string>, excluded: seq<string>): (r: seq<Candidate>)
    ensures forall c :: c in r <==> c in candidates && UserIncluded(c.name, included, excluded) && IsEligible(c)
  {
    if candidates == [] then []
    else
      var last := candidates[|candidates| - 1];
      VerifiableFns(candidates[..|candidates| - 1], included, excluded)
      + (if UserIncluded(last.name, included, excluded) && IsEligible(last) then [last] else [])
  }

  /** A unit of one automatic harness, with no stubs. */
  function SoloUnits(auto: seq<Candidate>): (r: seq<CodegenUnit>)
    ensures |r| == |auto| && forall i :: 0 <= i < |auto| ==> r[i] == CodegenUnit([auto[i].harness], map[])
  {
    seq(|auto|, i requires 0 <= i < |auto| => CodegenUnit([auto[i].harness], map[]))
  }

  function AutoInfo(auto: seq<Candidate>): (r: map<Harness, HarnessMetadata>)
    ensures r.Keys == set c | c in auto :: c.harness
  {
    if auto == [] then map[]
    else AutoInfo(auto[..|auto| - 1])[auto[|auto| - 1].harness := auto[|auto| - 1].metadata]
  }

  // ---------------------------------------------------------------------------
  // The units and their metadata
  // ---------------------------------------------------------------------------

  /** `with_loop_contracts`: flag loop contracts; an automatic harness becomes a contract harness for its function. */
  function WithLoopContracts(md: HarnessMetadata): (r: HarnessMetadata)
    ensures r.hasLoopContracts
    ensures r.kind == if md.isAutomaticallyGenerated then ProofForContract(md.prettyName) else md.kind
    ensures r.(hasLoopContracts := md.hasLoopContracts, kind := md.kind) == md
  {
    var flagged := md.(hasLoopContracts := true);
    if md.isAutomaticallyGenerated then flagged.(kind := ProofForContract(md.prettyName)) else flagged
  }

  lemma {:induction false} WithLoopContractsIdempotent(md: HarnessMetadata)
    ensures WithLoopContracts(WithLoopContracts(md)) == WithLoopContracts(md)
  {
  }

  /** The metadata after recording modifies contracts in order: a later entry for the same harness wins. */
  function WithModifies(info: map<Harness, HarnessMetadata>, mods: seq<(Harness, AssignsContract)>): (r: map<Harness, HarnessMetadata>)
    requires forall k :: 0 <= k < |mods| ==> mods[k].0 in info
    ensures r.Keys == info.Keys
  {
    if mods == [] then info
    else
      var (h, c) := mods[|mods| - 1];
      var before := WithModifies(info, mods[..|mods| - 1]);
      before[h := before[h].(contract := Some(c))]
  }

  /** Recording modifies contracts touches only their harnesses, and only their contract: the last one given. */
  lemma {:induction false} WithModifiesEffect(info: map<Harness, HarnessMetadata>, mods: seq<(Harness, AssignsContract)>, h: Harness)
    requires forall k :: 0 <= k < |mods| ==> mods[k].0 in info
    requires h in info
    ensures var r := WithModifies(info, mods);
      && r[h].(contract := info[h].contract) == info[h]
      && ((forall k :: 0 <= k < |mods| ==> mods[k].0 != h) ==> r[h] == info[h])
      && (forall k :: 0 <= k < |mods| && mods[k].0 == h && (forall l :: k < l < |mods| ==> mods[l].0 != h) ==>
            r[h].contract == Some(mods[k].1))
  {
    if mods != [] {
      var init := mods[..|mods| - 1];
      WithModifiesEffect(info, init, h);
      forall k | 0 <= k < |init| ensures init[k] == mods[k] { }
    }
  }

  /** Units appended after the units of the manual harnesses leave every manual harness in some unit. */
  lemma {:induction false} AppendedUnits(manual: seq<Harness>, units: seq<CodegenUnit>, extra: seq<CodegenUnit>)
    requires forall h :: h in manual ==> exists i :: 0 <= i < |units| && h in units[i].harnesses
    ensures forall h :: h in manual ==> exists i :: 0 <= i < |units + extra| && h in (units + extra)[i].harnesses
    ensures (units + extra)[|units + extra| - |extra|..] == extra
  {
    forall h | h in manual
      ensures exists i :: 0 <= i < |units + extra| && h in (units + extra)[i].harnesses
    {
      var i :| 0 <= i < |units| && h in units[i].harnesses;
      assert (units + extra)[i] == units[i];
    }
    assert (units + extra)[|units|..] == extra;
  }

  /** What `GroupByStubs` promises of the units of `harnesses`: a partition by key, each unit with its key's transitive stubs. */
  ghost predicate GroupedUnits(config: HarnessConfig, harnesses: seq<Harness>, units: seq<CodegenUnit>)
  {
    && Configured(config, harnesses)
    && (forall i, h :: 0 <= i < |units| && h in units[i].harnesses ==> h in harnesses)
    && (forall h :: h in harnesses ==> exists i :: 0 <= i < |units| && h in units[i].harnesses)
    && (forall i, j, h, g :: 0 <= i < |units| && 0 <= j < |units| && h in units[i].harnesses && g in units[j].harnesses ==>
          (i == j <==> KeyOf(config, h) == KeyOf(config, g)))
    && (forall i, h :: 0 <= i < |units| && h in units[i].harnesses ==> units[i].stubs == Transitive(KeyOf(config, h).stubs))
    && (forall i :: 0 <= i < |units| ==> Distinct(units[i].harnesses) && |units[i].harnesses| > 0)
  }

  /** The stub-cycle errors of grouped units: exactly the cycling stubs, each against its unit's first harness. */
  ghost predicate ReportsCycles(config: HarnessConfig, units: seq<CodegenUnit>, errors: set<(Harness, FnDef)>)
    requires forall i :: 0 <= i < |units| ==> |units[i].harnesses| > 0
  {
    && (forall e :: e in errors ==> CycleAt(config, e.0, e.1) && exists i :: 0 <= i < |units| && units[i].harnesses[0] == e.0)
    && (forall i, orig: FnDef :: 0 <= i < |units| && CycleAt(config, units[i].harnesses[0], orig) ==>
          (units[i].harnesses[0], orig) in errors)
  }

  class CodegenUnits {
    var units: seq<CodegenUnit>
    var harnessInfo: map<Harness, HarnessMetadata>
    var crateName: string
    /**
     * The stub-cycle errors emitted while grouping, as (harness, stubbed function). The
     * compiler reports them as diagnostics and stops at the next abort point.
     */
    var stubCycleErrors: set<(Harness, FnDef)>

    /**
     * `CodegenUnits::new`: group the manual harnesses; under `AllFns` also give every
     * verifiable function of the crate its own automatic-harness unit, after the manual
     * units; any other reachability mode has no units and no harnesses.
     */
    constructor(crateName: string, mode: ReachabilityType, config: HarnessConfig, manual: seq<Harness>,
                manualInfo: map<Harness, HarnessMetadata>, candidates: seq<Candidate>,
                included: seq<string>, excluded: seq<string>)
      requires Configured(config, manual) && Distinct(manual)
      ensures this.crateName == crateName
      ensures mode.OtherReachability? ==> units == [] && harnessInfo == map[]
      ensures mode.Harnesses? ==> harnessInfo == manualInfo
      ensures mode.AllFns? ==>
        && harnessInfo == manualInfo + AutoInfo(VerifiableFns(candidates, included, excluded))
        && |units| >= |VerifiableFns(candidates, included, excluded)|
        && units[|units| - |VerifiableFns(candidates, included, excluded)|..] == SoloUnits(VerifiableFns(candidates, included, excluded))
      ensures !mode.OtherReachability? ==>
        forall h :: h in manual ==> exists i :: 0 <= i < |units| && h in units[i].harnesses
      ensures mode.OtherReachability? ==> stubCycleErrors == {}
      ensures mode.Harnesses? ==>
        GroupedUnits(config, manual, units) && ReportsCycles(config, units, stubCycleErrors)
      ensures mode.AllFns? ==>
        var manualUnits := units[..|units| - |VerifiableFns(candidates, included, excluded)|];
        GroupedUnits(config, manual, manualUnits) && ReportsCycles(config, manualUnits, stubCycleErrors)
    {
      var newUnits: seq<CodegenUnit> := [];
      var info: map<Harness, HarnessMetadata> := map[];
      var errors: set<(Harness, FnDef)> := {};
      if !mode.OtherReachability? {
        var manualUnits;
        manualUnits, errors := GroupByStubs(config, manual);
        if mode.Harnesses? {
          newUnits, info := manualUnits, manualInfo;
        } else {
          var auto := VerifiableFns(candidates, included, excluded);
          var solo := SoloUnits(auto);
          AppendedUnits(manual, manualUnits, solo);
          assert (manualUnits + solo)[..|manualUnits|] == manualUnits;
          newUnits, info := manualUnits + solo, manualInfo + AutoInfo(auto);
        }
      }
      this.crateName := crateName;
      units := newUnits;
      harnessInfo := info;
      stubCycleErrors := errors;
    }

    /** `store_modifies`: record each harness's modifies contract. */
    method StoreModifies(harnessModifies: seq<(Harness, AssignsContract)>)
      requires forall k :: 0 <= k < |harnessModifies| ==> harnessModifies[k].0 in harnessInfo
      modifies this
      ensures harnessInfo == WithModifies(old(harnessInfo), harnessModifies)
      ensures units == old(units) && crateName == old(crateName)
    {
      ghost var info0 := harnessInfo;
      for k := 0 to |harnessModifies|
        invariant harnessInfo == WithModifies(info0, harnessModifies[..k])
        invariant units == old(units) && crateName == old(crateName)
      {
        assert harnessModifies[..k + 1][..k] == harnessModifies[..k];
        var (harness, m) := harnessModifies[k];
        harnessInfo := harnessInfo[harness := harnessInfo[harness].(contract := Some(m))];
      }
      assert harnessModifies[..|harnessModifies|] == harnessModifies;
    }

    /** `store_loop_contracts`: flag the harnesses that use loop contracts. */
    method StoreLoopContracts(harnesses: seq<Harness>)
      requires forall k :: 0 <= k < |harnesses| ==> harnesses[k] in harnessInfo
      modifies this
      ensures harnessInfo == map h | h in old(harnessInfo) :: if h in harnesses then WithLoopContracts(old(harnessInfo)[h]) else old(harnessInfo)[h]
      ensures units == old(units) && crateName == old(crateName)
    {
      ghost var info0 := harnessInfo;
      for k := 0 to |harnesses|
        invariant harnessInfo == map h | h in info0 :: if h in harnesses[..k] then WithLoopContracts(info0[h]) else info0[h]
        invariant units == old(units) && crateName == old(crateName)
      {
        var harness := harnesses[k];
        assert forall h :: h in harnesses[..k + 1] <==> h in harnesses[..k] || h == harness;
        harnessInfo := harnessInfo[harness := WithLoopContracts(harnessInfo[harness])];
      }
      assert harnesses[..|harnesses|] == harnesses;
    }

    /**
     * `generate_metadata`: the crate name and the harness metadata split into proof
     * harnesses and test harnesses; every harness lands in exactly one of the two lists.
     */
    method GenerateMetadata() returns (name: string, proofHarnesses: seq<HarnessMetadata>, testHarnesses: seq<HarnessMetadata>)
      ensures name == crateName
      ensures |proofHarnesses| + |testHarnesses| == |harnessInfo.Keys|
      ensures forall md :: md in proofHarnesses ==> IsProofHarness(md.kind) && md in harnessInfo.Values
      ensures forall md :: md in testHarnesses ==> !IsProofHarness(md.kind) && md in harnessInfo.Values
      ensures forall h :: h in harnessInfo ==> harnessInfo[h] in proofHarnesses || harnessInfo[h] in testHarnesses
    {
      name := crateName;
      proofHarnesses, testHarnesses := [], [];
      var todo := harnessInfo.Keys;
      while todo != {}
        invariant todo <= harnessInfo.Keys
        invariant |proofHarnesses| + |testHarnesses| + |todo| == |harnessInfo.Keys|
        invariant forall md :: md in proofHarnesses ==> IsProofHarness(md.kind) && md in harnessInfo.Values
        invariant forall md :: md in testHarnesses ==> !IsProofHarness(md.kind) && md in harnessInfo.Values
        invariant forall h :: h in harnessInfo && h !in todo ==> harnessInfo[h] in proofHarnesses || harnessInfo[h] in testHarnesses
        decreases |todo|
      {
        var h :| h in todo;
        var md := harnessInfo[h];
        if IsProofHarness(md.kind) {
          proofHarnesses := proofHarnesses + [md];
        } else {
          testHarnesses := testHarnesses + [md];
        }
        todo := todo - {h};
      }
    }
  }
}
