/**
 * Resolution of the path strings users write in Kani attributes (stubs, contracts) to the
 * definitions they name: prefix qualifiers (`::`, `crate`, `self`, `super`), lookup in
 * local modules (direct items first, then a worklist over glob imports that tolerates
 * import cycles), in foreign modules, in inherent impls of a type (refined by generic
 * arguments) and in traits, and the final check that a function was found.
 *
 * The compiler's tables (module items, parents, crate names, definition kinds and paths,
 * impl items) form a `World` value. Parsing of the path string and resolution of the
 * `Self` type of a qualified path are not part of this model: their outcomes are inputs.
 */
module Resolve {
  import opened Wrappers
  import Strings

  type DefId = nat

  // ---------------------------------------------------------------------------
  // Path strings
  // ---------------------------------------------------------------------------

  /** Rust's `char::is_whitespace`: the Unicode `White_Space` property. */
  predicate IsWhitespace(c: char)
  {
    || '\U{9}' <= c <= '\U{D}' || c == ' ' || c == '\U{85}' || c == '\U{A0}' || c == '\U{1680}'
    || '\U{2000}' <= c <= '\U{200A}' || c == '\U{2028}' || c == '\U{2029}' || c == '\U{202F}' || c == '\U{205F}'
    || c == '\U{3000}'
  }

  /** `generic_args_to_string`: the printed generic arguments with every whitespace character removed. */
  function GenericArgsToString(tokens: string): (r: string)
    ensures forall i :: 0 <= i < |r| ==> !IsWhitespace(r[i])
    ensures |r| <= |tokens|
  {
    if tokens == [] then []
    else (if IsWhitespace(tokens[0]) then [] else [tokens[0]]) + GenericArgsToString(tokens[1..])
  }

  /** Removing whitespace works piecewise, and leaves text without whitespace as it is. */
  lemma {:induction false} GenericArgsToStringAppend(a: string, b: string)
    ensures GenericArgsToString(a + b) == GenericArgsToString(a) + GenericArgsToString(b)
  {
    if a != [] {
      var head := if IsWhitespace(a[0]) then [] else [a[0]];
      assert (a + b)[0] == a[0];
      assert (a + b)[1..] == a[1..] + b;
      GenericArgsToStringAppend(a[1..], b);
      calc {
        GenericArgsToString(a + b);
        head + GenericArgsToString(a[1..] + b);
        head + (GenericArgsToString(a[1..]) + GenericArgsToString(b));
        (head + GenericArgsToString(a[1..])) + GenericArgsToString(b);
        GenericArgsToString(a) + GenericArgsToString(b);
      }
    } else {
      assert a + b == b;
    }
  }

  lemma {:induction false} GenericArgsToStringIdempotent(tokens: string)
    ensures GenericArgsToString(GenericArgsToString(tokens)) == GenericArgsToString(tokens)
  {
    var r := GenericArgsToString(tokens);
    NoWhitespaceUnchanged(r);
  }

  lemma {:induction false} NoWhitespaceUnchanged(s: string)
    requires forall i :: 0 <= i < |s| ==> !IsWhitespace(s[i])
    ensures GenericArgsToString(s) == s
  {
    if s != [] {
      NoWhitespaceUnchanged(s[1..]);
    }
  }

  /** `is_item_name`: the last `::` segment of the item's path is the name. */
  predicate IsItemName(itemPath: string, name: string)
  {
    var parts := Strings.SplitPath(itemPath);
    parts[|parts| - 1] == name
  }

  lemma {:induction false} IsItemNameSpec(parts: seq<string>, name: string)
    requires |parts| >= 1 && forall k :: 0 <= k < |parts| ==> Strings.NoColon(parts[k])
    ensures IsItemName(Strings.JoinPath(parts), name) <==> parts[|parts| - 1] == name
  {
    Strings.SplitJoinPath(parts);
  }

  /**
   * `last_two_items_of_path_match`: the path has at least two `::` segments, and `::`,
   * the second-to-last, `::` and the last spell the generic arguments, `::` and the name.
   */
  predicate LastTwoItemsMatch(itemPath: string, genericArgs: string, name: string)
  {
    var parts := Strings.SplitPath(itemPath);
    |parts| >= 2 && genericArgs + "::" + name == "::" + parts[|parts| - 2] + "::" + parts[|parts| - 1]
  }

  /** `ga + "::" + name` spells `"::" + base + "::" + last` only with `ga == "::" + base` and `name == last`. */
  lemma {:induction false} SeparatedPairEq(ga: string, name: string, base: string, last: string)
    requires Strings.NoColon(name) && Strings.NoColon(last)
    ensures ga + "::" + name == "::" + base + "::" + last <==> ga == "::" + base && name == last
  {
    var lhs := ga + "::" + name;
    var rhs := "::" + base + "::" + last;
    if lhs == rhs {
      assert rhs[|rhs| - |last| - 1] == ':' && lhs[|lhs| - |name| - 1] == ':';
      assert |name| <= |last| by {
        assert forall k :: |ga| + 2 <= k < |lhs| ==> lhs[k] == name[k - |ga| - 2];
      }
      assert |last| <= |name| by {
        assert forall k :: |base| + 4 <= k < |rhs| ==> rhs[k] == last[k - |base| - 4];
      }
      assert lhs[|ga| + 2..] == name;
      assert rhs[|base| + 4..] == last;
      assert lhs[..|ga|] == ga;
      assert rhs[..|base| + 2] == "::" + base;
    }
  }

  /**
   * On a path whose segments contain no colon, the last two items match exactly when the
   * generic arguments are `::` and the second-to-last segment and the name is the last.
   */
  lemma {:induction false} LastTwoItemsMatchSpec(prefix: seq<string>, base: string, last: string, genericArgs: string, name: string)
    requires forall k :: 0 <= k < |prefix| ==> Strings.NoColon(prefix[k])
    requires Strings.NoColon(base) && Strings.NoColon(last) && Strings.NoColon(name)
    ensures LastTwoItemsMatch(Strings.JoinPath(prefix + [base, last]), genericArgs, name) <==> genericArgs == "::" + base && name == last
  {
    var parts := prefix + [base, last];
    assert forall k :: 0 <= k < |parts| ==> Strings.NoColon(parts[k]);
    Strings.SplitJoinPath(parts);
    SeparatedPairEq(genericArgs, name, base, last);
  }

  /** A path of one segment never matches. */
  lemma {:induction false} LastTwoItemsMatchNeedsTwo(item: string, genericArgs: string, name: string)
    requires Strings.NoColon(item)
    ensures !LastTwoItemsMatch(item, genericArgs, name)
  {
    Strings.SplitJoinPath([item]);
  }

  lemma {:induction false} JoinPathSnoc(parts: seq<string>, x: string)
    requires |parts| >= 1
    ensures Strings.JoinPath(parts + [x]) == Strings.JoinPath(parts) + "::" + x
  {
    if |parts| > 1 {
      assert (parts + [x])[1..] == parts[1..] + [x];
      JoinPathSnoc(parts[1..], x);
    }
  }

  /**
   * The unit tests, for every path: `T::<args>::name` (with `T` one or more colon-free
   * segments) matches the generic arguments `::<args>` and the name `name`, and nothing else.
   */
  lemma {:induction false} LastTwoItemsMatchFormat(prefix: seq<string>, inner: string, genericArgs: string, name: string, itemName: string)
    requires |prefix| >= 1 && forall k :: 0 <= k < |prefix| ==> Strings.NoColon(prefix[k])
    requires Strings.NoColon(inner) && Strings.NoColon(name) && Strings.NoColon(itemName)
    ensures LastTwoItemsMatch(Strings.JoinPath(prefix) + "::" + inner + "::" + itemName, genericArgs, name)
      <==> genericArgs == "::" + inner && name == itemName
  {
    JoinPathSnoc(prefix, inner);
    JoinPathSnoc(prefix + [inner], itemName);
    assert prefix + [inner] + [itemName] == prefix + [inner, itemName];
    LastTwoItemsMatchSpec(prefix, inner, itemName, genericArgs, name);
  }

  // ---------------------------------------------------------------------------
  // The compiler's tables
  // ---------------------------------------------------------------------------

  datatype DefKind = ModKind | ForeignModKind | StructKind | EnumKind | UnionKind | TraitKind | FnKind | AssocFnKind | OtherKind

  /** What a `use` refers to: a definition with its kind, or something that is not one. */
  datatype Res = DefRes(kind: DefKind, def: DefId) | OtherRes(id: nat)

  datatype ItemKind =
    | UseSingle(target: Option<DefId>)  // the first of its present resolutions that is a definition
    | ExternCrate(origName: Option<string>)
    | UseGlob(globs: seq<Res>)
    | Definition

  /** A free item of a local module: its name (if any), its kind and its own definition. */
  datatype Item = Item(ident: Option<string>, kind: ItemKind, owner: DefId)

  /**
   * The queries path resolution makes: which definitions are local, the free items of each
   * local module, the enclosing modules of each module (innermost first), the crates in
   * use with their roots, the children of foreign modules, the kind and printed path of
   * each definition, the items of the inherent impls of each type and of each trait, the
   * primitive type names, and the items of the impls of each primitive type.
   */
  datatype World = World(
    local: set<DefId>,
    moduleItems: map<DefId, seq<Item>>,
    parents: map<DefId, seq<DefId>>,
    usedCrates: seq<(string, DefId)>,
    foreignChildren: map<DefId, seq<(string, Option<DefId>)>>,
    kinds: map<DefId, DefKind>,
    paths: map<DefId, string>,
    inherentItems: map<DefId, seq<DefId>>,
    traitItems: map<DefId, seq<DefId>>,
    primitives: set<string>,
    primitiveItems: map<string, seq<DefId>>)

  function Get<K, V>(m: map<K, V>, k: K, default: V): V
  {
    if k in m then m[k] else default
  }

  function KindOf(w: World, d: DefId): DefKind { Get(w.kinds, d, OtherKind) }
  function PathOf(w: World, d: DefId): string { Get(w.paths, d, "") }
  function ItemsOf(w: World, m: DefId): seq<Item> { Get(w.moduleItems, m, []) }

  // ---------------------------------------------------------------------------
  // Errors and paths
  // ---------------------------------------------------------------------------

  datatype InvalidPathReason =
    | ExpectedIdentAfterColons
    | InvalidGenericArgs(genericArgs: string, candidates: seq<DefId>)
    | UnexpectedPrimitive(primitive: string)
    | NotAPath(pathStr: string)

  datatype ResolveError =
    | AmbiguousGlob(name: string, base: DefId, candidates: seq<DefId>)
    | AmbiguousPartialPath(name: string, base: DefId, candidates: seq<DefId>)
    | ExtraSuper
    | InvalidPath(reason: InvalidPathReason)
    | MissingItem(base: DefId, unresolved: string)
    | MissingPrimitiveItem(primitive: string, unresolved: string)
    | UnexpectedType(item: DefId, expected: string)
    | UnsupportedPath(kind: string)
      /** The source's `unreachable!` when generic arguments leave several candidates. */
    | MultipleRefinedCandidates(candidates: seq<DefId>)
      /** The source's `unwrap` when a primitive's item found by a qualified path is not a function. */
    | NotAFunction(item: DefId)

  datatype PathArguments = NoArgs | AngleBracketed(tokens: string) | Parenthesized(tokens: string)

  datatype Segment = Segment(ident: string, args: PathArguments)

  /** A parsed simple path: an optional leading `::` and its segments. */
  datatype SynPath = SynPath(leadingColon: bool, segments: seq<Segment>)

  /** A starting definition, the generic arguments written on it, and the segments still to resolve. */
  datatype ResolvedPath = ResolvedPath(base: DefId, baseArgs: PathArguments, segments: seq<Segment>)

  const CRATE := "crate"
  const SELF := "self"
  const SUPER := "super"

  // ---------------------------------------------------------------------------
  // Lookups by name
  // ---------------------------------------------------------------------------

  /** The first entry with the given name. */
  function FindNamed(entries: seq<(string, DefId)>, name: string): Option<DefId>
  {
    if entries == [] then None
    else if entries[0].0 == name then Some(entries[0].1)
    else FindNamed(entries[1..], name)
  }

  lemma {:induction false} FindNamedSpec(entries: seq<(string, DefId)>, name: string)
    ensures FindNamed(entries, name).None? <==> forall k :: 0 <= k < |entries| ==> entries[k].0 != name
    ensures FindNamed(entries, name).Some? ==>
      exists k :: 0 <= k < |entries| && entries[k] == (name, FindNamed(entries, name).value) &&
        forall j :: 0 <= j < k ==> entries[j].0 != name
  {
    if entries != [] && entries[0].0 != name {
      FindNamedSpec(entries[1..], name);
      if FindNamed(entries, name).Some? {
        var k :| 0 <= k < |entries[1..]| && entries[1..][k] == (name, FindNamed(entries, name).value) &&
          forall j :: 0 <= j < k ==> entries[1..][j].0 != name;
        assert entries[k + 1] == entries[1..][k];
      }
    } else if entries != [] {
      assert entries[0] == (name, FindNamed(entries, name).value);
    }
  }

  /** `resolve_external`: the root of the first crate in use with that name. */
  function ResolveExternal(w: World, name: string): Option<DefId>
  {
    FindNamed(w.usedCrates, name)
  }

  /** `resolve_in_foreign_module`: the first child with that name that is a definition. */
  function FindChild(children: seq<(string, Option<DefId>)>, name: string): (r: Option<DefId>)
    ensures r.Some? ==> exists k :: 0 <= k < |children| && children[k] == (name, r)
    ensures r.None? <==> forall k :: 0 <= k < |children| && children[k].0 == name ==> children[k].1.None?
  {
    if children == [] then None
    else if children[0].0 == name && children[0].1.Some? then children[0].1
    else
      var r := FindChild(children[1..], name);
      assert forall k :: 1 <= k < |children| ==> children[k] == children[1..][k - 1];
      r
  }

  function ResolveInForeignModule(w: World, m: DefId, name: string): Option<DefId>
  {
    FindChild(Get(w.foreignChildren, m, []), name)
  }

  /** The first item whose printed path ends in the name. */
  function FirstItemNamed(w: World, items: seq<DefId>, name: string): (r: Option<DefId>)
    ensures r.Some? ==> r.value in items && IsItemName(PathOf(w, r.value), name)
    ensures r.None? <==> forall k :: 0 <= k < |items| ==> !IsItemName(PathOf(w, items[k]), name)
  {
    if items == [] then None
    else if IsItemName(PathOf(w, items[0]), name) then Some(items[0])
    else
      var r := FirstItemNamed(w, items[1..], name);
      assert forall k :: 1 <= k < |items| ==> items[k] == items[1..][k - 1];
      r
  }

  // ---------------------------------------------------------------------------
  // Local modules
  // ---------------------------------------------------------------------------

  datatype RelativeResolution = Found(def: DefId) | Globs(globs: seq<Res>)

  /** What an item with the requested name yields: nothing for a `use` or `extern crate` that does not resolve. */
  function ItemYield(w: World, item: Item, name: string): Option<DefId>
  {
    match item.kind
    case UseSingle(target) => target
    case ExternCrate(orig) => ResolveExternal(w, if orig.Some? then orig.value else name)
    case UseGlob(_) => Some(item.owner)
    case Definition => Some(item.owner)
  }

  /** The glob imports among items that do not carry the requested name, in order. */
  function GlobsOf(items: seq<Item>, name: string): seq<Res>
  {
    if items == [] then []
    else
      (if items[0].ident != Some(name) && items[0].kind.UseGlob? then items[0].kind.globs else [])
      + GlobsOf(items[1..], name)
  }

  /** The scan of `resolve_relative`: the first named item that yields wins; otherwise the globs seen. */
  function ScanItems(w: World, items: seq<Item>, name: string, globs: seq<Res>): RelativeResolution
  {
    if items == [] then Globs(globs)
    else
      var item := items[0];
      if item.ident == Some(name) then
        match ItemYield(w, item, name)
        case Some(d) => Found(d)
        case None => ScanItems(w, items[1..], name, globs)
      else ScanItems(w, items[1..], name, if item.kind.UseGlob? then globs + item.kind.globs else globs)
  }

  /** `resolve_relative`. */
  function ResolveRelative(w: World, m: DefId, name: string): RelativeResolution
  {
    ScanItems(w, ItemsOf(w, m), name, [])
  }

  /**
   * A direct item takes precedence over globs: the module's globs are returned exactly
   * when no item with the name yields a definition, and then all of them are; otherwise
   * the first item with the name that yields one is found.
   */
  lemma {:induction false} ScanItemsSpec(w: World, items: seq<Item>, name: string, globs: seq<Res>)
    ensures var r := ScanItems(w, items, name, globs);
      && (r.Globs? <==> forall k :: 0 <= k < |items| && items[k].ident == Some(name) ==> ItemYield(w, items[k], name).None?)
      && (r.Globs? ==> r.globs == globs + GlobsOf(items, name))
      && (r.Found? ==> exists k :: (0 <= k < |items| && items[k].ident == Some(name) && ItemYield(w, items[k], name) == Some(r.def)
            && forall j :: 0 <= j < k && items[j].ident == Some(name) ==> ItemYield(w, items[j], name).None?))
  {
    if items != [] {
      var item := items[0];
      var next := if item.ident != Some(name) && item.kind.UseGlob? then globs + item.kind.globs else globs;
      assert forall k :: 1 <= k < |items| ==> items[k] == items[1..][k - 1];
      if item.ident == Some(name) && ItemYield(w, item, name).Some? {
      } else {
        ScanItemsSpec(w, items[1..], name, next);
        assert next + GlobsOf(items[1..], name) == globs + GlobsOf(items, name);
        var r := ScanItems(w, items, name, globs);
        if r.Found? {
          var k :| 0 <= k < |items[1..]| && items[1..][k].ident == Some(name) && ItemYield(w, items[1..][k], name) == Some(r.def)
            && forall j :: 0 <= j < k && items[1..][j].ident == Some(name) ==> ItemYield(w, items[1..][j], name).None?;
          assert items[k + 1] == items[1..][k];
        }
      }
    }
  }

  lemma {:induction false} DirectItemWins(w: World, m: DefId, name: string)
    ensures var r := ResolveRelative(w, m, name); var items := ItemsOf(w, m);
      && (r.Globs? <==> forall k :: 0 <= k < |items| && items[k].ident == Some(name) ==> ItemYield(w, items[k], name).None?)
      && (r.Globs? ==> r.globs == GlobsOf(items, name))
  {
    ScanItemsSpec(w, ItemsOf(w, m), name, []);
  }

  /** Every glob import of every local module. */
  ghost function GlobUniverse(w: World): set<Res>
  {
    set m, k, r | m in w.moduleItems && 0 <= k < |w.moduleItems[m]| && w.moduleItems[m][k].kind.UseGlob?
      && r in w.moduleItems[m][k].kind.globs :: r
  }

  lemma {:induction false} GlobsOfInUniverse(w: World, m: DefId, items: seq<Item>, name: string, skipped: nat)
    requires m in w.moduleItems && skipped + |items| == |w.moduleItems[m]| && items == w.moduleItems[m][skipped..]
    ensures forall r :: r in GlobsOf(items, name) ==> r in GlobUniverse(w)
    decreases |items|
  {
    if items != [] {
      assert w.moduleItems[m][skipped] == items[0];
      assert items[1..] == w.moduleItems[m][skipped + 1..];
      GlobsOfInUniverse(w, m, items[1..], name, skipped + 1);
    }
  }

  /** The globs a local module returns are glob imports of the world. */
  lemma {:induction false} RelativeGlobsInUniverse(w: World, m: DefId, name: string)
    ensures ResolveRelative(w, m, name).Globs? ==> forall r :: r in ResolveRelative(w, m, name).globs ==> r in GlobUniverse(w)
  {
    DirectItemWins(w, m, name);
    if m in w.moduleItems {
      assert w.moduleItems[m][0..] == w.moduleItems[m];
      GlobsOfInUniverse(w, m, w.moduleItems[m], name, 0);
    }
  }

  // ---------------------------------------------------------------------------
  // Glob imports
  // ---------------------------------------------------------------------------

  /** `resolve_in_glob_use`: only a module can be glob-imported; a foreign one has no further globs. */
  function GlobUse(w: World, res: Res, name: string): (r: RelativeResolution)
  {
    if res.DefRes? && res.kind == ModKind then
      if res.def in w.local then ResolveRelative(w, res.def, name)
      else
        match ResolveInForeignModule(w, res.def, name)
        case Some(d) => Found(d)
        case None => Globs([])
    else Globs([])
  }

  lemma {:induction false} GlobUseInUniverse(w: World, res: Res, name: string)
    ensures GlobUse(w, res, name).Globs? ==> forall r :: r in GlobUse(w, res, name).globs ==> r in GlobUniverse(w)
  {
    if res.DefRes? && res.kind == ModKind && res.def in w.local {
      RelativeGlobsInUniverse(w, res.def, name);
    }
  }

  /** Visiting a new element of a finite universe leaves fewer to visit. */
  lemma {:induction false} VisitShrinks<T>(universe: set<T>, visited: set<T>, x: T)
    requires x in universe && x !in visited
    ensures |universe - (visited + {x})| < |universe - visited|
  {
    var before := universe - visited;
    assert universe - (visited + {x}) == before - {x};
  }

  datatype GlobState = GlobState(visited: set<Res>, matches: seq<DefId>)

  /**
   * The worklist of `resolve_in_glob_uses`: pop the last glob; skip it if visited;
   * otherwise mark it visited and either record the definition it finds or push the
   * globs it leads to.
   */
  function GlobSearch(w: World, name: string, work: seq<Res>, visited: set<Res>, matches: seq<DefId>): GlobState
    requires forall k :: 0 <= k < |work| ==> work[k] in GlobUniverse(w)
    decreases |GlobUniverse(w) - visited|, |work|
  {
    if |work| == 0 then GlobState(visited, matches)
    else
      var res := work[|work| - 1];
      var rest := work[..|work| - 1];
      if res in visited then GlobSearch(w, name, rest, visited, matches)
      else
        VisitShrinks(GlobUniverse(w), visited, res);
        match GlobUse(w, res, name)
        case Found(d) => GlobSearch(w, name, rest, visited + {res}, matches + [d])
        case Globs(other) =>
          GlobUseInUniverse(w, res, name);
          GlobSearch(w, name, rest + other, visited + {res}, matches)
  }

  /** The outcome of `resolve_in_glob_uses` from its matches: none, exactly one, or an ambiguity. */
  function GlobOutcome(current: DefId, name: string, matches: seq<DefId>): Result<DefId, ResolveError>
  {
    if |matches| == 0 then Err(MissingItem(current, name))
    else if |matches| == 1 then Ok(matches[0])
    else Err(AmbiguousGlob(name, current, matches))
  }

  /** One turn of the worklist loop of `resolve_in_glob_uses`, as `GlobSearch` takes it. */
  method GlobVisit(w: World, name: string, work: seq<Res>, visited: set<Res>, matches: seq<DefId>)
    returns (work2: seq<Res>, visited2: set<Res>, matches2: seq<DefId>)
    requires |work| > 0 && forall k :: 0 <= k < |work| ==> work[k] in GlobUniverse(w)
    ensures forall k :: 0 <= k < |work2| ==> work2[k] in GlobUniverse(w)
    ensures GlobSearch(w, name, work2, visited2, matches2) == GlobSearch(w, name, work, visited, matches)
    ensures || |GlobUniverse(w) - visited2| < |GlobUniverse(w) - visited|
            || (visited2 == visited && |work2| < |work|)
  {
    var res := work[|work| - 1];
    work2, visited2, matches2 := work[..|work| - 1], visited, matches;
    if res !in visited {
      VisitShrinks(GlobUniverse(w), visited, res);
      visited2 := visited + {res};
      match GlobUse(w, res, name)
      case Found(d) =>
        matches2 := matches + [d];
      case Globs(other) =>
        GlobUseInUniverse(w, res, name);
        work2 := work2 + other;
    }
  }

  /** `resolve_in_glob_uses`. */
  method ResolveInGlobUses(w: World, current: DefId, globs: seq<Res>, name: string) returns (r: Result<DefId, ResolveError>)
    requires forall k :: 0 <= k < |globs| ==> globs[k] in GlobUniverse(w)
    ensures r == GlobOutcome(current, name, GlobSearch(w, name, globs, {}, []).matches)
  {
    var work := globs;
    var visited: set<Res> := {};
    var matches: seq<DefId> := [];
    while |work| > 0
      invariant forall k :: 0 <= k < |work| ==> work[k] in GlobUniverse(w)
      invariant GlobSearch(w, name, work, visited, matches) == GlobSearch(w, name, globs, {}, [])
      decreases |GlobUniverse(w) - visited|, |work|
    {
      work, visited, matches := GlobVisit(w, name, work, visited, matches);
    }
    if |matches| == 0 {
      r := Err(MissingItem(current, name));
    } else if |matches| == 1 {
      r := Ok(matches[0]);
    } else {
      r := Err(AmbiguousGlob(name, current, matches));
    }
  }

  /** The globs a visited glob leads to. */
  function Children(w: World, res: Res, name: string): seq<Res>
  {
    var u := GlobUse(w, res, name);
    if u.Globs? then u.globs else []
  }

  /** Every glob that a member of `visited` leads to is visited or still on the worklist. */
  ghost predicate Covered(w: World, name: string, visited: set<Res>, work: seq<Res>)
  {
    forall r, k :: r in visited && 0 <= k < |Children(w, r, name)| ==>
      Children(w, r, name)[k] in visited || Children(w, r, name)[k] in work
  }

  ghost predicate Closed(w: World, name: string, s: set<Res>)
  {
    Covered(w, name, s, [])
  }

  ghost function FoundIn(w: World, name: string, visited: set<Res>): set<Res>
  {
    set r | r in visited && GlobUse(w, r, name).Found?
  }

  /** The matches are the definitions found by visited globs, one per such glob. */
  ghost predicate MatchesFound(w: World, name: string, visited: set<Res>, matches: seq<DefId>)
  {
    && |matches| == |FoundIn(w, name, visited)|
    && forall d :: d in matches <==> exists r :: r in visited && GlobUse(w, r, name) == Found(d)
  }

  /** Visiting a glob that defines the name records its definition once. */
  lemma {:induction false} FoundStep(w: World, name: string, work: seq<Res>, visited: set<Res>, matches: seq<DefId>, res: Res, d: DefId)
    requires res !in visited && GlobUse(w, res, name) == Found(d)
    requires MatchesFound(w, name, visited, matches) && Covered(w, name, visited, work + [res])
    ensures MatchesFound(w, name, visited + {res}, matches + [d])
    ensures Covered(w, name, visited + {res}, work)
  {
    assert FoundIn(w, name, visited + {res}) == FoundIn(w, name, visited) + {res};
    assert Children(w, res, name) == [];
  }

  /** Visiting a glob that defines no item of the name queues the globs it re-exports. */
  lemma {:induction false} GlobsStep(w: World, name: string, work: seq<Res>, visited: set<Res>, matches: seq<DefId>, res: Res, other: seq<Res>)
    requires res !in visited && GlobUse(w, res, name) == Globs(other)
    requires MatchesFound(w, name, visited, matches) && Covered(w, name, visited, work + [res])
    ensures MatchesFound(w, name, visited + {res}, matches)
    ensures Covered(w, name, visited + {res}, work + other)
  {
    assert FoundIn(w, name, visited + {res}) == FoundIn(w, name, visited);
    assert Children(w, res, name) == other;
  }

  /** Popping a glob that was already visited keeps the worklist covering. */
  lemma {:induction false} SkipStep(w: World, name: string, work: seq<Res>, visited: set<Res>, res: Res)
    requires res in visited && Covered(w, name, visited, work + [res])
    ensures Covered(w, name, visited, work)
  {
  }

  lemma {:induction false} AppendWithin<T>(a: seq<T>, b: seq<T>, s: set<T>)
    requires forall k :: 0 <= k < |a| ==> a[k] in s
    requires forall k :: 0 <= k < |b| ==> b[k] in s
    ensures forall k :: 0 <= k < |a + b| ==> (a + b)[k] in s
  {
    assert forall k :: |a| <= k < |a + b| ==> (a + b)[k] == b[k - |a|];
  }

  /** The search only adds to what is visited, and visits every glob on the worklist. */
  lemma {:induction false} GlobSearchVisitsWork(w: World, name: string, work: seq<Res>, visited: set<Res>, matches: seq<DefId>)
    requires forall k :: 0 <= k < |work| ==> work[k] in GlobUniverse(w)
    ensures var f := GlobSearch(w, name, work, visited, matches);
      && visited <= f.visited
      && forall k :: 0 <= k < |work| ==> work[k] in f.visited
    decreases |GlobUniverse(w) - visited|, |work|
  {
    if work != [] {
      var res := work[|work| - 1];
      var rest := work[..|work| - 1];
      assert forall k :: 0 <= k < |rest| ==> rest[k] == work[k];
      if res in visited {
        GlobSearchVisitsWork(w, name, rest, visited, matches);
      } else {
        VisitShrinks(GlobUniverse(w), visited, res);
        match GlobUse(w, res, name)
        case Found(d) =>
          GlobSearchVisitsWork(w, name, rest, visited + {res}, matches + [d]);
        case Globs(other) =>
          GlobUseInUniverse(w, res, name);
          AppendWithin(rest, other, GlobUniverse(w));
          GlobSearchVisitsWork(w, name, rest + other, visited + {res}, matches);
          assert forall k :: 0 <= k < |rest| ==> (rest + other)[k] == rest[k];
      }
    }
  }

  /** The search ends with a closed visited set whose matches are the definitions its globs found. */
  lemma {:induction false} GlobSearchFacts(w: World, name: string, work: seq<Res>, visited: set<Res>, matches: seq<DefId>)
    requires forall k :: 0 <= k < |work| ==> work[k] in GlobUniverse(w)
    requires MatchesFound(w, name, visited, matches) && Covered(w, name, visited, work)
    ensures var f := GlobSearch(w, name, work, visited, matches);
      MatchesFound(w, name, f.visited, f.matches) && Closed(w, name, f.visited)
    decreases |GlobUniverse(w) - visited|, |work|
  {
    if work != [] {
      var res := work[|work| - 1];
      var rest := work[..|work| - 1];
      assert work == rest + [res];
      assert forall k :: 0 <= k < |rest| ==> rest[k] == work[k];
      if res in visited {
        SkipStep(w, name, rest, visited, res);
        GlobSearchFacts(w, name, rest, visited, matches);
      } else {
        VisitShrinks(GlobUniverse(w), visited, res);
        match GlobUse(w, res, name)
        case Found(d) =>
          FoundStep(w, name, rest, visited, matches, res, d);
          GlobSearchFacts(w, name, rest, visited + {res}, matches + [d]);
        case Globs(other) =>
          GlobUseInUniverse(w, res, name);
          GlobsStep(w, name, rest, visited, matches, res, other);
          AppendWithin(rest, other, GlobUniverse(w));
          GlobSearchFacts(w, name, rest + other, visited + {res}, matches);
      }
    }
  }

  /** The globs visited are the least set closed under following globs that holds the initial ones. */
  lemma {:induction false} GlobSearchLeast(w: World, name: string, work: seq<Res>, visited: set<Res>, matches: seq<DefId>, s: set<Res>)
    requires forall k :: 0 <= k < |work| ==> work[k] in GlobUniverse(w)
    requires Closed(w, name, s) && visited <= s && forall k :: 0 <= k < |work| ==> work[k] in s
    ensures GlobSearch(w, name, work, visited, matches).visited <= s
    decreases |GlobUniverse(w) - visited|, |work|
  {
    if work != [] {
      var res := work[|work| - 1];
      var rest := work[..|work| - 1];
      assert forall k :: 0 <= k < |rest| ==> rest[k] == work[k];
      if res in visited {
        GlobSearchLeast(w, name, rest, visited, matches, s);
      } else {
        VisitShrinks(GlobUniverse(w), visited, res);
        match GlobUse(w, res, name)
        case Found(d) =>
          GlobSearchLeast(w, name, rest, visited + {res}, matches + [d], s);
        case Globs(other) =>
          GlobUseInUniverse(w, res, name);
          assert forall k :: 0 <= k < |other| ==> other[k] in s by {
            assert Children(w, res, name) == other;
          }
          AppendWithin(rest, other, GlobUniverse(w));
          AppendWithin(rest, other, s);
          GlobSearchLeast(w, name, rest + other, visited + {res}, matches, s);
      }
    }
  }

  /**
   * `resolve_in_glob_uses` visits every glob reachable from the initial ones and no
   * other, each once, so it ends on cyclic imports; every match is the definition found
   * by one visited glob. The result is the unique match, a missing item when no visited
   * glob defines the name, and an ambiguity listing every match otherwise.
   */
  lemma {:induction false} ResolveInGlobUsesSpec(w: World, current: DefId, globs: seq<Res>, name: string)
    requires forall k :: 0 <= k < |globs| ==> globs[k] in GlobUniverse(w)
    ensures var f := GlobSearch(w, name, globs, {}, []);
      var r := GlobOutcome(current, name, f.matches);
      && (forall k :: 0 <= k < |globs| ==> globs[k] in f.visited)
      && Closed(w, name, f.visited)
      && (forall s :: Closed(w, name, s) && (forall k :: 0 <= k < |globs| ==> globs[k] in s) ==> f.visited <= s)
      && MatchesFound(w, name, f.visited, f.matches)
      && (r.Ok? <==> |FoundIn(w, name, f.visited)| == 1)
      && (r.Ok? ==> exists res :: res in f.visited && GlobUse(w, res, name) == Found(r.value))
      && (r == Err(MissingItem(current, name)) <==> FoundIn(w, name, f.visited) == {})
      && (r.Err? && r.error.AmbiguousGlob? <==> |FoundIn(w, name, f.visited)| >= 2)
  {
    var f := GlobSearch(w, name, globs, {}, []);
    assert FoundIn(w, name, {}) == {};
    GlobSearchFacts(w, name, globs, {}, []);
    GlobSearchVisitsWork(w, name, globs, {}, []);
    forall s | Closed(w, name, s) && (forall k :: 0 <= k < |globs| ==> globs[k] in s)
      ensures f.visited <= s
    {
      GlobSearchLeast(w, name, globs, {}, [], s);
    }
    if |f.matches| == 1 {
      assert f.matches[0] in f.matches;
    }
  }

  // ---------------------------------------------------------------------------
  // Modules
  // ---------------------------------------------------------------------------

  /**
   * `resolve_in_module`: a foreign module is searched through its children; a local one
   * through its items and, when none of them yields the name, through its glob imports.
   */
  function ResolveInModule(w: World, m: DefId, name: string): Result<DefId, ResolveError>
  {
    if m !in w.local then
      match ResolveInForeignModule(w, m, name)
      case Some(d) => Ok(d)
      case None => Err(MissingItem(m, name))
    else
      match ResolveRelative(w, m, name)
      case Found(d) => Ok(d)
      case Globs(globs) =>
        RelativeGlobsInUniverse(w, m, name);
        GlobOutcome(m, name, GlobSearch(w, name, globs, {}, []).matches)
  }

  // ---------------------------------------------------------------------------
  // `super` and the crate root
  // ---------------------------------------------------------------------------

  /** The number of leading `super` segments. */
  function LeadingSupers(segments: seq<Segment>): (n: nat)
    ensures n <= |segments|
    ensures forall k :: 0 <= k < n ==> segments[k].ident == SUPER
    ensures n < |segments| ==> segments[n].ident != SUPER
  {
    if segments != [] && segments[0].ident == SUPER then 1 + LeadingSupers(segments[1..]) else 0
  }

  /** The enclosing modules of a local module, innermost first. */
  function ParentsOf(w: World, m: DefId): seq<DefId> { Get(w.parents, m, []) }

  /** The root of the crate: the outermost enclosing module, or the module itself at the root. */
  function CrateRoot(w: World, m: DefId): DefId
  {
    var parents := ParentsOf(w, m);
    if parents == [] then m else parents[|parents| - 1]
  }

  /**
   * What `resolve_super` computes: each leading `super` climbs one enclosing module,
   * failing with `ExtraSuper` past the root; the rest of the segments remain, without
   * generic arguments on the base.
   */
  function ClimbSupers(w: World, current: DefId, segments: seq<Segment>): Result<ResolvedPath, ResolveError>
  {
    var n := LeadingSupers(segments);
    var parents := ParentsOf(w, current);
    if n > |parents| then Err(ExtraSuper)
    else Ok(ResolvedPath(if n == 0 then current else parents[n - 1], NoArgs, segments[n..]))
  }

  /** A prefix of `super`s ending at the first other segment has the length `LeadingSupers` counts. */
  lemma {:induction false} LeadingSupersExact(segments: seq<Segment>, i: nat)
    requires i <= |segments| && forall k :: 0 <= k < i ==> segments[k].ident == SUPER
    requires i < |segments| ==> segments[i].ident != SUPER
    ensures LeadingSupers(segments) == i
  {
  }

  /** `resolve_super`: consume leading `super`s one at a time while parents remain. */
  method ResolveSuper(w: World, current: DefId, segments: seq<Segment>) returns (r: Result<ResolvedPath, ResolveError>)
    ensures r == ClimbSupers(w, current, segments)
  {
    var parents := ParentsOf(w, current);
    var base := current;
    var i := 0;
    while i < |segments| && segments[i].ident == SUPER
      invariant i <= |segments| && i <= |parents|
      invariant forall k :: 0 <= k < i ==> segments[k].ident == SUPER
      invariant base == if i == 0 then current else parents[i - 1]
    {
      if i < |parents| {
        base := parents[i];
      } else {
        assert LeadingSupers(segments) > i;
        return Err(ExtraSuper);
      }
      i := i + 1;
    }
    LeadingSupersExact(segments, i);
    r := Ok(ResolvedPath(base, NoArgs, segments[i..]));
  }

  /**
   * Climbing stops at the first segment that is not `super`: the base is the `n`-th
   * enclosing module for `n` leading `super`s, and past the root there is no result.
   */
  lemma {:induction false} ClimbSupersSpec(w: World, current: DefId, ups: seq<Segment>, rest: seq<Segment>)
    requires forall k :: 0 <= k < |ups| ==> ups[k].ident == SUPER
    requires rest == [] || rest[0].ident != SUPER
    ensures var r := ClimbSupers(w, current, ups + rest); var parents := ParentsOf(w, current);
      && (r.Ok? <==> |ups| <= |parents|)
      && (r.Ok? ==> r.value == ResolvedPath(if ups == [] then current else parents[|ups| - 1], NoArgs, rest))
  {
    var segments := ups + rest;
    assert forall k :: 0 <= k < |ups| ==> segments[k] == ups[k];
    if rest != [] {
      assert segments[|ups|] == rest[0];
    }
    LeadingSupersExact(segments, |ups|);
    assert segments[|ups|..] == rest;
  }

  // ---------------------------------------------------------------------------
  // Types, traits and primitives
  // ---------------------------------------------------------------------------

  /** The items whose printed path ends in the name, in order. */
  function ItemsNamed(w: World, items: seq<DefId>, name: string): (r: seq<DefId>)
    ensures forall d :: d in r <==> d in items && IsItemName(PathOf(w, d), name)
    ensures |r| <= |items|
  {
    if items == [] then []
    else
      var rest := ItemsNamed(w, items[1..], name);
      assert forall d :: d in items <==> d == items[0] || d in items[1..];
      if IsItemName(PathOf(w, items[0]), name) then [items[0]] + rest else rest
  }

  /** The items whose last two path segments spell the generic arguments and the name. */
  function ItemsMatching(w: World, items: seq<DefId>, genericArgs: string, name: string): (r: seq<DefId>)
    ensures forall d :: d in r <==> d in items && LastTwoItemsMatch(PathOf(w, d), genericArgs, name)
    ensures |r| <= |items|
  {
    if items == [] then []
    else
      var rest := ItemsMatching(w, items[1..], genericArgs, name);
      assert forall d :: d in items <==> d == items[0] || d in items[1..];
      if LastTwoItemsMatch(PathOf(w, items[0]), genericArgs, name) then [items[0]] + rest else rest
  }

  /**
   * `resolve_in_type_def`: the items of the type's inherent impls with the name. Several
   * of them need angle-bracketed generic arguments on the base to pick one.
   */
  function ResolveInTypeDef(w: World, typeId: DefId, baseArgs: PathArguments, name: string): Result<DefId, ResolveError>
  {
    var candidates := ItemsNamed(w, Get(w.inherentItems, typeId, []), name);
    if |candidates| == 0 then Err(MissingItem(typeId, name))
    else if |candidates| == 1 then Ok(candidates[0])
    else
      match baseArgs
      case NoArgs => Err(AmbiguousPartialPath(name, typeId, candidates))
      case AngleBracketed(tokens) =>
        var genericArgs := GenericArgsToString(tokens);
        var refined := ItemsMatching(w, candidates, genericArgs, name);
        if |refined| == 0 then Err(InvalidPath(InvalidGenericArgs(genericArgs, candidates)))
        else if |refined| == 1 then Ok(refined[0])
        else Err(MultipleRefinedCandidates(refined))
      case Parenthesized(tokens) => Err(InvalidPath(InvalidGenericArgs(GenericArgsToString(tokens), candidates)))
  }

  /**
   * What `resolve_in_type_def` promises: a missing item exactly when no inherent item has
   * the name; a result is always an inherent item with the name; without generic
   * arguments a result exists exactly when the name is unique; a name shared by several
   * items resolves only through angle-bracketed arguments that its path spells.
   */
  lemma {:induction false} ResolveInTypeDefCases(w: World, typeId: DefId, baseArgs: PathArguments, name: string)
    ensures var r := ResolveInTypeDef(w, typeId, baseArgs, name);
      var items := Get(w.inherentItems, typeId, []);
      var candidates := ItemsNamed(w, items, name);
      && (r == Err(MissingItem(typeId, name)) <==> forall k :: 0 <= k < |items| ==> !IsItemName(PathOf(w, items[k]), name))
      && (r.Ok? ==> r.value in items && IsItemName(PathOf(w, r.value), name))
      && (baseArgs.NoArgs? ==> (r.Ok? <==> |candidates| == 1))
      && (r.Ok? && |candidates| > 1 ==>
            baseArgs.AngleBracketed? && LastTwoItemsMatch(PathOf(w, r.value), GenericArgsToString(baseArgs.tokens), name))
      && (baseArgs.Parenthesized? && |candidates| > 1 ==> r.Err? && r.error.InvalidPath?)
  {
    var items := Get(w.inherentItems, typeId, []);
    var candidates := ItemsNamed(w, items, name);
    var r := ResolveInTypeDef(w, typeId, baseArgs, name);
    if |candidates| == 0 {
      forall k | 0 <= k < |items| ensures !IsItemName(PathOf(w, items[k]), name) {
        assert items[k] in items;
      }
    } else {
      assert candidates[0] in candidates;
      if r.Ok? && |candidates| > 1 {
        var refined := ItemsMatching(w, candidates, GenericArgsToString(baseArgs.tokens), name);
        assert refined[0] in refined;
      }
    }
  }

  /** `resolve_in_trait`: the first associated item of the trait with the name. */
  function ResolveInTrait(w: World, traitId: DefId, name: string): (r: Result<DefId, ResolveError>)
    ensures r.Ok? ==> r.value in Get(w.traitItems, traitId, []) && IsItemName(PathOf(w, r.value), name)
    ensures r.Err? <==> forall k :: 0 <= k < |Get(w.traitItems, traitId, [])| ==> !IsItemName(PathOf(w, Get(w.traitItems, traitId, [])[k]), name)
  {
    match FirstItemNamed(w, Get(w.traitItems, traitId, []), name)
    case Some(d) => Ok(d)
    case None => Err(MissingItem(traitId, name))
  }

  /**
   * `resolve_in_primitive`: the first segment names an item of the primitive type's
   * impls; the remaining segments are left to resolve from it.
   */
  function ResolveInPrimitive(w: World, primitive: string, segments: seq<Segment>): (r: Result<ResolvedPath, ResolveError>)
    ensures segments == [] <==> r == Err(InvalidPath(UnexpectedPrimitive(primitive)))
    ensures r.Ok? ==> && r.value.base in Get(w.primitiveItems, primitive, [])
                      && IsItemName(PathOf(w, r.value.base), segments[0].ident)
                      && r.value.segments == segments[1..] && r.value.baseArgs == NoArgs
  {
    if segments == [] then Err(InvalidPath(UnexpectedPrimitive(primitive)))
    else
      match FirstItemNamed(w, Get(w.primitiveItems, primitive, []), segments[0].ident)
      case Some(item) => Ok(ResolvedPath(item, NoArgs, segments[1..]))
      case None => Err(MissingPrimitiveItem(primitive, segments[0].ident))
  }

  // ---------------------------------------------------------------------------
  // Simple paths
  // ---------------------------------------------------------------------------

  /** The path syntax accepts no empty path without a leading `::`. */
  predicate WellFormed(path: SynPath)
  {
    path.leadingColon || path.segments != []
  }

  /**
   * `resolve_prefix`: `::name` is an external crate; `crate`, `self` and `super` are the
   * crate root, the current module and its ancestors; a primitive type's name starts in
   * its impls; any other name is looked up in the current module first and as a crate
   * name only if the module has no such item.
   */
  function ResolvePrefix(w: World, current: DefId, path: SynPath): Result<ResolvedPath, ResolveError>
    requires current in w.local && WellFormed(path)
  {
    var segments := path.segments;
    if path.leadingColon then
      if segments == [] then Err(InvalidPath(ExpectedIdentAfterColons))
      else
        match ResolveExternal(w, segments[0].ident)
        case Some(d) => Ok(ResolvedPath(d, segments[0].args, segments[1..]))
        case None => Err(MissingItem(current, segments[0].ident))
    else
      var first := segments[0];
      if first.ident == CRATE then Ok(ResolvedPath(CrateRoot(w, current), first.args, segments[1..]))
      else if first.ident == SELF then ClimbSupers(w, current, segments[1..])
      else if first.ident == SUPER then ClimbSupers(w, current, segments)
      else if first.ident in w.primitives then ResolveInPrimitive(w, first.ident, segments[1..])
      else
        match ResolveInModule(w, current, first.ident)
        case Ok(d) => Ok(ResolvedPath(d, first.args, segments[1..]))
        case Err(e) =>
          if e.MissingItem? then
            match ResolveExternal(w, first.ident)
            case Some(d) => Ok(ResolvedPath(d, first.args, segments[1..]))
            case None => Err(e)
          else Err(e)
  }

  /** A plain name that is not a keyword or primitive: the local module decides unless it has no such item. */
  lemma {:induction false} ResolvePrefixLocalFirst(w: World, current: DefId, first: Segment, rest: seq<Segment>)
    requires current in w.local
    requires first.ident !in {CRATE, SELF, SUPER} && first.ident !in w.primitives
    ensures var r := ResolvePrefix(w, current, SynPath(false, [first] + rest));
      var local := ResolveInModule(w, current, first.ident);
      var external := ResolveExternal(w, first.ident);
      && (local.Ok? ==> r == Ok(ResolvedPath(local.value, first.args, rest)))
      && (local.Err? && !local.error.MissingItem? ==> r == Err(local.error))
      && (local.Err? && local.error.MissingItem? ==>
            r == if external.Some? then Ok(ResolvedPath(external.value, first.args, rest)) else Err(local.error))
  {
    assert ([first] + rest)[0] == first && ([first] + rest)[1..] == rest;
  }

  /** `self::super::…` climbs exactly as far as `super::…`, and `self::` alone stays put. */
  lemma {:induction false} SelfSuperClimbsLikeSuper(w: World, current: DefId, a: PathArguments, b: PathArguments, rest: seq<Segment>)
    requires current in w.local
    ensures ResolvePrefix(w, current, SynPath(false, [Segment(SELF, a), Segment(SUPER, b)] + rest))
         == ResolvePrefix(w, current, SynPath(false, [Segment(SUPER, b)] + rest))
    ensures rest == [] || rest[0].ident != SUPER ==>
      ResolvePrefix(w, current, SynPath(false, [Segment(SELF, a)] + rest)) == Ok(ResolvedPath(current, NoArgs, rest))
  {
    var withSelf := [Segment(SELF, a), Segment(SUPER, b)] + rest;
    assert withSelf[1..] == [Segment(SUPER, b)] + rest;
    var plain := [Segment(SELF, a)] + rest;
    assert plain[1..] == rest;
    if rest == [] || rest[0].ident != SUPER {
      ClimbSupersSpec(w, current, [], rest);
      assert [] + rest == rest;
    }
  }

  /** One step of `resolve_path`: the kind of the current definition decides where to look. */
  function StepInto(w: World, base: DefId, baseArgs: PathArguments, segment: Segment): Result<DefId, ResolveError>
  {
    var kind := KindOf(w, base);
    if kind == ModKind || kind == ForeignModKind then ResolveInModule(w, base, segment.ident)
    else if kind == StructKind || kind == EnumKind || kind == UnionKind then ResolveInTypeDef(w, base, baseArgs, segment.ident)
    else if kind == TraitKind then ResolveInTrait(w, base, segment.ident)
    else Err(UnexpectedType(base, "module"))
  }

  /**
   * The fold of `resolve_path` over the remaining segments. The generic arguments used in
   * every type lookup are those written on the base of the path.
   */
  function ResolveSegments(w: World, base: DefId, baseArgs: PathArguments, segments: seq<Segment>): Result<DefId, ResolveError>
    decreases |segments|
  {
    if segments == [] then Ok(base)
    else
      match StepInto(w, base, baseArgs, segments[0])
      case Ok(d) => ResolveSegments(w, d, baseArgs, segments[1..])
      case Err(e) => Err(e)
  }

  /** Resolving segments one after the other is resolving their concatenation. */
  lemma {:induction false} ResolveSegmentsAppend(w: World, base: DefId, baseArgs: PathArguments, s: seq<Segment>, t: seq<Segment>)
    ensures ResolveSegments(w, base, baseArgs, s + t) ==
      match ResolveSegments(w, base, baseArgs, s)
      case Ok(d) => ResolveSegments(w, d, baseArgs, t)
      case Err(e) => Err(e)
    decreases |s|
  {
    if s == [] {
      assert s + t == t;
    } else {
      assert (s + t)[0] == s[0] && (s + t)[1..] == s[1..] + t;
      match StepInto(w, base, baseArgs, s[0])
      case Ok(d) => ResolveSegmentsAppend(w, d, baseArgs, s[1..], t);
      case Err(e) =>
    }
  }

  /** `resolve_path`. */
  function ResolvePath(w: World, current: DefId, path: SynPath): Result<DefId, ResolveError>
    requires current in w.local && WellFormed(path)
  {
    match ResolvePrefix(w, current, path)
    case Ok(p) => ResolveSegments(w, p.base, p.baseArgs, p.segments)
    case Err(e) => Err(e)
  }

  // ---------------------------------------------------------------------------
  // Functions
  // ---------------------------------------------------------------------------

  /** The `Self` type of a qualified path that names a user type. */
  datatype UserTy = AdtTy(def: DefId) | ForeignTy | AliasTy

  /**
   * A parsed function path: a simple path, or a qualified one whose `Self` type has been
   * resolved (or failed to) by the type resolver, which is not part of this model.
   */
  datatype FnPath =
    | Simple(path: SynPath)
    | TraitQualified(selfTy: Result<nat, ResolveError>, path: SynPath)
    | PrimitiveQualified(primitive: Result<string, ResolveError>, segments: seq<Segment>)
    | UserQualified(userTy: Result<UserTy, ResolveError>, segments: seq<Segment>)

  datatype FnResolution = FnRes(def: DefId) | FnImpl(def: DefId, ty: nat)

  predicate IsFnKind(w: World, d: DefId)
  {
    KindOf(w, d) == FnKind || KindOf(w, d) == AssocFnKind
  }

  /** `validate_kind!` for functions and methods. */
  function ValidateFn(w: World, d: DefId): (r: Result<DefId, ResolveError>)
    ensures r.Ok? <==> IsFnKind(w, d)
    ensures r.Ok? ==> r.value == d
  {
    if IsFnKind(w, d) then Ok(d) else Err(UnexpectedType(d, "function / method"))
  }

  /** `resolve_in_user_type`: one segment, looked up in the inherent impls of an ADT. */
  function ResolveInUserType(w: World, ty: UserTy, segments: seq<Segment>): Result<DefId, ResolveError>
    requires segments != []
  {
    match ty
    case ForeignTy => Err(UnsupportedPath("foreign type"))
    case AliasTy => Err(UnsupportedPath("alias"))
    case AdtTy(d) =>
      if |segments| > 1 then Err(UnexpectedType(d, "module"))
      else ResolveInTypeDef(w, d, NoArgs, segments[0].ident)
  }

  predicate FnPathWellFormed(fp: FnPath)
  {
    match fp
    case Simple(path) => WellFormed(path)
    case TraitQualified(_, path) => WellFormed(path)
    case PrimitiveQualified(_, _) => true
    case UserQualified(_, segments) => segments != []
  }

  /** `resolve_fn_path`. */
  function ResolveFnPath(w: World, current: DefId, fp: FnPath): Result<FnResolution, ResolveError>
    requires current in w.local && FnPathWellFormed(fp)
  {
    match fp
    case Simple(path) =>
      (match ResolvePath(w, current, path)
       case Err(e) => Err(e)
       case Ok(d) => (match ValidateFn(w, d) case Ok(f) => Ok(FnRes(f)) case Err(e) => Err(e)))
    case TraitQualified(selfTy, path) =>
      (match selfTy
       case Err(e) => Err(e)
       case Ok(ty) =>
         match ResolvePath(w, current, path)
         case Err(e) => Err(e)
         case Ok(d) => (match ValidateFn(w, d) case Ok(f) => Ok(FnImpl(f, ty)) case Err(e) => Err(e)))
    case PrimitiveQualified(primitive, segments) =>
      (match primitive
       case Err(e) => Err(e)
       case Ok(p) =>
         match ResolveInPrimitive(w, p, segments)
         case Err(e) => Err(e)
         case Ok(resolved) =>
           if resolved.segments != [] then Err(UnexpectedType(resolved.base, "module"))
           else if IsFnKind(w, resolved.base) then Ok(FnRes(resolved.base))
           else Err(NotAFunction(resolved.base)))
    case UserQualified(userTy, segments) =>
      (match userTy
       case Err(e) => Err(e)
       case Ok(ty) =>
         match ResolveInUserType(w, ty, segments)
         case Err(e) => Err(e)
         case Ok(d) => (match ValidateFn(w, d) case Ok(f) => Ok(FnRes(f)) case Err(e) => Err(e)))
  }

  /**
   * Whatever route a path takes, what it resolves to is a function or a method, and a
   * trait-qualified path is the only one that yields an implementation of a trait method.
   */
  lemma {:induction false} ResolveFnPathIsFunction(w: World, current: DefId, fp: FnPath)
    requires current in w.local && FnPathWellFormed(fp)
    ensures var r := ResolveFnPath(w, current, fp);
      && (r.Ok? ==> IsFnKind(w, r.value.def))
      && (r.Ok? ==> (r.value.FnImpl? <==> fp.TraitQualified?))
  {
  }

  /**
   * `resolve_fn`: the path string parses (the parse result is an input) and resolves to a
   * plain function; a trait implementation found by a qualified path is not supported.
   */
  function ResolveFn(w: World, current: DefId, pathStr: string, parsed: Option<FnPath>): (r: Result<DefId, ResolveError>)
    requires current in w.local && (parsed.Some? ==> FnPathWellFormed(parsed.value))
    ensures parsed.None? ==> r == Err(InvalidPath(NotAPath(pathStr)))
    ensures r.Ok? ==> IsFnKind(w, r.value)
    ensures parsed.Some? && parsed.value.TraitQualified? ==> r.Err?
  {
    match parsed
    case None => Err(InvalidPath(NotAPath(pathStr)))
    case Some(fp) =>
      ResolveFnPathIsFunction(w, current, fp);
      match ResolveFnPath(w, current, fp)
      case Err(e) => Err(e)
      case Ok(res) => if res.FnRes? then Ok(res.def) else Err(UnsupportedPath("qualified paths"))
  }
}
