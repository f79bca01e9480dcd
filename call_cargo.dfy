/**
 * How the Kani driver turns a cargo workspace into builds: which targets of a package are
 * verified, when an artifact reported by cargo belongs to a target, the cargo arguments
 * that select a target, which packages are verified, and which Kani metadata file a
 * build produced.
 */
module CallCargo {
  import opened Wrappers

  // ---------------------------------------------------------------------------
  // Cargo targets
  // ---------------------------------------------------------------------------

  /** The kinds cargo reports for a target (`cargo_metadata::TargetKind`). */
  datatype TargetKind =
    | Bin | Lib | RLib | CDyLib | DyLib | StaticLib | ProcMacro | Test | Example | Bench | CustomBuild
    | UnknownKind(kindName: string)

  /** A cargo target as reported by `cargo metadata` and by compiler artifact messages. */
  datatype Target = Target(
    name: string,
    kind: seq<TargetKind>,
    crateTypes: seq<string>,
    requiredFeatures: seq<string>,
    srcPath: string,
    edition: string,
    doctest: bool,
    test: bool,
    doc: bool)

  /** The kinds that build a library Kani can verify. */
  predicate IsLibKind(k: TargetKind)
  {
    k.Lib? || k.RLib? || k.CDyLib? || k.DyLib? || k.StaticLib?
  }

  predicate IsCustomBuild(t: Target)
  {
    CustomBuild in t.kind
  }

  /** The name with every `-` replaced by `_`, as cargo spells crate names. */
  function Underscored(s: string): (r: string)
    ensures |r| == |s|
    ensures forall i :: 0 <= i < |s| ==> r[i] == (if s[i] == '-' then '_' else s[i])
  {
    if |s| == 0 then [] else [if s[0] == '-' then '_' else s[0]] + Underscored(s[1..])
  }

  lemma {:induction false} UnderscoredHasNoDash(s: string)
    ensures '-' !in Underscored(s)
    ensures Underscored(Underscored(s)) == Underscored(s)
  {
    var r := Underscored(s);
    assert forall i :: 0 <= i < |r| ==> r[i] != '-';
  }

  /**
   * `same_target`: equal targets, or targets whose names agree once dashes become
   * underscores and whose kind, source path, edition and doctest/test/doc flags agree;
   * the crate types and required features are not compared.
   */
  predicate SameTarget(t1: Target, t2: Target)
  {
    || t1 == t2
    || (&& Underscored(t1.name) == Underscored(t2.name)
        && t1.kind == t2.kind
        && t1.srcPath == t2.srcPath
        && t1.edition == t2.edition
        && t1.doctest == t2.doctest
        && t1.test == t2.test
        && t1.doc == t2.doc)
  }

  /** Matching an artifact to its target is an equivalence between targets. */
  lemma {:induction false} SameTargetIsEquivalence(t1: Target, t2: Target, t3: Target)
    ensures SameTarget(t1, t1)
    ensures SameTarget(t1, t2) ==> SameTarget(t2, t1)
    ensures SameTarget(t1, t2) && SameTarget(t2, t3) ==> SameTarget(t1, t3)
  {
  }

  /**
   * A target reported under the crate's underscored name, with different crate types,
   * is still the target that was built; a target of another kind is not.
   */
  lemma {:induction false} SameTargetAcrossSpellings(t: Target, crateTypes: seq<string>)
    ensures SameTarget(t, t.(name := Underscored(t.name), crateTypes := crateTypes))
    ensures !SameTarget(t, t.(name := Underscored(t.name), kind := t.kind + [Test]))
  {
    UnderscoredHasNoDash(t.name);
    var other := t.(name := Underscored(t.name), kind := t.kind + [Test]);
    assert |other.kind| != |t.kind|;
    assert t.kind != other.kind;
  }

  // ---------------------------------------------------------------------------
  // Verification targets
  // ---------------------------------------------------------------------------

  /** A target the driver builds for verification. */
  datatype VerificationTarget = BinTarget(target: Target) | LibTarget(target: Target) | TestTarget(target: Target)

  /** `VerificationTarget::to_args`: the cargo arguments that select the target. */
  function ToArgs(v: VerificationTarget): (args: seq<string>)
  {
    match v
    case TestTarget(t) => ["--test", t.name]
    case BinTarget(t) => ["--bin", t.name]
    case LibTarget(_) => ["--lib"]
  }

  /**
   * The arguments tell the three kinds apart, and for binaries and tests they name the
   * target: two verification targets with the same arguments are the same kind of target
   * and, unless both are libraries, have the same name.
   */
  lemma {:induction false} ToArgsSelects(v: VerificationTarget, w: VerificationTarget)
    ensures |ToArgs(v)| == if v.LibTarget? then 1 else 2
    ensures !v.LibTarget? ==> ToArgs(v)[1] == v.target.name
    ensures ToArgs(v) == ToArgs(w) ==>
      (v.BinTarget? <==> w.BinTarget?) && (v.LibTarget? <==> w.LibTarget?) && (v.LibTarget? || v.target.name == w.target.name)
  {
    if ToArgs(v) == ToArgs(w) && !v.LibTarget? {
      assert ToArgs(v)[0] == ToArgs(w)[0] && ToArgs(v)[1] == ToArgs(w)[1];
    }
  }

  /** The description of a target in diagnostics (`Display for VerificationTarget`). */
  function Describe(v: VerificationTarget): (s: string)
  {
    match v
    case TestTarget(t) => "test `" + t.name + "`"
    case BinTarget(t) => "binary `" + t.name + "`"
    case LibTarget(t) => "lib `" + t.name + "`"
  }

  /** The description names the kind of target and the target's name, which it gives back. */
  lemma {:induction false} DescribeInjective(v: VerificationTarget, w: VerificationTarget)
    ensures Describe(v) == Describe(w) ==>
      (v.BinTarget? <==> w.BinTarget?) && (v.LibTarget? <==> w.LibTarget?) && v.target.name == w.target.name
  {
    if Describe(v) == Describe(w) {
      var s := Describe(v);
      assert s[0] == Describe(w)[0];
      var prefix := if v.TestTarget? then "test `" else if v.BinTarget? then "binary `" else "lib `";
      assert s == prefix + v.target.name + "`";
      assert Describe(w) == prefix + w.target.name + "`";
      assert v.target.name == s[|prefix|..|s| - 1];
    }
  }

  // ---------------------------------------------------------------------------
  // Targets of a package (`package_targets`)
  // ---------------------------------------------------------------------------

  /**
   * The part of the verification arguments that selects targets: whether libraries and
   * tests are included, which binaries are included, and whether `--tests` was given.
   */
  datatype TargetArgs = TargetArgs(includeLib: bool, includeTests: bool, includeBin: string -> bool, tests: bool)

  /**
   * What scanning targets produces: the targets to verify, the tests skipped for want of
   * `--tests`, the targets of unsupported kinds, and the libraries skipped with a warning
   * because they are also procedural macros.
   */
  datatype Scan = Scan(
    targets: seq<VerificationTarget>,
    ignoredTests: seq<string>,
    ignoredUnsupported: seq<string>,
    skippedProcMacro: seq<string>)

  const NoScan := Scan([], [], [], [])

  function Plus(a: Scan, b: Scan): Scan
  {
    Scan(a.targets + b.targets, a.ignoredTests + b.ignoredTests,
         a.ignoredUnsupported + b.ignoredUnsupported, a.skippedProcMacro + b.skippedProcMacro)
  }

  /** What one kind of a target contributes, as the arms of the match over kinds decide. */
  function KindStep(args: TargetArgs, t: Target, k: TargetKind): Scan
  {
    if k.Bin? then
      (if args.includeBin(t.name) then Scan([BinTarget(t)], [], [], []) else NoScan)
    else if IsLibKind(k) then NoScan
    else if k.ProcMacro? then
      (if args.includeLib then Scan([], [], [t.name], []) else NoScan)
    else if k.Test? then
      (if !args.includeTests then NoScan
       else if args.tests then Scan([TestTarget(t)], [], [], [])
       else Scan([], [t.name], [], []))
    else Scan([], [], [t.name], [])
  }

  /** The kinds of a target taken in order. */
  function KindsScan(args: TargetArgs, t: Target, kinds: seq<TargetKind>): Scan
  {
    if |kinds| == 0 then NoScan
    else Plus(KindsScan(args, t, kinds[..|kinds| - 1]), KindStep(args, t, kinds[|kinds| - 1]))
  }

  /** Some kind of the target builds a supported library, and libraries are included. */
  predicate SupportedLib(args: TargetArgs, kinds: seq<TargetKind>)
  {
    args.includeLib && exists i :: 0 <= i < |kinds| && IsLibKind(kinds[i])
  }

  /** The target is a procedural macro, and libraries are included. */
  predicate UnsupportedLib(args: TargetArgs, kinds: seq<TargetKind>)
  {
    args.includeLib && ProcMacro in kinds
  }

  /** After the kinds: a supported library is verified, unless it is also a procedural macro. */
  function LibStep(args: TargetArgs, t: Target): Scan
  {
    if SupportedLib(args, t.kind) && UnsupportedLib(args, t.kind) then Scan([], [], [], [t.name])
    else if SupportedLib(args, t.kind) then Scan([LibTarget(t)], [], [], [])
    else NoScan
  }

  function TargetScan(args: TargetArgs, t: Target): Scan
  {
    Plus(KindsScan(args, t, t.kind), LibStep(args, t))
  }

  /** The targets of a package taken in order. */
  function TargetsScan(args: TargetArgs, ts: seq<Target>): Scan
  {
    if |ts| == 0 then NoScan
    else Plus(TargetsScan(args, ts[..|ts| - 1]), TargetScan(args, ts[|ts| - 1]))
  }

  lemma {:induction false} PlusAssoc(a: Scan, b: Scan, c: Scan)
    ensures Plus(Plus(a, b), c) == Plus(a, Plus(b, c))
  {
    assert (a.targets + b.targets) + c.targets == a.targets + (b.targets + c.targets);
  }

  lemma {:induction false} KindsSnoc(args: TargetArgs, t: Target, kinds: seq<TargetKind>, j: nat)
    requires j < |kinds|
    ensures KindsScan(args, t, kinds[..j + 1]) == Plus(KindsScan(args, t, kinds[..j]), KindStep(args, t, kinds[j]))
    ensures SupportedLib(args, kinds[..j + 1]) == (SupportedLib(args, kinds[..j]) || (args.includeLib && IsLibKind(kinds[j])))
    ensures UnsupportedLib(args, kinds[..j + 1]) == (UnsupportedLib(args, kinds[..j]) || (args.includeLib && kinds[j].ProcMacro?))
  {
    assert kinds[..j + 1][..j] == kinds[..j];
    assert kinds[..j + 1] == kinds[..j] + [kinds[j]];
  }

  /** `package_targets`, with the lists it prints in verbose mode returned instead. */
  method PackageTargets(args: TargetArgs, ts: seq<Target>) returns (s: Scan)
    ensures s == TargetsScan(args, ts)
  {
    s := NoScan;
    var i := 0;
    while i < |ts|
      invariant i <= |ts|
      invariant s == TargetsScan(args, ts[..i])
    {
      s := ScanTarget(args, ts[i], s);
      assert ts[..i + 1][..i] == ts[..i];
      i := i + 1;
    }
    assert ts[..i] == ts;
  }

  /**
   * One iteration of the loop over targets in `package_targets`: the kinds of `t` in order,
   * then the library decision taken from the two flags the kinds set.
   */
  method ScanTarget(args: TargetArgs, t: Target, acc: Scan) returns (r: Scan)
    ensures r == Plus(acc, TargetScan(args, t))
  {
    r := acc;
    var supportedLib, unsupportedLib := false, false;
    var j := 0;
    while j < |t.kind|
      invariant j <= |t.kind|
      invariant r == Plus(acc, KindsScan(args, t, t.kind[..j]))
      invariant supportedLib == SupportedLib(args, t.kind[..j])
      invariant unsupportedLib == UnsupportedLib(args, t.kind[..j])
    {
      KindsSnoc(args, t, t.kind, j);
      PlusAssoc(acc, KindsScan(args, t, t.kind[..j]), KindStep(args, t, t.kind[j]));
      var lib, procMacro;
      r, lib, procMacro := KindArm(args, t, t.kind[j], r);
      supportedLib := supportedLib || lib;
      unsupportedLib := unsupportedLib || procMacro;
      j := j + 1;
    }
    assert t.kind[..j] == t.kind;
    PlusAssoc(acc, KindsScan(args, t, t.kind), LibStep(args, t));
    if supportedLib && unsupportedLib {
      r := r.(skippedProcMacro := r.skippedProcMacro + [t.name]);
    } else if supportedLib {
      r := r.(targets := r.targets + [LibTarget(t)]);
    }
  }

  /**
   * The match over one kind of a target: what it pushes, and whether it marks the target
   * as a supported library or as a procedural macro.
   */
  method KindArm(args: TargetArgs, t: Target, k: TargetKind, acc: Scan) returns (r: Scan, lib: bool, procMacro: bool)
    ensures r == Plus(acc, KindStep(args, t, k))
    ensures lib == (args.includeLib && IsLibKind(k))
    ensures procMacro == (args.includeLib && k.ProcMacro?)
  {
    r, lib, procMacro := acc, false, false;
    if k.Bin? {
      if args.includeBin(t.name) {
        r := r.(targets := r.targets + [BinTarget(t)]);
      }
    } else if IsLibKind(k) {
      if args.includeLib {
        lib := true;
      }
    } else if k.ProcMacro? {
      if args.includeLib {
        procMacro := true;
        r := r.(ignoredUnsupported := r.ignoredUnsupported + [t.name]);
      }
    } else if k.Test? {
      if args.includeTests {
        if args.tests {
          r := r.(targets := r.targets + [TestTarget(t)]);
        } else {
          r := r.(ignoredTests := r.ignoredTests + [t.name]);
        }
      }
    } else {
      r := r.(ignoredUnsupported := r.ignoredUnsupported + [t.name]);
    }
  }

  /**
   * What the kinds of a target contribute: a binary exactly when a kind is `Bin` and the
   * binary is included, a test exactly when a kind is `Test`, tests are included and
   * `--tests` was given, the target recorded as an ignored test exactly when `--tests`
   * was not; never a library, and nothing about other targets.
   */
  lemma {:induction false} KindsScanFacts(args: TargetArgs, t: Target, kinds: seq<TargetKind>)
    ensures var s := KindsScan(args, t, kinds);
      && (BinTarget(t) in s.targets <==> Bin in kinds && args.includeBin(t.name))
      && (TestTarget(t) in s.targets <==> Test in kinds && args.includeTests && args.tests)
      && (t.name in s.ignoredTests <==> Test in kinds && args.includeTests && !args.tests)
      && (forall v :: v in s.targets ==> !v.LibTarget? && v.target == t)
      && (forall n :: n in s.ignoredTests ==> n == t.name)
      && s.skippedProcMacro == []
  {
    KindsScanShape(args, t, kinds);
    KindsScanBin(args, t, kinds);
    KindsScanTest(args, t, kinds);
  }

  /** The kinds of a target push only its own binary and test targets, and skip no procedural macro. */
  lemma {:induction false} KindsScanShape(args: TargetArgs, t: Target, kinds: seq<TargetKind>)
    ensures var s := KindsScan(args, t, kinds);
      && (forall v :: v in s.targets ==> (v == BinTarget(t) || v == TestTarget(t)))
      && (forall n :: n in s.ignoredTests ==> n == t.name)
      && s.skippedProcMacro == []
  {
    if |kinds| > 0 {
      KindsScanShape(args, t, kinds[..|kinds| - 1]);
    }
  }

  /** A binary is pushed exactly when some kind is `Bin` and the binary is included. */
  lemma {:induction false} KindsScanBin(args: TargetArgs, t: Target, kinds: seq<TargetKind>)
    ensures BinTarget(t) in KindsScan(args, t, kinds).targets <==> Bin in kinds && args.includeBin(t.name)
  {
    if |kinds| > 0 {
      var init, last := kinds[..|kinds| - 1], kinds[|kinds| - 1];
      KindsScanBin(args, t, init);
      assert kinds == init + [last];
      assert (Bin in kinds) == (Bin in init || last == Bin);
    }
  }

  /** A test is pushed exactly when some kind is `Test`, tests are included and `--tests` was given; it is recorded as ignored exactly when `--tests` was not. */
  lemma {:induction false} KindsScanTest(args: TargetArgs, t: Target, kinds: seq<TargetKind>)
    ensures var s := KindsScan(args, t, kinds);
      && (TestTarget(t) in s.targets <==> Test in kinds && args.includeTests && args.tests)
      && (t.name in s.ignoredTests <==> Test in kinds && args.includeTests && !args.tests)
  {
    if |kinds| > 0 {
      var init, last := kinds[..|kinds| - 1], kinds[|kinds| - 1];
      KindsScanTest(args, t, init);
      assert kinds == init + [last];
      assert (Test in kinds) == (Test in init || last == Test);
    }
  }

  /** A target with a library kind is verified as a library exactly once, unless it is also a procedural macro, in which case it is reported as skipped. */
  lemma {:induction false} LibraryOnce(args: TargetArgs, t: Target)
    ensures var s := TargetScan(args, t);
      && multiset(s.targets)[LibTarget(t)] == (if SupportedLib(args, t.kind) && !UnsupportedLib(args, t.kind) then 1 else 0)
      && s.skippedProcMacro == (if SupportedLib(args, t.kind) && UnsupportedLib(args, t.kind) then [t.name] else [])
  {
    var ks := KindsScan(args, t, t.kind);
    KindsScanFacts(args, t, t.kind);
    assert LibTarget(t) !in ks.targets;
    assert multiset(ks.targets)[LibTarget(t)] == 0;
  }

  /**
   * A binary target is verified exactly when it is included; a test target exactly when
   * tests are included and `--tests` was given, and it is recorded as ignored exactly when
   * tests are included but `--tests` was not given.
   */
  lemma {:induction false} BinariesAndTests(args: TargetArgs, t: Target)
    ensures var s := TargetScan(args, t);
      && (BinTarget(t) in s.targets <==> Bin in t.kind && args.includeBin(t.name))
      && (TestTarget(t) in s.targets <==> Test in t.kind && args.includeTests && args.tests)
      && (t.name in s.ignoredTests <==> Test in t.kind && args.includeTests && !args.tests)
      && (forall v :: v in s.targets ==> v.target == t)
  {
    KindsScanFacts(args, t, t.kind);
  }

  /** Every verification target of a package comes from one of its targets, and each of those contributes all of its own. */
  lemma {:induction false} TargetsScanMembers(args: TargetArgs, ts: seq<Target>, v: VerificationTarget)
    ensures v in TargetsScan(args, ts).targets <==> exists i :: 0 <= i < |ts| && v in TargetScan(args, ts[i]).targets
  {
    if |ts| > 0 {
      var n := |ts| - 1;
      var init := ts[..n];
      TargetsScanMembers(args, init, v);
      var before := TargetsScan(args, init).targets;
      var last := TargetScan(args, ts[n]).targets;
      assert TargetsScan(args, ts).targets == before + last;
      assert forall i :: 0 <= i < n ==> init[i] == ts[i];
      if v in before {
        var i :| 0 <= i < n && v in TargetScan(args, init[i]).targets;
      }
    }
  }

  // ---------------------------------------------------------------------------
  // Kani artifacts (`map_kani_artifact`)
  // ---------------------------------------------------------------------------

  /** A file path: the parent directory, as text, and the file name. */
  datatype FilePath = FilePath(dir: string, fileName: string)

  /** The extension Kani gives its metadata files. */
  const METADATA_EXTENSION := "kani-metadata.json"

  /** The index of the last `.` in `s`, if any. */
  function LastDot(s: string): (r: Option<nat>)
    ensures r.Some? ==> r.value < |s| && s[r.value] == '.' && '.' !in s[r.value + 1..]
    ensures r.None? ==> '.' !in s
  {
    if |s| == 0 then None
    else if s[|s| - 1] == '.' then Some(|s| - 1)
    else
      var r := LastDot(s[..|s| - 1]);
      assert s == s[..|s| - 1] + [s[|s| - 1]];
      r
  }

  /** A file name's stem and extension. */
  datatype NameParts = NameParts(stem: string, ext: Option<string>)

  /**
   * A file name split into stem and extension as Rust's `Path::file_stem` and
   * `Path::extension` split it: at the last dot, except that `..`, a name without a dot
   * and a name whose only dot leads it have no extension.
   */
  function SplitName(name: string): NameParts
  {
    if name == ".." then NameParts(name, None)
    else match LastDot(name)
      case None => NameParts(name, None)
      case Some(i) => if i == 0 then NameParts(name, None) else NameParts(name[..i], Some(name[i + 1..]))
  }

  /** Splitting gives the name back, and an extension never holds a dot. */
  lemma {:induction false} SplitNameRejoins(name: string)
    ensures var parts := SplitName(name);
      && (parts.ext.None? ==> parts.stem == name)
      && (parts.ext.Some? ==> parts.stem + "." + parts.ext.value == name && parts.stem != [] && '.' !in parts.ext.value)
  {
    if SplitName(name).ext.Some? {
      var i := LastDot(name).value;
      assert name == name[..i] + "." + name[i + 1..];
    }
  }

  /** A name built from a stem and a dot-free extension splits back into them. */
  lemma {:induction false} SplitNameOfJoin(stem: string, ext: string)
    requires stem != [] && stem != "." && '.' !in ext
    ensures SplitName(stem + "." + ext) == NameParts(stem, Some(ext))
  {
    var name := stem + "." + ext;
    assert name[|stem|] == '.';
    assert name[|stem| + 1..] == ext;
    var r := LastDot(name);
    assert r.Some? by {
      assert name[|stem|] == '.';
    }
    var i := r.value;
    assert forall j :: |stem| < j < |name| ==> name[j] == ext[j - |stem| - 1];
    assert name[..|stem|] == stem;
  }

  /**
   * The metadata path for a crate name `c` in directory `dir`: `dir` joined with `c`, with
   * its extension, if any, replaced by the metadata extension (`PathBuf::set_extension`).
   * The names `""`, `.` and `..` do not name a file in `dir` and give no path here.
   */
  function MetadataPath(dir: string, c: string): Option<FilePath>
  {
    if c == "" || c == "." || c == ".." then None
    else Some(FilePath(dir, SplitName(c).stem + "." + METADATA_EXTENSION))
  }

  /**
   * The file system as the mapping sees it: which metadata files exist, and the metadata
   * path recorded in each artifact stub file that can be read.
   */
  datatype FileSystem = FileSystem(present: set<FilePath>, stubs: map<FilePath, FilePath>)

  /** The Kani metadata file of a build. */
  datatype KaniArtifact = KaniArtifact(path: FilePath)

  /** An existing metadata file becomes an artifact (`Artifact::try_new`). */
  function TryArtifact(p: FilePath, fs: FileSystem): (r: Option<KaniArtifact>)
    ensures r.Some? <==> p in fs.present
    ensures r.Some? ==> r.value.path == p
  {
    if p in fs.present then Some(KaniArtifact(p)) else None
  }

  /**
   * The artifact one file of a rustc artifact maps to: an `.rmeta` file `libC.rmeta`
   * gives the metadata file for `C` beside it, an `.rlib` file gives nothing, and any other
   * file is a stub naming the metadata file.
   */
  function MapFile(f: FilePath, fs: FileSystem): Option<KaniArtifact>
  {
    var stem := SplitName(f.fileName).stem;
    var ext := SplitName(f.fileName).ext;
    if ext == Some("rmeta") then
      if "lib" <= stem then
        match MetadataPath(f.dir, stem[3..])
        case None => None
        case Some(p) => TryArtifact(p, fs)
      else None
    else if ext == Some("rlib") then None
    else if f in fs.stubs then TryArtifact(fs.stubs[f], fs)
    else None
  }

  /** The first file of the list that maps to an artifact (`find_map`). */
  function FirstMapped(files: seq<FilePath>, fs: FileSystem): (r: Option<KaniArtifact>)
    ensures r.Some? <==> exists i :: 0 <= i < |files| && MapFile(files[i], fs).Some?
    ensures r.Some? ==>
      exists i :: 0 <= i < |files| && MapFile(files[i], fs) == r && forall j :: 0 <= j < i ==> MapFile(files[j], fs).None?
  {
    if |files| == 0 then None
    else if MapFile(files[0], fs).Some? then MapFile(files[0], fs)
    else
      var r := FirstMapped(files[1..], fs);
      assert forall i :: 1 <= i < |files| ==> files[i] == files[1..][i - 1];
      if r.Some? then
        var i :| 0 <= i < |files[1..]| && MapFile(files[1..][i], fs) == r &&
          forall j :: 0 <= j < i ==> MapFile(files[1..][j], fs).None?;
        assert MapFile(files[i + 1], fs) == r;
        r
      else r
  }

  /** An artifact rustc reported: its target and the files it wrote. */
  datatype RustcArtifact = RustcArtifact(target: Target, filenames: seq<FilePath>)

  /** `map_kani_artifact`: custom builds are not verified; otherwise the first file that maps. */
  function MapKaniArtifact(a: RustcArtifact, fs: FileSystem): Option<KaniArtifact>
  {
    if IsCustomBuild(a.target) then None else FirstMapped(a.filenames, fs)
  }

  /**
   * The `.rmeta` file `dir/libC.rmeta`, for a crate name `C` without dots, maps to
   * `dir/C.kani-metadata.json` when that file exists and to nothing otherwise.
   */
  lemma {:induction false} RmetaMapsToMetadata(dir: string, c: string, fs: FileSystem)
    requires c != "" && '.' !in c
    ensures MapFile(FilePath(dir, "lib" + c + ".rmeta"), fs) ==
      TryArtifact(FilePath(dir, c + "." + METADATA_EXTENSION), fs)
  {
    var stem := "lib" + c;
    assert stem + ".rmeta" == stem + "." + "rmeta";
    SplitNameOfJoin(stem, "rmeta");
    assert "lib" <= stem && stem[3..] == c;
    assert c != "." && c != "..";
    assert LastDot(c).None?;
    assert MetadataPath(dir, c) == Some(FilePath(dir, c + "." + METADATA_EXTENSION));
  }

  /** An `.rlib` file never maps: the `.rmeta` file beside it does. */
  lemma {:induction false} RlibNeverMaps(dir: string, c: string, fs: FileSystem)
    requires c != "" && '.' !in c
    ensures MapFile(FilePath(dir, "lib" + c + ".rlib"), fs).None?
  {
    var stem := "lib" + c;
    assert stem + ".rlib" == stem + "." + "rlib";
    SplitNameOfJoin(stem, "rlib");
  }

  /** A custom build script never yields an artifact. */
  lemma {:induction false} CustomBuildIgnored(a: RustcArtifact, fs: FileSystem)
    requires CustomBuild in a.target.kind
    ensures MapKaniArtifact(a, fs).None?
  {
  }

  // ---------------------------------------------------------------------------
  // The artifact of a build (`run_build_target`)
  // ---------------------------------------------------------------------------

  /** What one artifact offers: its Kani artifact when it belongs to the target. */
  function Candidate(a: RustcArtifact, target: Target, fs: FileSystem): Option<KaniArtifact>
  {
    if SameTarget(a.target, target) then MapKaniArtifact(a, fs) else None
  }

  function Candidates(artifacts: seq<RustcArtifact>, target: Target, fs: FileSystem): (r: seq<Option<KaniArtifact>>)
    ensures |r| == |artifacts|
    ensures forall i :: 0 <= i < |r| ==> r[i] == Candidate(artifacts[i], target, fs)
  {
    seq(|artifacts|, i requires 0 <= i < |artifacts| => Candidate(artifacts[i], target, fs))
  }

  /** The last present value (`rev().find_map`). */
  function LastSome<T>(xs: seq<Option<T>>): Option<T>
  {
    if |xs| == 0 then None
    else if xs[|xs| - 1].Some? then xs[|xs| - 1]
    else LastSome(xs[..|xs| - 1])
  }

  lemma {:induction false} LastSomeSpec<T>(xs: seq<Option<T>>)
    ensures LastSome(xs).Some? <==> exists i :: 0 <= i < |xs| && xs[i].Some?
    ensures LastSome(xs).Some? ==>
      exists i :: 0 <= i < |xs| && xs[i] == LastSome(xs) && forall j :: i < j < |xs| ==> xs[j].None?
  {
    if xs != [] && xs[|xs| - 1].None? {
      var init := xs[..|xs| - 1];
      LastSomeSpec(init);
      assert forall i :: 0 <= i < |init| ==> init[i] == xs[i];
      if LastSome(xs).Some? {
        var i :| 0 <= i < |init| && init[i] == LastSome(init) && forall j :: i < j < |init| ==> init[j].None?;
        assert xs[i] == LastSome(xs);
      }
    }
  }

  /**
   * The artifact of a build: the artifacts are searched from the last one back, and the
   * first that belongs to the target and maps to a Kani artifact gives it.
   */
  function PickArtifact(artifacts: seq<RustcArtifact>, target: Target, fs: FileSystem): Option<KaniArtifact>
  {
    LastSome(Candidates(artifacts, target, fs))
  }

  /**
   * The build yields an artifact exactly when some artifact belongs to the target and
   * maps, and then it is the mapping of the last such artifact.
   */
  lemma {:induction false} PickArtifactIsLast(artifacts: seq<RustcArtifact>, target: Target, fs: FileSystem)
    ensures PickArtifact(artifacts, target, fs).Some? <==>
      exists i :: 0 <= i < |artifacts| && SameTarget(artifacts[i].target, target) && MapKaniArtifact(artifacts[i], fs).Some?
    ensures PickArtifact(artifacts, target, fs).Some? ==>
      exists i :: 0 <= i < |artifacts| && SameTarget(artifacts[i].target, target)
        && PickArtifact(artifacts, target, fs) == MapKaniArtifact(artifacts[i], fs)
        && forall j :: i < j < |artifacts| ==> Candidate(artifacts[j], target, fs).None?
  {
    var cs := Candidates(artifacts, target, fs);
    LastSomeSpec(cs);
  }

  // ---------------------------------------------------------------------------
  // Packages to verify (`packages_to_verify`)
  // ---------------------------------------------------------------------------

  datatype PackageId = PackageId(repr: string)

  datatype Package = Package(id: PackageId, name: string, targets: seq<Target>)

  /** What `cargo metadata` reports: every package, and the ids of the workspace members and default members. */
  datatype Metadata = Metadata(packages: seq<Package>, workspaceMembers: seq<PackageId>, workspaceDefaultMembers: seq<PackageId>)

  /** The package-selection arguments: `--package`, `--exclude` and `--workspace`. */
  datatype PackageArgs = PackageArgs(package: seq<string>, exclude: seq<string>, workspace: bool)

  /** The ways the driver's cargo build stops. */
  datatype DriverError =
    | PackageIdFailed(packageName: string)
    | PackagesNotFound(names: seq<string>)
    | NoSupportedTargets
    | BuildFailed(message: string)

  /** The packages of `ps`, in order, whose id is in `ids` when `keep` holds and is not otherwise. */
  function Select(ps: seq<Package>, ids: set<PackageId>, keep: bool): (r: seq<Package>)
    ensures |r| <= |ps|
    ensures forall p :: p in r <==> p in ps && (p.id in ids) == keep
  {
    if |ps| == 0 then []
    else (if (ps[0].id in ids) == keep then [ps[0]] else []) + Select(ps[1..], ids, keep)
  }

  function Members(ids: seq<PackageId>): set<PackageId>
  {
    set id | id in ids
  }

  /** `Metadata::workspace_packages`. */
  function WorkspacePackages(md: Metadata): seq<Package>
  {
    Select(md.packages, Members(md.workspaceMembers), true)
  }

  /** `Metadata::workspace_default_packages`. */
  function DefaultPackages(md: Metadata): seq<Package>
  {
    Select(md.packages, Members(md.workspaceDefaultMembers), true)
  }

  /**
   * `to_package_ids`: each name in order is looked up with `cargo pkgid`, given here as
   * `pkgid`; the first name it cannot resolve is an error, and a later name with the same
   * id replaces an earlier one in the map.
   */
  function ToPackageIds(names: seq<string>, pkgid: string -> Option<PackageId>): Result<map<PackageId, string>, DriverError>
  {
    if |names| == 0 then Ok(map[])
    else match ToPackageIds(names[..|names| - 1], pkgid)
      case Err(e) => Err(e)
      case Ok(m) =>
        var n := names[|names| - 1];
        match pkgid(n)
        case None => Err(PackageIdFailed(n))
        case Some(id) => Ok(m[id := n])
  }

  /**
   * The lookup succeeds exactly when every name resolves, and then maps exactly the ids of
   * the names, each to a name with that id; otherwise it reports the first name that does
   * not resolve.
   */
  lemma {:induction false} ToPackageIdsSpec(names: seq<string>, pkgid: string -> Option<PackageId>)
    ensures ToPackageIds(names, pkgid).Ok? <==> forall i :: 0 <= i < |names| ==> pkgid(names[i]).Some?
    ensures ToPackageIds(names, pkgid).Ok? ==> var m := ToPackageIds(names, pkgid).value;
      && (forall id :: id in m ==> m[id] in names && pkgid(m[id]) == Some(id))
      && (forall i :: 0 <= i < |names| ==> pkgid(names[i]).value in m)
    ensures ToPackageIds(names, pkgid).Err? ==>
      exists i :: 0 <= i < |names| && ToPackageIds(names, pkgid).error == PackageIdFailed(names[i]) && pkgid(names[i]).None? &&
        forall j :: 0 <= j < i ==> pkgid(names[j]).Some?
  {
    if |names| > 0 {
      var init := names[..|names| - 1];
      ToPackageIdsSpec(init, pkgid);
      assert forall i :: 0 <= i < |init| ==> init[i] == names[i];
      assert names == init + [names[|names| - 1]];
    }
  }

  /**
   * The names to report when requested packages are missing from the workspace, as
   * written: the name of every package of the metadata whose id was requested, whether it
   * is in the workspace or not.
   */
  function OuterNamesAsWritten(ps: seq<Package>, ids: map<PackageId, string>): (r: seq<string>)
    ensures forall n :: n in r ==> exists p :: p in ps && p.id in ids && ids[p.id] == n
  {
    if |ps| == 0 then []
    else (if ps[0].id in ids then [ids[ps[0].id]] else []) + OuterNamesAsWritten(ps[1..], ids)
  }

  /**
   * The names to report when requested packages are missing from the workspace: the name
   * of every requested package of the metadata that is not a workspace member.
   */
  function OuterNames(ps: seq<Package>, ids: map<PackageId, string>, members: set<PackageId>): (r: seq<string>)
    ensures forall n :: n in r <==> exists p :: p in ps && p.id in ids && p.id !in members && ids[p.id] == n
  {
    if |ps| == 0 then []
    else
      var rest := OuterNames(ps[1..], ids, members);
      assert forall p :: p in ps[1..] ==> p in ps;
      assert forall p :: p in ps ==> p == ps[0] || p in ps[1..];
      (if ps[0].id in ids && ps[0].id !in members then [ids[ps[0].id]] else []) + rest
  }

  /**
   * `packages_to_verify`: the requested workspace packages, failing when fewer were found
   * than requested; or the workspace packages not excluded; or all workspace members; or
   * the default members.
   */
  function PackagesToVerify(args: PackageArgs, md: Metadata, pkgid: string -> Option<PackageId>): Result<seq<Package>, DriverError>
    requires args.package == [] && args.exclude != [] ==> args.workspace
  {
    if args.package != [] then
      match ToPackageIds(args.package, pkgid)
      case Err(e) => Err(e)
      case Ok(ids) =>
        var filtered := Select(WorkspacePackages(md), ids.Keys, true);
        if |filtered| < |args.package| then Err(PackagesNotFound(OuterNames(md.packages, ids, Members(md.workspaceMembers))))
        else Ok(filtered)
    else if args.exclude != [] then
      match ToPackageIds(args.exclude, pkgid)
      case Err(e) => Err(e)
      case Ok(ids) => Ok(Select(WorkspacePackages(md), ids.Keys, false))
    else if args.workspace then Ok(WorkspacePackages(md))
    else Ok(DefaultPackages(md))
  }

  /**
   * With `--package`, the packages verified are exactly the workspace packages some
   * requested name resolves to, and a report of missing packages names exactly the
   * requested packages outside the workspace.
   */
  lemma {:induction false} SelectedPackages(args: PackageArgs, md: Metadata, pkgid: string -> Option<PackageId>)
    requires args.package != []
    ensures var r := PackagesToVerify(args, md, pkgid);
      && (r.Ok? ==> forall p :: p in r.value <==>
            p in md.packages && p.id in md.workspaceMembers && exists n :: n in args.package && pkgid(n) == Some(p.id))
      && (r.Ok? ==> |r.value| >= |args.package|)
      && (r.Err? && r.error.PackagesNotFound? ==>
            && (forall n :: n in r.error.names ==>
                  n in args.package && exists p :: p in md.packages && p.id !in md.workspaceMembers && pkgid(n) == Some(p.id))
            && (forall p, n :: p in md.packages && p.id !in md.workspaceMembers && n in args.package && pkgid(n) == Some(p.id) ==>
                  exists m :: m in r.error.names && pkgid(m) == Some(p.id)))
      && (r.Err? && !r.error.PackagesNotFound? ==> exists n :: n in args.package && r.error == PackageIdFailed(n))
  {
    ToPackageIdsSpec(args.package, pkgid);
  }

  /** With `--exclude`, the packages verified are exactly the workspace packages no excluded name resolves to. */
  lemma {:induction false} ExcludedPackages(args: PackageArgs, md: Metadata, pkgid: string -> Option<PackageId>)
    requires args.package == [] && args.exclude != [] && args.workspace
    ensures var r := PackagesToVerify(args, md, pkgid);
      && (r.Ok? ==> forall p :: p in r.value <==>
            p in md.packages && p.id in md.workspaceMembers && !exists n :: n in args.exclude && pkgid(n) == Some(p.id))
      && (r.Err? ==> exists n :: n in args.exclude && r.error == PackageIdFailed(n) && pkgid(n).None?)
  {
    ToPackageIdsSpec(args.exclude, pkgid);
  }

  /** Without `--package` or `--exclude`, the workspace members with `--workspace`, the default members otherwise. */
  lemma {:induction false} UnfilteredPackages(args: PackageArgs, md: Metadata, pkgid: string -> Option<PackageId>)
    requires args.package == [] && args.exclude == []
    ensures var r := PackagesToVerify(args, md, pkgid);
      && r.Ok?
      && forall p :: p in r.value <==>
           (p in md.packages && if args.workspace then p.id in md.workspaceMembers else p.id in md.workspaceDefaultMembers)
  {
  }

  /**
   * As written, a request for a workspace package `a` together with a package `b` that
   * cargo knows but that is outside the workspace fails, as it should, but the report of
   * packages not in the workspace lists `a` as well as `b`; the corrected report lists
   * only `b`.
   */
  lemma {:induction false} OuterNamesListsWorkspacePackages()
    ensures var a := Package(PackageId("a 0.1.0"), "a", []);
      var b := Package(PackageId("b 0.1.0"), "b", []);
      var md := Metadata([a, b], [a.id], [a.id]);
      var pkgid := (n: string) => if n == "a" then Some(a.id) else if n == "b" then Some(b.id) else None;
      var args := PackageArgs(["a", "b"], [], false);
      var ids := map[a.id := "a", b.id := "b"];
      && ToPackageIds(args.package, pkgid) == Ok(ids)
      && PackagesToVerify(args, md, pkgid) == Err(PackagesNotFound(["b"]))
      && OuterNamesAsWritten(md.packages, ids) == ["a", "b"]
  {
    var a := Package(PackageId("a 0.1.0"), "a", []);
    var b := Package(PackageId("b 0.1.0"), "b", []);
    var md := Metadata([a, b], [a.id], [a.id]);
    var pkgid := (n: string) => if n == "a" then Some(a.id) else if n == "b" then Some(b.id) else None;
    var args := PackageArgs(["a", "b"], [], false);
    assert a.id != b.id by {
      assert a.id.repr[0] != b.id.repr[0];
    }
    assert ["a", "b"][..1] == ["a"];
    assert ["a"][..0] == [];
    assert ToPackageIds(["a"], pkgid) == Ok(map[a.id := "a"]);
    var ids := map[a.id := "a", b.id := "b"];
    assert ToPackageIds(args.package, pkgid) == Ok(ids);
    var members := Members(md.workspaceMembers);
    assert members == {a.id};
    assert [a, b][1..] == [b];
    assert Select([b], members, true) == [];
    assert WorkspacePackages(md) == [a];
    assert [a][1..] == [];
    assert Select([a], ids.Keys, true) == [a];
    assert OuterNames([b], ids, members) == ["b"];
    assert OuterNames(md.packages, ids, members) == ["b"];
    assert OuterNamesAsWritten([b], ids) == ["b"];
  }

  // ---------------------------------------------------------------------------
  // Building the targets (`cargo_build`)
  // ---------------------------------------------------------------------------

  /** The verification targets of each package. */
  function TargetLists(args: TargetArgs, packages: seq<Package>): (r: seq<seq<VerificationTarget>>)
    ensures |r| == |packages|
    ensures forall i :: 0 <= i < |packages| ==> r[i] == TargetsScan(args, packages[i].targets).targets
  {
    seq(|packages|, i requires 0 <= i < |packages| => TargetsScan(args, packages[i].targets).targets)
  }

  function Flatten(lists: seq<seq<VerificationTarget>>): seq<VerificationTarget>
  {
    if |lists| == 0 then [] else Flatten(lists[..|lists| - 1]) + lists[|lists| - 1]
  }

  /** The verification targets of the packages, package by package. */
  function AllTargets(args: TargetArgs, packages: seq<Package>): seq<VerificationTarget>
  {
    Flatten(TargetLists(args, packages))
  }

  /**
   * Building targets in order, where `build` gives what building one target yields: a
   * failure stops everything unless `keepGoing` holds, in which case it is skipped; a
   * success contributes its artifact, if any.
   */
  function BuildFrom(ts: seq<VerificationTarget>, keepGoing: bool, build: VerificationTarget -> Result<Option<KaniArtifact>, string>): Result<seq<KaniArtifact>, DriverError>
  {
    if |ts| == 0 then Ok([])
    else match BuildFrom(ts[..|ts| - 1], keepGoing, build)
      case Err(e) => Err(e)
      case Ok(artifacts) =>
        match build(ts[|ts| - 1])
        case Err(m) => if keepGoing then Ok(artifacts) else Err(BuildFailed(m))
        case Ok(None) => Ok(artifacts)
        case Ok(Some(a)) => Ok(artifacts + [a])
  }

  /** The build of all packages: what the targets yield, and an error when there was no target at all. */
  function CargoBuild(args: TargetArgs, packages: seq<Package>, keepGoing: bool, build: VerificationTarget -> Result<Option<KaniArtifact>, string>): Result<seq<KaniArtifact>, DriverError>
  {
    var r := BuildFrom(AllTargets(args, packages), keepGoing, build);
    if r.Ok? && AllTargets(args, packages) == [] then Err(NoSupportedTargets) else r
  }

  /** An error in a prefix of the targets is the error of the whole build. */
  lemma {:induction false} BuildFromErrorSticks(xs: seq<VerificationTarget>, ys: seq<VerificationTarget>, keepGoing: bool, build: VerificationTarget -> Result<Option<KaniArtifact>, string>)
    requires BuildFrom(xs, keepGoing, build).Err?
    ensures BuildFrom(xs + ys, keepGoing, build) == BuildFrom(xs, keepGoing, build)
  {
    if ys == [] {
      assert xs + ys == xs;
    } else {
      var init := ys[..|ys| - 1];
      BuildFromErrorSticks(xs, init, keepGoing, build);
      var all := xs + ys;
      assert all != [];
      assert all[..|all| - 1] == xs + init;
    }
  }

  /**
   * The loop over the verification targets of one package in `cargo_build`, after the
   * targets `done` were built into `artifacts`.
   */
  method BuildEach(ts: seq<VerificationTarget>, keepGoing: bool, build: VerificationTarget -> Result<Option<KaniArtifact>, string>,
                   ghost done: seq<VerificationTarget>, artifacts: seq<KaniArtifact>)
    returns (r: Result<seq<KaniArtifact>, DriverError>)
    requires BuildFrom(done, keepGoing, build) == Ok(artifacts)
    ensures r == BuildFrom(done + ts, keepGoing, build)
  {
    var acc := artifacts;
    var j := 0;
    assert done + ts[..j] == done;
    while j < |ts|
      invariant j <= |ts|
      invariant BuildFrom(done + ts[..j], keepGoing, build) == Ok(acc)
    {
      ghost var next := done + ts[..j + 1];
      assert |next| > 0;
      assert next[..|next| - 1] == done + ts[..j];
      assert next[|next| - 1] == ts[j];
      match build(ts[j]) {
        case Err(m) =>
          if !keepGoing {
            BuildFromErrorSticks(next, ts[j + 1..], keepGoing, build);
            assert next + ts[j + 1..] == done + ts;
            return Err(BuildFailed(m));
          }
        case Ok(Some(a)) =>
          acc := acc + [a];
        case Ok(None) =>
      }
      j := j + 1;
    }
    assert ts[..j] == ts;
    r := Ok(acc);
  }

  /** The loops over packages and their targets in `cargo_build`, and the check that some target was found. */
  method BuildTargets(args: TargetArgs, packages: seq<Package>, keepGoing: bool, build: VerificationTarget -> Result<Option<KaniArtifact>, string>)
    returns (r: Result<seq<KaniArtifact>, DriverError>)
    ensures r == CargoBuild(args, packages, keepGoing, build)
  {
    ghost var lists := TargetLists(args, packages);
    var foundTarget := false;
    var artifacts := [];
    var i := 0;
    while i < |packages|
      invariant i <= |packages|
      invariant foundTarget == (Flatten(lists[..i]) != [])
      invariant BuildFrom(Flatten(lists[..i]), keepGoing, build) == Ok(artifacts)
    {
      var built, hasTargets := BuildPackage(args, packages, i, keepGoing, build, lists, artifacts);
      if built.Err? {
        BuildErrorReachesEnd(lists, i + 1, |lists|, keepGoing, build);
        assert lists[..|lists|] == lists;
        return built;
      }
      foundTarget := foundTarget || hasTargets;
      artifacts := built.value;
      i := i + 1;
    }
    assert lists[..i] == lists;
    if !foundTarget {
      return Err(NoSupportedTargets);
    }
    r := Ok(artifacts);
  }

  /**
   * One iteration of the loop over packages in `cargo_build`: the targets of package `i`,
   * each built in turn after the targets of the packages before it.
   */
  method BuildPackage(args: TargetArgs, packages: seq<Package>, i: nat, keepGoing: bool, build: VerificationTarget -> Result<Option<KaniArtifact>, string>,
                      ghost lists: seq<seq<VerificationTarget>>, artifacts: seq<KaniArtifact>)
    returns (built: Result<seq<KaniArtifact>, DriverError>, hasTargets: bool)
    requires i < |packages| && lists == TargetLists(args, packages)
    requires BuildFrom(Flatten(lists[..i]), keepGoing, build) == Ok(artifacts)
    ensures built == BuildFrom(Flatten(lists[..i + 1]), keepGoing, build)
    ensures (Flatten(lists[..i + 1]) != []) == (Flatten(lists[..i]) != [] || hasTargets)
  {
    var scan := PackageTargets(args, packages[i].targets);
    ghost var upTo := lists[..i + 1];
    assert upTo[..i] == lists[..i] && upTo[i] == scan.targets;
    assert Flatten(upTo) == Flatten(lists[..i]) + scan.targets;
    built := BuildEach(scan.targets, keepGoing, build, Flatten(lists[..i]), artifacts);
    hasTargets := scan.targets != [];
  }

  /** An error while building the targets of the first `k` packages is the error of the whole build. */
  lemma {:induction false} BuildErrorReachesEnd(lists: seq<seq<VerificationTarget>>, k: nat, m: nat, keepGoing: bool,
                                                build: VerificationTarget -> Result<Option<KaniArtifact>, string>)
    requires k <= m <= |lists|
    requires BuildFrom(Flatten(lists[..k]), keepGoing, build).Err?
    ensures BuildFrom(Flatten(lists[..m]), keepGoing, build) == BuildFrom(Flatten(lists[..k]), keepGoing, build)
    decreases m
  {
    if m > k {
      BuildErrorReachesEnd(lists, k, m - 1, keepGoing, build);
      var prefix := lists[..m];
      assert prefix[..m - 1] == lists[..m - 1];
      BuildFromErrorSticks(Flatten(lists[..m - 1]), lists[m - 1], keepGoing, build);
    }
  }

  /**
   * Building targets in order stops at the first failure unless `keepGoing` holds, so it
   * fails exactly when some target fails without `keepGoing`, with the message of the
   * first failure; every artifact it yields was produced by building a target.
   */
  lemma {:induction false} BuildFromFacts(ts: seq<VerificationTarget>, keepGoing: bool, build: VerificationTarget -> Result<Option<KaniArtifact>, string>)
    ensures var r := BuildFrom(ts, keepGoing, build);
      && (r.Ok? <==> keepGoing || forall i :: 0 <= i < |ts| ==> build(ts[i]).Ok?)
      && (r.Err? ==> exists i :: (0 <= i < |ts| && build(ts[i]).Err? && r.error == BuildFailed(build(ts[i]).error) &&
                                  forall j :: 0 <= j < i ==> build(ts[j]).Ok?))
      && (r.Ok? ==> forall a :: a in r.value ==> exists i :: 0 <= i < |ts| && build(ts[i]) == Ok(Some(a)))
  {
    if |ts| > 0 {
      var init := ts[..|ts| - 1];
      BuildFromFacts(init, keepGoing, build);
      assert forall i :: 0 <= i < |init| ==> init[i] == ts[i];
    }
  }

  /**
   * The build of all packages fails for want of targets exactly when no package has a
   * verification target; it succeeds exactly when there is some target and either
   * `keepGoing` holds or every target builds.
   */
  lemma {:induction false} CargoBuildOutcome(args: TargetArgs, packages: seq<Package>, keepGoing: bool, build: VerificationTarget -> Result<Option<KaniArtifact>, string>)
    ensures var r := CargoBuild(args, packages, keepGoing, build);
      var ts := AllTargets(args, packages);
      && (r == Err(NoSupportedTargets) <==> ts == [])
      && (r.Ok? <==> ts != [] && (keepGoing || forall t :: t in ts ==> build(t).Ok?))
  {
    var ts := AllTargets(args, packages);
    BuildFromFacts(ts, keepGoing, build);
  }
}
