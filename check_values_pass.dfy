/**
 * The driver of the invalid-value pass: it walks the basic blocks, asks for the first
 * unsafe instruction of each, and inserts its checks before it, one per range of each of
 * its value-validity operations and one per unsupported operation. Inserting a check
 * splits the block: the check ends the current block and the instruction with everything
 * after it moves to a new block appended to the body, where the next check is inserted in
 * turn. The last new block starts with the instruction just checked, which must be
 * skipped when that block is visited.
 */
module ValidValuePass {
  import opened Wrappers

  /**
   * An instruction as the driver sees it: harmless, one that may create an invalid value,
   * or an inserted check for one. An unsafe instruction needs `1 + moreChecks` checks: the
   * visitor reports an instruction only with an unsupported operation or an operation
   * whose list of ranges is not empty, so it always needs at least one.
   */
  datatype Instr = Plain | Unsafe(id: nat, moreChecks: nat) | Check(id: nat)

  type Block = seq<Instr>

  /** The checks `build_check` inserts for an instruction. */
  function ChecksFor(x: Instr): nat
  {
    if x.Unsafe? then x.moreChecks + 1 else 0
  }

  /** The checks the unsafe instructions of `s` need. */
  function NeededIn(s: seq<Instr>): nat
  {
    if |s| == 0 then 0 else ChecksFor(s[0]) + NeededIn(s[1..])
  }

  function ChecksIn(s: seq<Instr>): nat
  {
    if |s| == 0 then 0 else (if s[0].Check? then 1 else 0) + ChecksIn(s[1..])
  }

  lemma {:induction false} CountsConcat(a: seq<Instr>, b: seq<Instr>)
    ensures NeededIn(a + b) == NeededIn(a) + NeededIn(b)
    ensures ChecksIn(a + b) == ChecksIn(a) + ChecksIn(b)
  {
    if a != [] {
      assert (a + b)[1..] == a[1..] + b;
      CountsConcat(a[1..], b);
    } else {
      assert a + b == b;
    }
  }

  /** The sum of `f` over the blocks. */
  function Total(blocks: seq<Block>, f: Block -> nat): nat
  {
    if blocks == [] then 0 else Total(blocks[..|blocks| - 1], f) + f(blocks[|blocks| - 1])
  }

  lemma {:induction false} TotalUpdate(blocks: seq<Block>, f: Block -> nat, k: nat, x: Block)
    requires k < |blocks|
    ensures Total(blocks[k := x], f) + f(blocks[k]) == Total(blocks, f) + f(x)
  {
    var n := |blocks|;
    if k < n - 1 {
      assert blocks[k := x][..n - 1] == blocks[..n - 1][k := x];
      TotalUpdate(blocks[..n - 1], f, k, x);
    } else {
      assert blocks[k := x][..n - 1] == blocks[..n - 1];
    }
  }

  lemma {:induction false} TotalAppend(blocks: seq<Block>, f: Block -> nat, x: Block)
    ensures Total(blocks + [x], f) == Total(blocks, f) + f(x)
  {
    assert (blocks + [x])[..|blocks|] == blocks;
  }

  function Checks(blocks: seq<Block>): nat { Total(blocks, ChecksIn) }

  function Needed(blocks: seq<Block>): nat { Total(blocks, NeededIn) }

  /** The first unsafe instruction at or after `start`. */
  function FirstUnsafeFrom(block: Block, start: nat): (r: Option<nat>)
    ensures r.Some? ==> start <= r.value < |block| && block[r.value].Unsafe?
    decreases |block| - start
  {
    if start >= |block| then None
    else if block[start].Unsafe? then Some(start)
    else FirstUnsafeFrom(block, start + 1)
  }

  lemma {:induction false} FirstUnsafeFromSpec(block: Block, start: nat)
    requires start <= |block|
    ensures FirstUnsafeFrom(block, start).None? ==> NeededIn(block[start..]) == 0
    ensures FirstUnsafeFrom(block, start).Some? ==>
      var i := FirstUnsafeFrom(block, start).value;
      && start <= i < |block| && block[i].Unsafe?
      && NeededIn(block[start..]) == ChecksFor(block[i]) + NeededIn(block[i + 1..])
    decreases |block| - start
  {
    if start < |block| {
      NeededInStep(block, start);
      if block[start].Unsafe? {
        assert FirstUnsafeFrom(block, start) == Some(start);
      } else {
        assert ChecksFor(block[start]) == 0;
        FirstUnsafeFromSpec(block, start + 1);
        assert FirstUnsafeFrom(block, start) == FirstUnsafeFrom(block, start + 1);
      }
    } else {
      assert block[start..] == [];
    }
  }

  /** Counting from `start` is counting instruction `start`, then the rest. */
  lemma {:induction false} NeededInStep(block: Block, start: nat)
    requires start < |block|
    ensures NeededIn(block[start..]) == ChecksFor(block[start]) + NeededIn(block[start + 1..])
  {
    assert block[start..][1..] == block[start + 1..];
  }

  /** Where the search starts: a block created by a split begins with an instruction already checked. */
  function Start(block: Block, skipFirst: bool): nat
  {
    if skipFirst && |block| > 0 then 1 else 0
  }

  /** `find_next`: the first unsafe instruction of a block that has not been checked yet. */
  function FindNext(block: Block, skipFirst: bool): Option<nat>
  {
    FirstUnsafeFrom(block, Start(block, skipFirst))
  }

  /** The checks the unsafe instructions of a block still to be checked need. */
  function Considered(block: Block, skipFirst: bool): nat
  {
    NeededIn(block[Start(block, skipFirst)..])
  }

  /** The blocks ended by the second and later checks of instruction `id`, in the order they are appended. */
  function Splits(id: nat, n: nat): (r: seq<Block>)
    ensures |r| == n && forall k :: 0 <= k < n ==> r[k] == [Check(id)]
  {
    if n == 0 then [] else Splits(id, n - 1) + [[Check(id)]]
  }

  /**
   * Inserts the checks for instruction `i` of block `bb`: the first ends block `bb`, each
   * later one ends the block the previous split appended, and the instruction with the
   * rest of the block lands in the last appended block.
   */
  function Instrument(blocks: seq<Block>, bb: nat, i: nat): (r: seq<Block>)
    requires bb < |blocks| && i < |blocks[bb]| && blocks[bb][i].Unsafe?
    ensures |r| == |blocks| + ChecksFor(blocks[bb][i])
    ensures r[..bb] == blocks[..bb] && r[bb + 1..|blocks|] == blocks[bb + 1..]
    ensures r[bb] == blocks[bb][..i] + [Check(blocks[bb][i].id)] && r[|r| - 1] == blocks[bb][i..]
    ensures forall k :: |blocks| <= k < |r| - 1 ==> r[k] == [Check(blocks[bb][i].id)]
  {
    var block := blocks[bb];
    blocks[bb := block[..i] + [Check(block[i].id)]] + Splits(block[i].id, block[i].moreChecks) + [block[i..]]
  }

  /** Appended split blocks hold one check each and nothing left to check. */
  lemma {:induction false} AppendSplits(blocks: seq<Block>, id: nat, n: nat, k: nat, origLen: nat)
    requires origLen <= |blocks| && k <= |blocks|
    ensures Checks(blocks + Splits(id, n)) == Checks(blocks) + n
    ensures Pending(blocks + Splits(id, n), k, origLen) == Pending(blocks, k, origLen)
  {
    if n > 0 {
      var prefix := blocks + Splits(id, n - 1);
      AppendSplits(blocks, id, n - 1, k, origLen);
      assert blocks + Splits(id, n) == prefix + [[Check(id)]];
      assert |prefix| >= origLen;
      TotalAppend(prefix, ChecksIn, [Check(id)]);
      assert Checks(prefix + [[Check(id)]]) == Total(prefix + [[Check(id)]], ChecksIn);
      assert ChecksIn([Check(id)]) == 1 by { assert [Check(id)][1..] == []; }
      PendingAppend(prefix, k, [Check(id)], origLen);
      assert Considered([Check(id)], true) == 0 by { assert [Check(id)][1..] == []; }
    } else {
      assert blocks + Splits(id, n) == blocks;
    }
  }

  /** Looks at block `bb` (blocks from `origLen` on were created by splits) and instruments what it finds. */
  function Visit(blocks: seq<Block>, bb: nat, origLen: nat): (r: seq<Block>)
    requires bb < |blocks|
    ensures |r| >= |blocks|
  {
    match FindNext(blocks[bb], bb >= origLen)
    case None => blocks
    case Some(i) =>
      FirstUnsafeFromSpec(blocks[bb], Start(blocks[bb], bb >= origLen));
      Instrument(blocks, bb, i)
  }

  /** The instructions still to be checked in blocks `k` onwards. */
  function Pending(blocks: seq<Block>, k: nat, origLen: nat): nat
    decreases |blocks| - k
  {
    if k >= |blocks| then 0 else Considered(blocks[k], k >= origLen) + Pending(blocks, k + 1, origLen)
  }

  lemma {:induction false} PendingUpdate(blocks: seq<Block>, k: nat, bb: nat, x: Block, origLen: nat)
    requires bb < k && bb < |blocks|
    ensures Pending(blocks[bb := x], k, origLen) == Pending(blocks, k, origLen)
    decreases |blocks| - k
  {
    if k < |blocks| {
      PendingUpdate(blocks, k + 1, bb, x, origLen);
    }
  }

  lemma {:induction false} PendingAppend(blocks: seq<Block>, k: nat, x: Block, origLen: nat)
    requires k <= |blocks|
    ensures Pending(blocks + [x], k, origLen) == Pending(blocks, k, origLen) + Considered(x, |blocks| >= origLen)
    decreases |blocks| - k
  {
    if k < |blocks| {
      PendingAppend(blocks, k + 1, x, origLen);
    }
  }

  /**
   * A visit that instruments an instruction adds the checks it needs and as many blocks,
   * and leaves that many fewer checks to insert.
   */
  lemma {:induction false} VisitProgress(blocks: seq<Block>, bb: nat, origLen: nat)
    requires bb < |blocks| && origLen <= |blocks|
    ensures FindNext(blocks[bb], bb >= origLen).Some? ==>
      var n := ChecksFor(blocks[bb][FindNext(blocks[bb], bb >= origLen).value]);
      && n >= 1
      && Pending(Visit(blocks, bb, origLen), bb + 1, origLen) + n == Pending(blocks, bb, origLen)
      && Checks(Visit(blocks, bb, origLen)) == Checks(blocks) + n
      && |Visit(blocks, bb, origLen)| == |blocks| + n
    ensures FindNext(blocks[bb], bb >= origLen).None? ==>
      && Visit(blocks, bb, origLen) == blocks
      && Pending(blocks, bb + 1, origLen) == Pending(blocks, bb, origLen)
  {
    var found := FindNext(blocks[bb], bb >= origLen);
    if found.Some? {
      VisitFinds(blocks, bb, origLen, found.value);
    } else {
      VisitFindsNothing(blocks, bb, origLen);
    }
  }

  /** Visiting a block where instruction `i` is found instruments `i`. */
  lemma {:induction false} VisitFinds(blocks: seq<Block>, bb: nat, origLen: nat, i: nat)
    requires bb < |blocks| && origLen <= |blocks| && FindNext(blocks[bb], bb >= origLen) == Some(i)
    ensures Pending(Visit(blocks, bb, origLen), bb + 1, origLen) + ChecksFor(blocks[bb][i]) == Pending(blocks, bb, origLen)
    ensures Checks(Visit(blocks, bb, origLen)) == Checks(blocks) + ChecksFor(blocks[bb][i])
    ensures |Visit(blocks, bb, origLen)| == |blocks| + ChecksFor(blocks[bb][i])
  {
    var block := blocks[bb];
    FirstUnsafeFromSpec(block, Start(block, bb >= origLen));
    assert Visit(blocks, bb, origLen) == Instrument(blocks, bb, i);
    InstrumentChecks(blocks, bb, i, origLen);
    InstrumentPending(blocks, bb, i, origLen);
  }

  /** A block with nothing left to check is left as it is. */
  lemma {:induction false} VisitFindsNothing(blocks: seq<Block>, bb: nat, origLen: nat)
    requires bb < |blocks| && FindNext(blocks[bb], bb >= origLen).None?
    ensures Visit(blocks, bb, origLen) == blocks
    ensures Pending(blocks, bb + 1, origLen) == Pending(blocks, bb, origLen)
  {
    var block := blocks[bb];
    FirstUnsafeFromSpec(block, Start(block, bb >= origLen));
  }

  /** Instrumenting instruction `i` of block `bb` adds exactly the checks it needs. */
  lemma {:induction false} InstrumentChecks(blocks: seq<Block>, bb: nat, i: nat, origLen: nat)
    requires bb < |blocks| && origLen <= |blocks| && i < |blocks[bb]| && blocks[bb][i].Unsafe?
    ensures Checks(Instrument(blocks, bb, i)) == Checks(blocks) + ChecksFor(blocks[bb][i])
  {
    var block := blocks[bb];
    var head := block[..i] + [Check(block[i].id)];
    var tail := block[i..];
    var updated := blocks[bb := head];
    var split := updated + Splits(block[i].id, block[i].moreChecks);
    assert Instrument(blocks, bb, i) == split + [tail];
    AppendSplits(updated, block[i].id, block[i].moreChecks, bb + 1, origLen);
    assert block == block[..i] + tail;
    CountsConcat(block[..i], tail);
    CountsConcat(block[..i], [Check(block[i].id)]);
    TotalUpdate(blocks, ChecksIn, bb, head);
    TotalAppend(split, ChecksIn, tail);
  }

  /** After instrumenting the instruction found in block `bb`, the checks it needed are no longer pending. */
  lemma {:induction false} InstrumentPending(blocks: seq<Block>, bb: nat, i: nat, origLen: nat)
    requires bb < |blocks| && origLen <= |blocks| && i < |blocks[bb]| && blocks[bb][i].Unsafe?
    requires Considered(blocks[bb], bb >= origLen) == ChecksFor(blocks[bb][i]) + NeededIn(blocks[bb][i + 1..])
    ensures Pending(Instrument(blocks, bb, i), bb + 1, origLen) + ChecksFor(blocks[bb][i]) == Pending(blocks, bb, origLen)
  {
    var block := blocks[bb];
    var head := block[..i] + [Check(block[i].id)];
    var tail := block[i..];
    var updated := blocks[bb := head];
    var split := updated + Splits(block[i].id, block[i].moreChecks);
    assert Instrument(blocks, bb, i) == split + [tail];
    PendingAppend(split, bb + 1, tail, origLen);
    AppendSplits(updated, block[i].id, block[i].moreChecks, bb + 1, origLen);
    PendingUpdate(blocks, bb + 1, bb, head, origLen);
    assert tail[1..] == block[i + 1..];
    assert Considered(tail, true) == NeededIn(block[i + 1..]);
  }

  /** The walk as intended: every block is visited, including the ones splits create. */
  function PassIntended(blocks: seq<Block>, origLen: nat, bb: nat): seq<Block>
    requires origLen <= |blocks| && bb <= |blocks|
    decreases Pending(blocks, bb, origLen), |blocks| - bb
  {
    if bb == |blocks| then blocks
    else
      VisitProgress(blocks, bb, origLen);
      PassIntended(Visit(blocks, bb, origLen), origLen, bb + 1)
  }

  /** The walk as written: the range of block indices is fixed before the first split. */
  function PassAsWritten(blocks: seq<Block>, origLen: nat, bb: nat): seq<Block>
    requires origLen <= |blocks| && bb <= origLen
    decreases origLen - bb
  {
    if bb == origLen then blocks
    else PassAsWritten(Visit(blocks, bb, origLen), origLen, bb + 1)
  }

  lemma {:induction false} PassIntendedCounts(blocks: seq<Block>, origLen: nat, bb: nat)
    requires origLen <= |blocks| && bb <= |blocks|
    ensures Checks(PassIntended(blocks, origLen, bb)) == Checks(blocks) + Pending(blocks, bb, origLen)
    ensures |PassIntended(blocks, origLen, bb)| == |blocks| + Pending(blocks, bb, origLen)
    decreases Pending(blocks, bb, origLen), |blocks| - bb
  {
    if bb < |blocks| {
      VisitProgress(blocks, bb, origLen);
      PassIntendedCounts(Visit(blocks, bb, origLen), origLen, bb + 1);
    }
  }

  lemma {:induction false} PendingIsNeeded(blocks: seq<Block>)
    ensures Pending(blocks, 0, |blocks|) == Needed(blocks)
  {
    if blocks != [] {
      var n := |blocks|;
      var prefix := blocks[..n - 1];
      PendingIsNeeded(prefix);
      PendingAppend(prefix, 0, blocks[n - 1], n);
      assert prefix + [blocks[n - 1]] == blocks;
      PendingOrigLen(prefix, 0, n - 1, n);
    }
  }

  /** Blocks below both bounds are original under either. */
  lemma {:induction false} PendingOrigLen(blocks: seq<Block>, k: nat, len1: nat, len2: nat)
    requires |blocks| <= len1 <= len2
    ensures Pending(blocks, k, len1) == Pending(blocks, k, len2)
    decreases |blocks| - k
  {
    if k < |blocks| {
      PendingOrigLen(blocks, k + 1, len1, len2);
    }
  }

  /**
   * `ValidValuePass::transform` with the walk it intends: every unsafe instruction gets
   * all its checks, and the body changes exactly when the block count grows, which is
   * exactly when there was an unsafe instruction.
   */
  method Transform(body: seq<Block>) returns (changed: bool, newBody: seq<Block>)
    ensures newBody == PassIntended(body, |body|, 0)
    ensures Checks(newBody) == Checks(body) + Needed(body)
    ensures changed <==> |newBody| != |body|
    ensures changed <==> Needed(body) > 0
    ensures |newBody| == |body| + Needed(body)
  {
    var origLen := |body|;
    newBody := body;
    var bb := 0;
    while bb < |newBody|
      invariant origLen <= |newBody| && bb <= |newBody|
      invariant PassIntended(newBody, origLen, bb) == PassIntended(body, origLen, 0)
      decreases Pending(newBody, bb, origLen), |newBody| - bb
    {
      VisitProgress(newBody, bb, origLen);
      newBody := Visit(newBody, bb, origLen);
      bb := bb + 1;
    }
    PassIntendedCounts(body, origLen, 0);
    PendingIsNeeded(body);
    changed := origLen != |newBody|;
  }

  /** `ValidValuePass::transform` as written: only the blocks present at the start are visited. */
  method TransformAsWritten(body: seq<Block>) returns (changed: bool, newBody: seq<Block>)
    ensures newBody == PassAsWritten(body, |body|, 0)
    ensures changed <==> |newBody| != |body|
  {
    var origLen := |body|;
    newBody := body;
    for bb := 0 to origLen
      invariant origLen <= |newBody|
      invariant PassAsWritten(newBody, origLen, bb) == PassAsWritten(body, origLen, 0)
    {
      newBody := Visit(newBody, bb, origLen);
    }
    changed := origLen != |newBody|;
  }

  /**
   * A block with two unsafe instructions: the walk as written checks the first and never
   * visits the block holding the second, which the intended walk checks.
   */
  lemma {:induction false} AsWrittenMissesSecondCheck()
    ensures var body := [[Unsafe(1, 0), Unsafe(2, 0)]];
      && Needed(body) == 2
      && PassAsWritten(body, 1, 0) == [[Check(1)], [Unsafe(1, 0), Unsafe(2, 0)]]
      && Checks(PassAsWritten(body, 1, 0)) == 1
      && Checks(PassIntended(body, 1, 0)) == 2
  {
    var body: seq<Block> := [[Unsafe(1, 0), Unsafe(2, 0)]];
    assert FindNext(body[0], false) == Some(0);
    var after := Visit(body, 0, 1);
    assert after == Instrument(body, 0, 0);
    assert Splits(1, 0) == [];
    assert body[0][..0] + [Check(1)] == [Check(1)];
    assert body[0][0..] == body[0];
    assert after == [[Check(1)], [Unsafe(1, 0), Unsafe(2, 0)]];
    assert Checks(after) == 1 by {
      assert Total(after[..1], ChecksIn) == 1;
      assert ChecksIn([Unsafe(1, 0), Unsafe(2, 0)]) == 0;
    }
    assert Needed(body) == 2 by {
      assert body[..0] == [];
      assert NeededIn([Unsafe(1, 0), Unsafe(2, 0)]) == 2;
    }
    PassIntendedCounts(body, 1, 0);
    PendingIsNeeded(body);
  }
}
