/**
 * Per-task bookkeeping of GpuJoin execution: the layout of the
 * kern_gpujoin buffer (src/gpujoin.c:4388-4430), the walk over the depths
 * that need a RIGHT/FULL OUTER JOIN pass (src/gpujoin.c:4566-4583), the
 * merge of the per-device outer-join maps into the host copy
 * (src/gpujoin.c:5762-5796), and how the CPU fallback decodes its resume
 * cursor and finds the pseudo stack of a suspended thread
 * (src/gpujoin.c:5298-5356).
 */
module JoinExec {
  import opened Align

  // ---------------------------------------------------------------------
  // kern_gpujoin layout
  // ---------------------------------------------------------------------

  /** GpuJoinSetupTask fixes 2048 rows of pseudo stack per depth and thread group. */
  const PSTACK_NROOMS: nat := 2048

  /** Number of pairs of (depth, column) slots below depth `k`: k(k+1)/2. */
  function Tri(k: nat): nat { k * (k + 1) / 2 }

  datatype TaskLayout = TaskLayout(
    kparamsOffset: nat, pstackOffset: nat, pstackNrooms: nat,
    suspendOffset: nat, suspendSize: nat, pstackSize: nat, total: nat)

  /**
   * GpuJoinSetupTask. `headRaw` is the unaligned size of the kern_gpujoin
   * header with its nrels+1 statistics counters, `suspendRaw` that of one
   * suspend context with its nrels+1 depth entries, `paramLen` the length
   * of the parameter buffer, and `mpCount` the number of thread groups the
   * device can run at once (GPUKERNEL_MAX_SM_MULTIPLICITY times the number
   * of multiprocessors). Each thread group has a pseudo stack of 4-byte
   * words: `nrooms` rows of depth+1 words for every depth 0..nrels.
   */
  function SetupTask(nrels: nat, headRaw: nat, paramLen: nat, suspendRaw: nat, mpCount: nat): (t: TaskLayout)
    ensures headRaw <= t.kparamsOffset && t.kparamsOffset + paramLen <= t.pstackOffset
    ensures t.pstackOffset + mpCount * t.pstackSize == t.suspendOffset
    ensures mpCount * suspendRaw <= t.suspendSize
    ensures t.suspendOffset + t.suspendSize == t.total
    ensures t.pstackNrooms == PSTACK_NROOMS && t.pstackSize == 4 * (PSTACK_NROOMS * Tri(nrels + 1))
    ensures Aligned(16, t.kparamsOffset) && Aligned(16, t.pstackOffset) && Aligned(8, t.pstackSize)
  {
    var headSz := StromAlign(headRaw);
    var paramSz := StromAlign(paramLen);
    var pstackSz := MaxAlign(4 * PSTACK_NROOMS * ((nrels + 1) * (nrels + 2)) / 2);
    var suspendSz := StromAlign(suspendRaw);
    AlignedAfterAlign(16, headRaw);
    AlignedAfterAlign(16, paramLen);
    AlignedAfterAlign(8, 4 * PSTACK_NROOMS * ((nrels + 1) * (nrels + 2)) / 2);
    StromAlignSum(headSz, paramLen);
    LemmaMulMono(mpCount, suspendRaw, suspendSz);
    assert mpCount * suspendRaw <= mpCount * suspendSz;
    PstackSizeExact(nrels);
    TaskLayout(headSz, headSz + paramSz, PSTACK_NROOMS,
               headSz + paramSz + mpCount * pstackSz, mpCount * suspendSz, pstackSz,
               headSz + paramSz + mpCount * pstackSz + mpCount * suspendSz)
  }

  lemma TriWords(k: nat)
    ensures 4 * PSTACK_NROOMS * ((k * (k + 1)) / 2) == 4 * PSTACK_NROOMS * (k * (k + 1)) / 2
  {
    TriEven(k);
  }

  lemma {:induction false} TriEven(k: nat)
    ensures (k * (k + 1)) % 2 == 0
  {
    if k > 0 {
      TriEven(k - 1);
      assert k * (k + 1) == (k - 1) * k + 2 * k;
    }
  }

  /** The sum of two 16-byte boundaries is one. */
  lemma StromAlignSum(a: nat, n: nat)
    requires Aligned(16, a)
    ensures Aligned(16, a + StromAlign(n))
  {
    var p := AlignQuot(16, a);
    var q := AlignQuot(16, n);
    assert a + StromAlign(n) == 16 * (p + q);
    TypeAlignFixed(16, p + q);
  }

  /**
   * Word index of column `j` of row `row` of the depth-`depth` pseudo
   * stack of thread group `group`, from the start of the pstack region, as
   * gpujoinFallbackLoadFromSuspend computes it.
   */
  function PstackWord(nrels: nat, nrooms: nat, group: nat, depth: nat, row: nat, j: nat): nat
  {
    var tri: nat := (nrels + 1) * (nrels + 2) / 2;
    var perGroup: nat := nrooms * tri;
    var below: nat := nrooms * (depth * (depth + 1)) / 2;
    var inRow: nat := row * (depth + 1);
    group * perGroup + below + inRow + j
  }

  /**
   * Every word the fallback reads for a suspended row lies inside the
   * share of the pstack region that GpuJoinSetupTask set aside for its
   * thread group (`pstackSize` bytes each, as SetupTask answers).
   */
  lemma PstackInBounds(nrels: nat, pstackSize: nat, mpCount: nat, group: nat, depth: nat, row: nat, j: nat)
    requires pstackSize == 4 * (PSTACK_NROOMS * Tri(nrels + 1))
    requires group < mpCount && depth <= nrels && row < PSTACK_NROOMS && j <= depth
    ensures group * pstackSize <= 4 * PstackWord(nrels, PSTACK_NROOMS, group, depth, row, j)
    ensures 4 * PstackWord(nrels, PSTACK_NROOMS, group, depth, row, j) + 4 <= (group + 1) * pstackSize
    ensures (group + 1) * pstackSize <= mpCount * pstackSize
  {
    var T := Tri(nrels + 1);
    var inner := WordInGroup(nrels, depth, row, j);
    assert (nrels + 1) * (nrels + 2) / 2 == T;
    assert group * PSTACK_NROOMS * T == group * (PSTACK_NROOMS * T);
    GroupShare(group, PSTACK_NROOMS * T, inner);
    LemmaMulMono(pstackSize, group + 1, mpCount);
  }

  /** A pstack share is exactly its words, 4 bytes each. */
  lemma PstackSizeExact(nrels: nat)
    ensures MaxAlign(4 * PSTACK_NROOMS * ((nrels + 1) * (nrels + 2)) / 2) == 4 * (PSTACK_NROOMS * Tri(nrels + 1))
  {
    var T := Tri(nrels + 1);
    TriWords(nrels + 1);
    assert 4 * PSTACK_NROOMS * ((nrels + 1) * (nrels + 2)) / 2 == 8 * (1024 * T);
    TypeAlignFixed(8, 1024 * T);
  }

  /** Inside one group's share: the rows of a depth lie below the next depth's rows. */
  lemma WordInGroup(nrels: nat, depth: nat, row: nat, j: nat) returns (inner: nat)
    requires depth <= nrels && row < PSTACK_NROOMS && j <= depth
    ensures inner == PSTACK_NROOMS * (depth * (depth + 1)) / 2 + row * (depth + 1) + j
    ensures inner < PSTACK_NROOMS * Tri(nrels + 1)
  {
    TriEven(depth);
    assert PSTACK_NROOMS * (depth * (depth + 1)) / 2 == PSTACK_NROOMS * Tri(depth);
    TriStep(depth);
    TriMono(depth + 1, nrels + 1);
    LemmaMulMono(depth + 1, row, PSTACK_NROOMS - 1);
    assert row * (depth + 1) + j < PSTACK_NROOMS * (depth + 1);
    LemmaMulMono(PSTACK_NROOMS, Tri(depth + 1), Tri(nrels + 1));
    inner := PSTACK_NROOMS * (depth * (depth + 1)) / 2 + row * (depth + 1) + j;
  }

  lemma TriStep(k: nat)
    ensures Tri(k) + (k + 1) == Tri(k + 1)
  {
    TriEven(k);
    assert (k + 1) * (k + 2) == k * (k + 1) + 2 * (k + 1);
  }

  lemma GroupShare(group: nat, share: nat, inner: nat)
    requires inner < share
    ensures group * (4 * share) <= 4 * (group * share + inner)
    ensures 4 * (group * share + inner) + 4 <= (group + 1) * (4 * share)
  {
    assert (group + 1) * (4 * share) == 4 * (group * share) + 4 * share;
  }

  lemma {:induction false} TriMono(a: nat, b: nat)
    requires a <= b
    ensures Tri(a) <= Tri(b)
    decreases b - a
  {
    if a < b {
      TriMono(a, b - 1);
      assert b * (b + 1) == (b - 1) * b + 2 * b;
    }
  }

  // ---------------------------------------------------------------------
  // RIGHT/FULL OUTER JOIN passes
  // ---------------------------------------------------------------------

  /** The depths (1-based) whose inner buffer keeps unmatched rows, in order. */
  function RightOuterDepths(rightOuter: seq<bool>, from: nat): (ds: seq<nat>)
    requires from >= 1
    ensures forall k | 0 <= k < |ds| :: from <= ds[k] <= |rightOuter| && rightOuter[ds[k] - 1]
    decreases |rightOuter| + 1 - from
  {
    if from > |rightOuter| then []
    else if rightOuter[from - 1] then [from] + RightOuterDepths(rightOuter, from + 1)
    else RightOuterDepths(rightOuter, from + 1)
  }

  function Max(a: int, b: int): int { if a < b then b else a }

  /**
   * gpujoinNextRightOuterJoin: the first depth after the current one
   * (and not below 1) with the right_outer flag, which also becomes the
   * current one; -1 when none is left.
   */
  method NextRightOuter(rightOuter: seq<bool>, curr: int) returns (d: int, curr': int)
    ensures d == -1 <==> RightOuterDepths(rightOuter, Max(curr + 1, 1)) == []
    ensures d != -1 ==> d == RightOuterDepths(rightOuter, Max(curr + 1, 1))[0] && curr' == d
    ensures d == -1 ==> curr' == curr
  {
    var depth := Max(curr + 1, 1);
    while depth <= |rightOuter|
      invariant 1 <= depth && Max(curr + 1, 1) <= depth
      invariant RightOuterDepths(rightOuter, Max(curr + 1, 1)) == RightOuterDepths(rightOuter, depth)
      decreases |rightOuter| + 1 - depth
    {
      if rightOuter[depth - 1] {
        return depth, depth;
      }
      depth := depth + 1;
    }
    return -1, curr;
  }

  /** Repeated calls from the start visit the RIGHT/FULL depths once each, in order. */
  function OuterPasses(rightOuter: seq<bool>, curr: int): seq<nat>
    requires curr >= -1
    decreases |rightOuter| + 1 - Max(curr + 1, 1)
  {
    var ds := RightOuterDepths(rightOuter, Max(curr + 1, 1));
    if ds == [] then [] else [ds[0]] + OuterPasses(rightOuter, ds[0])
  }

  lemma {:induction false} OuterPassesAll(rightOuter: seq<bool>, curr: int)
    requires curr >= -1
    ensures OuterPasses(rightOuter, curr) == RightOuterDepths(rightOuter, Max(curr + 1, 1))
    decreases |rightOuter| + 1 - Max(curr + 1, 1)
  {
    var from := Max(curr + 1, 1);
    var ds := RightOuterDepths(rightOuter, from);
    if ds != [] {
      OuterPassesAll(rightOuter, ds[0]);
      SkipToFirst(rightOuter, from);
    }
  }

  /** After the first RIGHT/FULL depth at or after `from`, the rest start just past it. */
  lemma {:induction false} SkipToFirst(rightOuter: seq<bool>, from: nat)
    requires from >= 1 && RightOuterDepths(rightOuter, from) != []
    ensures var ds := RightOuterDepths(rightOuter, from); ds[1..] == RightOuterDepths(rightOuter, ds[0] + 1)
    decreases |rightOuter| + 1 - from
  {
    if !rightOuter[from - 1] {
      SkipToFirst(rightOuter, from + 1);
    }
  }

  // ---------------------------------------------------------------------
  // Outer-join map merge
  // ---------------------------------------------------------------------

  /** The OR of word `i` over the first `n` device maps. */
  function OrDevices(maps: seq<seq<bv64>>, n: nat, i: nat): bv64
    requires n <= |maps| && forall j | 0 <= j < |maps| :: i < |maps[j]|
  {
    if n == 0 then 0 else OrDevices(maps, n - 1, i) | maps[n - 1][i]
  }

  predicate MapsShape(maps: seq<seq<bv64>>, numDevs: nat, words: nat)
  {
    |maps| == numDevs + 1 && forall j | 0 <= j < |maps| :: |maps[j]| == words
  }

  /**
   * The merge loop of gpujoinColocateOuterJoinMapsToHost: the host copy (after the
   * `numDevs` device copies) takes every bit any device set.
   */
  method MergeOjmaps(maps: seq<seq<bv64>>, numDevs: nat, words: nat) returns (r: seq<seq<bv64>>)
    requires MapsShape(maps, numDevs, words)
    ensures MapsShape(r, numDevs, words)
    ensures forall j | 0 <= j < numDevs :: r[j] == maps[j]
    ensures forall i | 0 <= i < words :: r[numDevs][i] == maps[numDevs][i] | OrDevices(maps, numDevs, i)
    ensures forall i, j | 0 <= i < words && 0 <= j < numDevs :: maps[j][i] & !r[numDevs][i] == 0
    ensures forall i | 0 <= i < words :: r[numDevs][i] | OrDevices(r, numDevs, i) == r[numDevs][i]
  {
    var host := MergeHost(maps, numDevs, words);
    r := maps[numDevs := host];
    forall i, j | 0 <= i < words && 0 <= j < numDevs ensures maps[j][i] & !r[numDevs][i] == 0 {
      OrCovers(maps, numDevs, i, j);
    }
    forall i | 0 <= i < words ensures OrDevices(r, numDevs, i) == OrDevices(maps, numDevs, i) {
      OrSamePrefix(maps, r, numDevs, i);
    }
  }

  /** The outer loop of the merge: the host copy, word by word, ORed with the devices' words. */
  method MergeHost(maps: seq<seq<bv64>>, numDevs: nat, words: nat) returns (host: seq<bv64>)
    requires MapsShape(maps, numDevs, words)
    ensures |host| == words
    ensures forall k | 0 <= k < words :: host[k] == maps[numDevs][k] | OrDevices(maps, numDevs, k)
  {
    host := maps[numDevs];
    var i := 0;
    while i < words
      invariant 0 <= i <= words && |host| == words
      invariant forall k | 0 <= k < i :: host[k] == maps[numDevs][k] | OrDevices(maps, numDevs, k)
      invariant forall k | i <= k < words :: host[k] == maps[numDevs][k]
    {
      var mask := DeviceMask(maps, numDevs, i);
      host := host[i := host[i] | mask];
      i := i + 1;
    }
  }

  /** The inner loop of the merge: the OR of one word over the device copies. */
  method DeviceMask(maps: seq<seq<bv64>>, numDevs: nat, i: nat) returns (mask: bv64)
    requires numDevs <= |maps| && forall j | 0 <= j < |maps| :: i < |maps[j]|
    ensures mask == OrDevices(maps, numDevs, i)
  {
    mask := 0;
    var j := 0;
    while j < numDevs
      invariant 0 <= j <= numDevs
      invariant mask == OrDevices(maps, j, i)
    {
      mask := mask | maps[j][i];
      j := j + 1;
    }
  }

  lemma {:induction false} OrCovers(maps: seq<seq<bv64>>, n: nat, i: nat, j: nat)
    requires n <= |maps| && forall k | 0 <= k < |maps| :: i < |maps[k]|
    requires j < n
    ensures maps[j][i] & !OrDevices(maps, n, i) == 0
    decreases n
  {
    if j < n - 1 {
      OrCovers(maps, n - 1, i, j);
    }
  }

  lemma {:induction false} OrSamePrefix(a: seq<seq<bv64>>, b: seq<seq<bv64>>, n: nat, i: nat)
    requires n <= |a| && n <= |b|
    requires forall k | 0 <= k < |a| :: i < |a[k]|
    requires forall k | 0 <= k < |b| :: i < |b[k]|
    requires forall k | 0 <= k < n :: a[k] == b[k]
    ensures OrDevices(a, n, i) == OrDevices(b, n, i)
    decreases n
  {
    if n > 0 {
      OrSamePrefix(a, b, n - 1, i);
    }
  }

  // ---------------------------------------------------------------------
  // The resume cursor of the CPU fallback
  // ---------------------------------------------------------------------

  /** What gpujoinFallbackLoadFromSuspend reads out of fallback_thread_count. */
  datatype Cursor = Cursor(threadIndex: nat, loops: nat, depth: nat, globalId: nat, groupId: nat, localId: nat, rowIndex: nat)

  /**
   * The low 10 bits count the rows a pseudo thread has fetched, the rest
   * number pseudo threads; the thread number splits into depth (past the
   * outer depth), thread group and lane within a block.
   */
  function DecodeCursor(count: nat, blockSz: nat, gridSz: nat, outerDepth: nat): (c: Cursor)
    requires blockSz > 0 && gridSz > 0
    ensures c.loops < 1024 && count == c.threadIndex * 1024 + c.loops
    ensures c.localId < blockSz && c.groupId < gridSz && c.globalId < blockSz * gridSz
    ensures c.threadIndex == (c.depth - outerDepth) * (blockSz * gridSz) + c.groupId * blockSz + c.localId
    ensures c.depth >= outerDepth
    ensures c.rowIndex % blockSz == c.localId
  {
    var globalSz := blockSz * gridSz;
    var threadIndex := count / 1024;
    var globalId := threadIndex % globalSz;
    var groupId := globalId / blockSz;
    var localId := globalId % blockSz;
    var rowIndex := blockSz * (count % 1024) + localId;
    DivMod(threadIndex, globalSz);
    DivMod(globalId, blockSz);
    DivBelow(globalId, blockSz, gridSz);
    ModOfMultiplePlus(blockSz, count % 1024, localId);
    Cursor(threadIndex, count % 1024, threadIndex / globalSz + outerDepth, globalId, groupId, localId, rowIndex)
  }

  lemma DivMod(x: nat, d: nat)
    requires d > 0
    ensures x == (x / d) * d + x % d && x % d < d
  {
  }

  lemma DivBelow(x: nat, a: nat, b: nat)
    requires a > 0 && x < a * b
    ensures x / a < b
  {
    DivMod(x, a);
    if x / a >= b {
      LemmaMulMono(a, b, x / a);
    }
  }

  lemma ModOfMultiplePlus(d: nat, k: nat, r: nat)
    requires d > 0 && r < d
    ensures (d * k + r) % d == r
  {
    var x := d * k + r;
    DivMod(x, d);
    var q := x / d;
    if q < k {
      LemmaMulMono(d, q + 1, k);
    } else if q > k {
      LemmaMulMono(d, k + 1, q);
    }
  }

  /** The two ways the fallback leaves a pseudo thread: to the next thread, or to the next thread group. */
  function NextThread(c: Cursor): nat { (c.threadIndex + 1) * 1024 }
  function NextGroup(c: Cursor, blockSz: nat): nat
    requires blockSz > 0
  {
    ((c.threadIndex / blockSz + 1) * blockSz) * 1024
  }

  /**
   * Both moves advance the cursor past every row of the current pseudo
   * thread, so the retry loop of gpujoinFallbackLoadFromSuspend always
   * makes progress; and since the lane is below the block size, the
   * source's test that picks the thread-group move when it is not never
   * takes that branch.
   */
  lemma CursorAdvances(count: nat, blockSz: nat, gridSz: nat, outerDepth: nat)
    requires blockSz > 0 && gridSz > 0
    ensures var c := DecodeCursor(count, blockSz, gridSz, outerDepth);
      && count < NextThread(c) <= NextGroup(c, blockSz)
      && c.localId < blockSz
  {
    var c := DecodeCursor(count, blockSz, gridSz, outerDepth);
    var q := c.threadIndex / blockSz;
    assert c.threadIndex < (q + 1) * blockSz;
    assert c.threadIndex + 1 <= (q + 1) * blockSz;
  }
}
