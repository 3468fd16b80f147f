/**
 * The CPU fallback of GpuJoin (src/gpujoin.c:4964-5266): when
 * the device gives up on a chunk, the host re-runs the join one tuple at a
 * time as a depth-first state machine. Each depth keeps an `innerState`
 * cursor (`fallback_inner_index`, `fallback_inner_matched`,
 * `fallback_inner_hash`); a step either descends with one more joined row
 * (or with the null-extended row of an outer join) or pops back up.
 *
 * The model takes the outcome of the join quals for the current outer row
 * as a sequence of flags, one per inner row (nest-loop) or one per entry of
 * the hash chain (hash-join). A flag `marks` says whether a successful
 * match records `matched` in the cursor: the source never does, the
 * corrected machine does.
 */
module Fallback {
  import opened Wrappers
  import opened InnerKds
  import opened InnerPreload

  // ---------------------------------------------------------------------
  // Scanning a row of flags
  // ---------------------------------------------------------------------

  /** The first position at or after `from` whose flag is set. */
  function FirstFrom(q: seq<bool>, from: nat): (r: Option<nat>)
    ensures r.Some? ==> from <= r.value < |q| && q[r.value]
    ensures r.Some? ==> forall k | from <= k < r.value :: !q[k]
    ensures r.None? ==> forall k | from <= k < |q| :: !q[k]
    decreases |q| - from
  {
    if from >= |q| then None
    else if q[from] then Some(from)
    else FirstFrom(q, from + 1)
  }

  /** Every position at or after `from` whose flag is set, in ascending order. */
  function Matches(q: seq<bool>, from: nat): (r: seq<nat>)
    ensures forall k | 0 <= k < |r| :: from <= r[k] < |q|
    decreases |q| - from
  {
    if from >= |q| then []
    else (if q[from] then [from] else []) + Matches(q, from + 1)
  }

  /** Matches lists the set flags, each once, in ascending order. */
  lemma {:induction false} MatchesExact(q: seq<bool>, from: nat)
    ensures forall k | 0 <= k < |Matches(q, from)| :: q[Matches(q, from)[k]]
    ensures forall x | from <= x < |q| && q[x] :: x in Matches(q, from)
    ensures forall a, b | 0 <= a < b < |Matches(q, from)| :: Matches(q, from)[a] < Matches(q, from)[b]
    decreases |q| - from
  {
    if from < |q| {
      MatchesExact(q, from + 1);
    }
  }

  /** Scanning forward one hit at a time visits exactly the hits, in order. */
  lemma {:induction false} FirstMatches(q: seq<bool>, from: nat)
    ensures FirstFrom(q, from).None? ==> Matches(q, from) == []
    ensures FirstFrom(q, from).Some? ==>
      Matches(q, from) == [FirstFrom(q, from).value] + Matches(q, FirstFrom(q, from).value + 1)
    decreases |q| - from
  {
    if from < |q| && !q[from] {
      FirstMatches(q, from + 1);
    }
  }

  function Somes(xs: seq<nat>): (r: seq<Option<nat>>)
    ensures |r| == |xs|
  {
    if |xs| == 0 then [] else [Some(xs[0])] + Somes(xs[1..])
  }

  lemma SomesCons(i: nat, xs: seq<nat>)
    ensures Somes([i] + xs) == [Some(i)] + Somes(xs)
  {
    assert ([i] + xs)[1..] == xs;
  }

  /** One more match in front of a run of matches and its tail. */
  lemma ConsRows(i: nat, rest: seq<nat>, tail: seq<Option<nat>>, r': seq<Option<nat>>)
    requires r' == Somes(rest) + tail
    ensures [Some(i)] + r' == Somes([i] + rest) + tail
  {
    SomesCons(i, rest);
  }

  // ---------------------------------------------------------------------
  // The per-depth cursor
  // ---------------------------------------------------------------------

  datatype InnerState = InnerState(index: nat, matched: bool, hash: bv32)

  /** Descend with an inner row (None: the null-extended row), or pop up one level. */
  datatype Move = Descend(row: Option<nat>) | PopUp

  /** Strictly decreases with every descending step of one depth. */
  function Rank(st: InnerState, n: nat): nat
    requires st.index <= n
  {
    (n - st.index) * 2 + (if st.matched then 0 else 1)
  }

  /** What the outer-join branch emits at the end of a scan of one depth. */
  function NullTail(matched: bool, jt: JoinType): seq<Option<nat>>
  {
    if !matched && KeepsOuter(jt) then [None] else []
  }

  // ---------------------------------------------------------------------
  // gpujoinFallbackNestLoop
  // ---------------------------------------------------------------------

  function NestLoopStep(st: InnerState, q: seq<bool>, jt: JoinType, marks: bool): (r: (InnerState, Move))
    requires st.index <= |q|
    ensures r.0.index <= |q|
    ensures r.1.Descend? ==> Rank(r.0, |q|) < Rank(st, |q|)
  {
    match FirstFrom(q, st.index)
    case Some(i) => (st.(index := i + 1, matched := st.matched || marks), Descend(Some(i)))
    case None =>
      if !st.matched && KeepsOuter(jt) then (st.(index := |q|, matched := true), Descend(None))
      else (st, PopUp)
  }

  /** The rows one depth hands to the next, for one row of the depths above. */
  function NestLoopRun(st: InnerState, q: seq<bool>, jt: JoinType, marks: bool): seq<Option<nat>>
    requires st.index <= |q|
    decreases Rank(st, |q|)
  {
    var (st', m) := NestLoopStep(st, q, jt, marks);
    if m.PopUp? then [] else [m.row] + NestLoopRun(st', q, jt, marks)
  }

  /** The cursor the depth is left with when it finally pops up. */
  function NestLoopFinal(st: InnerState, q: seq<bool>, jt: JoinType, marks: bool): InnerState
    requires st.index <= |q|
    decreases Rank(st, |q|)
  {
    var (st', m) := NestLoopStep(st, q, jt, marks);
    if m.PopUp? then st else NestLoopFinal(st', q, jt, marks)
  }

  /**
   * A run lists every inner row whose join quals hold, in order. The
   * null-extended row follows when the cursor was not matched and the
   * join keeps outer rows, and, if matches mark the cursor, only when
   * nothing matched.
   */
  lemma NestLoopMatchStep(st: InnerState, q: seq<bool>, jt: JoinType, marks: bool, i: nat)
    requires st.index <= |q| && FirstFrom(q, st.index) == Some(i)
    ensures NestLoopRun(st, q, jt, marks)
      == [Some(i)] + NestLoopRun(st.(index := i + 1, matched := st.matched || marks), q, jt, marks)
  {
  }

  /** The matching case of NestLoopRunRows, on the rows alone. */
  lemma MatchRows(i: nat, rest: seq<nat>, all: seq<nat>, matched: bool, marks: bool, jt: JoinType,
                  run': seq<Option<nat>>, run: seq<Option<nat>>)
    requires all == [i] + rest && run == [Some(i)] + run'
    requires run' == Somes(rest) + NullTail((matched || marks) || (marks && |rest| > 0), jt)
    ensures run == Somes(all) + NullTail(matched || (marks && |all| > 0), jt)
  {
    assert (matched || marks) || (marks && |rest| > 0) <==> matched || (marks && |all| > 0);
    ConsRows(i, rest, NullTail(matched || (marks && |all| > 0), jt), run');
  }

  lemma {:induction false} NestLoopRunRows(st: InnerState, q: seq<bool>, jt: JoinType, marks: bool)
    requires st.index <= |q|
    ensures NestLoopRun(st, q, jt, marks)
      == Somes(Matches(q, st.index))
       + NullTail(st.matched || (marks && |Matches(q, st.index)| > 0), jt)
    decreases Rank(st, |q|)
  {
    var f := FirstFrom(q, st.index);
    if f.Some? {
      NestLoopRunRows(st.(index := f.value + 1, matched := st.matched || marks), q, jt, marks);
      RunRowsMatch(st, q, jt, marks, f.value);
    } else {
      if !st.matched && KeepsOuter(jt) {
        NestLoopRunRows(st.(index := |q|, matched := true), q, jt, marks);
      }
      RunRowsEnd(st, q, jt, marks);
    }
  }

  /** The step of NestLoopRunRows past a matching row `i`, given the rows after it. */
  lemma RunRowsMatch(st: InnerState, q: seq<bool>, jt: JoinType, marks: bool, i: nat)
    requires st.index <= |q| && FirstFrom(q, st.index) == Some(i)
    requires var st' := st.(index := i + 1, matched := st.matched || marks);
      NestLoopRun(st', q, jt, marks)
      == Somes(Matches(q, i + 1)) + NullTail(st'.matched || (marks && |Matches(q, i + 1)| > 0), jt)
    ensures NestLoopRun(st, q, jt, marks)
      == Somes(Matches(q, st.index))
       + NullTail(st.matched || (marks && |Matches(q, st.index)| > 0), jt)
  {
    var st' := st.(index := i + 1, matched := st.matched || marks);
    FirstMatches(q, st.index);
    NestLoopMatchStep(st, q, jt, marks, i);
    MatchRows(i, Matches(q, i + 1), Matches(q, st.index), st.matched, marks, jt,
              NestLoopRun(st', q, jt, marks), NestLoopRun(st, q, jt, marks));
  }

  /** The last step of NestLoopRunRows: no row matches from the cursor on. */
  lemma RunRowsEnd(st: InnerState, q: seq<bool>, jt: JoinType, marks: bool)
    requires st.index <= |q| && FirstFrom(q, st.index).None?
    requires !st.matched && KeepsOuter(jt) ==>
      NestLoopRun(st.(index := |q|, matched := true), q, jt, marks)
      == Somes(Matches(q, |q|)) + NullTail(true, jt)
    ensures NestLoopRun(st, q, jt, marks)
      == Somes(Matches(q, st.index))
       + NullTail(st.matched || (marks && |Matches(q, st.index)| > 0), jt)
  {
    FirstMatches(q, st.index);
    FirstMatches(q, |q|);
  }

  /** The depth is left matched when it was, when the join keeps outer rows, or when a match marked it. */
  lemma {:induction false} NestLoopFinalMatched(st: InnerState, q: seq<bool>, jt: JoinType, marks: bool)
    requires st.index <= |q|
    ensures NestLoopFinal(st, q, jt, marks).matched
      == (st.matched || KeepsOuter(jt) || (marks && |Matches(q, st.index)| > 0))
    decreases Rank(st, |q|)
  {
    var (st', m) := NestLoopStep(st, q, jt, marks);
    FirstMatches(q, st.index);
    match FirstFrom(q, st.index)
    case Some(i) =>
      NestLoopFinalMatched(st', q, jt, marks);
    case None =>
      if m.Descend? {
        NestLoopFinalMatched(st', q, jt, marks);
        FirstMatches(q, |q|);
      }
  }

  // ---------------------------------------------------------------------
  // gpujoinFallbackHashJoin
  // ---------------------------------------------------------------------

  /** The chain entry at `p` carries hash `h` and passes the other quals. */
  predicate Hit(chain: seq<HashItem>, q: seq<bool>, h: bv32, p: nat)
    requires |q| == |chain| && p < |chain|
  {
    chain[p].hash == h && q[p]
  }

  /** The first hit at or after `from`. */
  function NextHit(chain: seq<HashItem>, q: seq<bool>, h: bv32, from: nat): (r: Option<nat>)
    requires |q| == |chain|
    ensures r.Some? ==> from <= r.value < |chain| && Hit(chain, q, h, r.value)
    decreases |chain| - from
  {
    if from >= |chain| then None
    else if Hit(chain, q, h, from) then Some(from)
    else NextHit(chain, q, h, from + 1)
  }

  /** The last entry at or after `from` that carries hash `h`. */
  function LastSameHash(chain: seq<HashItem>, h: bv32, from: nat): (r: Option<nat>)
    ensures r.Some? ==> from <= r.value < |chain| && chain[r.value].hash == h
    decreases |chain| - from
  {
    if from >= |chain| then None
    else match LastSameHash(chain, h, from + 1)
      case Some(p) => Some(p)
      case None => if chain[from].hash == h then Some(from) else None
  }

  /** The row ids of every hit at or after `from`, in chain order. */
  function HitRows(chain: seq<HashItem>, q: seq<bool>, h: bv32, from: nat): seq<Option<nat>>
    requires |q| == |chain|
    decreases |chain| - from
  {
    if from >= |chain| then []
    else (if Hit(chain, q, h, from) then [Some(chain[from].source)] else []) + HitRows(chain, q, h, from + 1)
  }

  /** Following the chain one hit at a time visits exactly the hits, in order. */
  lemma {:induction false} NextHitRows(chain: seq<HashItem>, q: seq<bool>, h: bv32, from: nat)
    requires |q| == |chain|
    ensures NextHit(chain, q, h, from).None? ==> HitRows(chain, q, h, from) == []
    ensures NextHit(chain, q, h, from).Some? ==>
      var p := NextHit(chain, q, h, from).value;
      HitRows(chain, q, h, from) == [Some(chain[p].source)] + HitRows(chain, q, h, p + 1)
    decreases |chain| - from
  {
    if from < |chain| && !Hit(chain, q, h, from) {
      NextHitRows(chain, q, h, from + 1);
    }
  }

  /** No hit at or after `a` means none at or after any later `b`. */
  lemma {:induction false} NoHitBeyond(chain: seq<HashItem>, q: seq<bool>, h: bv32, a: nat, b: nat)
    requires |q| == |chain| && a <= b
    requires NextHit(chain, q, h, a).None?
    ensures NextHit(chain, q, h, b).None?
    decreases b - a
  {
    if a < b {
      NoHitBeyond(chain, q, h, a + 1, b);
    }
  }

  function HashEnd(st: InnerState, jt: JoinType): (r: (InnerState, Move))
  {
    if !st.matched && KeepsOuter(jt) then (st.(matched := true), Descend(None)) else (st, PopUp)
  }

  /**
   * `index` 0 means the scan has not started; otherwise it is one past the
   * chain entry last visited. `key` is the hash of the outer row's join
   * keys, None when they are all null. The chain is the bucket of that
   * hash; a stored `hash` is the key's.
   */
  function HashJoinStep(st: InnerState, chain: seq<HashItem>, q: seq<bool>, key: Option<bv32>,
                        jt: JoinType, marks: bool): (r: (InnerState, Move))
    requires |q| == |chain| && st.index <= |chain|
    requires st.index == 0 || key == Some(st.hash)
    ensures r.0.index <= |chain| && (r.0.index == 0 || key == Some(r.0.hash))
    ensures r.1.Descend? ==> Rank(r.0, |chain|) < Rank(st, |chain|)
  {
    if st.index == 0 && key.None? then HashEnd(st, jt)
    else
      var h := if st.index == 0 then key.value else st.hash;
      match NextHit(chain, q, h, st.index)
      case Some(p) => (InnerState(p + 1, st.matched || marks, h), Descend(Some(chain[p].source)))
      case None =>
        var idx := match LastSameHash(chain, h, st.index)
          case Some(p) => p + 1
          case None => st.index;
        HashEnd(InnerState(idx, st.matched, h), jt)
  }

  function HashJoinRun(st: InnerState, chain: seq<HashItem>, q: seq<bool>, key: Option<bv32>,
                       jt: JoinType, marks: bool): seq<Option<nat>>
    requires |q| == |chain| && st.index <= |chain|
    requires st.index == 0 || key == Some(st.hash)
    decreases Rank(st, |chain|)
  {
    var (st', m) := HashJoinStep(st, chain, q, key, jt, marks);
    if m.PopUp? then [] else [m.row] + HashJoinRun(st', chain, q, key, jt, marks)
  }

  /** A row in front of the run that follows it. */
  lemma RowsCons(x: Option<nat>, rest: seq<Option<nat>>, all: seq<Option<nat>>, matched: bool, marks: bool,
                 jt: JoinType, r: seq<Option<nat>>, r': seq<Option<nat>>)
    requires all == [x] + rest
    requires r' == rest + NullTail(matched || marks || (marks && |rest| > 0), jt)
    requires r == [x] + r'
    ensures r == all + NullTail(matched || (marks && |all| > 0), jt)
  {
  }

  lemma HashMatchStep(st: InnerState, chain: seq<HashItem>, q: seq<bool>, h: bv32, jt: JoinType, marks: bool, p: nat)
    requires |q| == |chain| && st.index <= |chain| && (st.index == 0 || st.hash == h)
    requires NextHit(chain, q, h, st.index) == Some(p)
    ensures HashJoinRun(st, chain, q, Some(h), jt, marks)
      == [Some(chain[p].source)] + HashJoinRun(InnerState(p + 1, st.matched || marks, h), chain, q, Some(h), jt, marks)
  {
  }

  lemma HashMissStep(st: InnerState, chain: seq<HashItem>, q: seq<bool>, h: bv32, jt: JoinType, marks: bool)
    requires |q| == |chain| && st.index <= |chain| && (st.index == 0 || st.hash == h)
    requires NextHit(chain, q, h, st.index).None?
    ensures HashJoinRun(st, chain, q, Some(h), jt, marks) == NullTail(st.matched, jt)
  {
    var (st', m) := HashJoinStep(st, chain, q, Some(h), jt, marks);
    if m.Descend? {
      NoHitBeyond(chain, q, h, st.index, st'.index);
      assert HashJoinRun(st', chain, q, Some(h), jt, marks) == [];
    }
  }

  /** The rows a hash-join run emits for the outer key hash `h`, from the cursor on. */
  predicate HashRowsFrom(st: InnerState, chain: seq<HashItem>, q: seq<bool>, h: bv32, jt: JoinType, marks: bool)
    requires |q| == |chain| && st.index <= |chain| && (st.index == 0 || st.hash == h)
  {
    HashJoinRun(st, chain, q, Some(h), jt, marks)
      == HitRows(chain, q, h, st.index)
       + NullTail(st.matched || (marks && |HitRows(chain, q, h, st.index)| > 0), jt)
  }

  lemma HashRowsMatch(st: InnerState, chain: seq<HashItem>, q: seq<bool>, h: bv32, jt: JoinType, marks: bool, p: nat)
    requires |q| == |chain| && st.index <= |chain| && (st.index == 0 || st.hash == h)
    requires NextHit(chain, q, h, st.index) == Some(p)
    requires HashRowsFrom(InnerState(p + 1, st.matched || marks, h), chain, q, h, jt, marks)
    ensures HashRowsFrom(st, chain, q, h, jt, marks)
  {
    var st' := InnerState(p + 1, st.matched || marks, h);
    NextHitRows(chain, q, h, st.index);
    HashMatchStep(st, chain, q, h, jt, marks, p);
    RowsCons(Some(chain[p].source), HitRows(chain, q, h, p + 1), HitRows(chain, q, h, st.index), st.matched, marks, jt,
             HashJoinRun(st, chain, q, Some(h), jt, marks), HashJoinRun(st', chain, q, Some(h), jt, marks));
  }

  /**
   * A hash-join run lists the row ids of the chain entries whose hash is
   * the outer key's and whose other quals hold, in chain order. The
   * null-extended row follows on the same terms as in the nest-loop.
   */
  lemma {:induction false} HashJoinRunRows(st: InnerState, chain: seq<HashItem>, q: seq<bool>, h: bv32,
                                           jt: JoinType, marks: bool)
    requires |q| == |chain| && st.index <= |chain| && (st.index == 0 || st.hash == h)
    ensures HashJoinRun(st, chain, q, Some(h), jt, marks)
      == HitRows(chain, q, h, st.index)
       + NullTail(st.matched || (marks && |HitRows(chain, q, h, st.index)| > 0), jt)
    decreases Rank(st, |chain|)
  {
    match NextHit(chain, q, h, st.index)
    case Some(p) =>
      HashJoinRunRows(InnerState(p + 1, st.matched || marks, h), chain, q, h, jt, marks);
      HashRowsMatch(st, chain, q, h, jt, marks, p);
    case None =>
      NextHitRows(chain, q, h, st.index);
      HashMissStep(st, chain, q, h, jt, marks);
  }

  /** All-null join keys match no inner row. */
  lemma HashJoinNullKeys(st: InnerState, chain: seq<HashItem>, q: seq<bool>, jt: JoinType, marks: bool)
    requires |q| == |chain| && st.index == 0
    ensures HashJoinRun(st, chain, q, None, jt, marks) == NullTail(st.matched, jt)
  {
    var (st', m) := HashJoinStep(st, chain, q, None, jt, marks);
    if m.Descend? {
      assert HashJoinRun(st', chain, q, None, jt, marks) == [];
    }
  }

  // ---------------------------------------------------------------------
  // The outer-join map (src/gpujoin.c:5026-5028, 5098-5100)
  // ---------------------------------------------------------------------

  /**
   * A step's effect on the depth's outer-join map, None when the depth is
   * neither RIGHT nor FULL: descending with inner row `i` sets entry `i`;
   * popping up or descending with the null-extended row writes nothing.
   */
  function Mark(ojmap: Option<seq<bool>>, m: Move): (r: Option<seq<bool>>)
    ensures r.None? <==> ojmap.None?
    ensures ojmap.Some? ==> |r.value| == |ojmap.value|
    ensures ojmap.Some? ==> forall k | 0 <= k < |ojmap.value| ::
      r.value[k] == (ojmap.value[k] || m == Descend(Some(k)))
  {
    if ojmap.Some? && m.Descend? && m.row.Some? && m.row.value < |ojmap.value|
    then Some(ojmap.value[m.row.value := true])
    else ojmap
  }

  /** gpujoinFallbackNestLoop with its outer-join map: the cursor step, and the entry it marks. */
  function NestLoopStepMap(st: InnerState, q: seq<bool>, jt: JoinType, marks: bool, ojmap: Option<seq<bool>>)
    : (r: (InnerState, Move, Option<seq<bool>>))
    requires st.index <= |q|
    ensures (r.0, r.1) == NestLoopStep(st, q, jt, marks)
    ensures r.2.None? <==> ojmap.None?
    ensures ojmap.Some? ==> |r.2.value| == |ojmap.value|
    ensures ojmap.Some? ==> forall k | 0 <= k < |ojmap.value| ::
      r.2.value[k] == (ojmap.value[k] || (r.1.Descend? && r.1.row == Some(k)))
  {
    var (st', m) := NestLoopStep(st, q, jt, marks);
    (st', m, Mark(ojmap, m))
  }

  /** The map a nest-loop depth leaves once it pops up. */
  function NestLoopMap(st: InnerState, q: seq<bool>, jt: JoinType, marks: bool, ojmap: Option<seq<bool>>)
    : (r: Option<seq<bool>>)
    requires st.index <= |q|
    ensures r.None? <==> ojmap.None?
    ensures ojmap.Some? ==> |r.value| == |ojmap.value| && forall k | 0 <= k < |r.value| :: ojmap.value[k] ==> r.value[k]
    decreases Rank(st, |q|)
  {
    var (st', m, om) := NestLoopStepMap(st, q, jt, marks, ojmap);
    if m.PopUp? then om else NestLoopMap(st', q, jt, marks, om)
  }

  /** Exactly the inner rows the run emits are marked, besides those marked before. */
  lemma {:induction false} NestLoopMapMarks(st: InnerState, q: seq<bool>, jt: JoinType, marks: bool,
                                            ojmap: Option<seq<bool>>)
    requires st.index <= |q|
    ensures ojmap.Some? ==>
      var r := NestLoopMap(st, q, jt, marks, ojmap).value;
      && |r| == |ojmap.value|
      && forall k | 0 <= k < |r| :: r[k] == (ojmap.value[k] || Some(k) in NestLoopRun(st, q, jt, marks))
    decreases Rank(st, |q|)
  {
    var (st', m, om) := NestLoopStepMap(st, q, jt, marks, ojmap);
    if m.Descend? {
      NestLoopMapMarks(st', q, jt, marks, om);
      assert NestLoopRun(st, q, jt, marks) == [m.row] + NestLoopRun(st', q, jt, marks);
    }
  }

  /** So a nest-loop run marks exactly the inner rows from the cursor on whose join quals hold. */
  lemma NestLoopMapRows(st: InnerState, q: seq<bool>, jt: JoinType, marks: bool, ojmap: seq<bool>)
    requires st.index <= |q|
    ensures var r := NestLoopMap(st, q, jt, marks, Some(ojmap)).value;
      && |r| == |ojmap|
      && forall k | 0 <= k < |r| :: r[k] == (ojmap[k] || (st.index <= k < |q| && q[k]))
  {
    NestLoopMapMarks(st, q, jt, marks, Some(ojmap));
    NestLoopRunRows(st, q, jt, marks);
    MatchesExact(q, st.index);
    var run := NestLoopRun(st, q, jt, marks);
    var ms := Matches(q, st.index);
    forall k: nat ensures Some(k) in run <==> (st.index <= k < |q| && q[k])
    {
      SomesIn(ms, k);
      NullTailIn(st.matched || (marks && |ms| > 0), jt, k);
    }
  }

  lemma {:induction false} SomesIn(xs: seq<nat>, k: nat)
    ensures Some(k) in Somes(xs) <==> k in xs
    decreases |xs|
  {
    if |xs| > 0 {
      SomesIn(xs[1..], k);
      assert xs == [xs[0]] + xs[1..];
      SomesCons(xs[0], xs[1..]);
    }
  }

  lemma NullTailIn(matched: bool, jt: JoinType, k: nat)
    ensures Some(k) !in NullTail(matched, jt)
  {
  }

  /** gpujoinFallbackHashJoin with its outer-join map: the cursor step, and the entry it marks. */
  function HashJoinStepMap(st: InnerState, chain: seq<HashItem>, q: seq<bool>, key: Option<bv32>,
                           jt: JoinType, marks: bool, ojmap: Option<seq<bool>>): (r: (InnerState, Move, Option<seq<bool>>))
    requires |q| == |chain| && st.index <= |chain|
    requires st.index == 0 || key == Some(st.hash)
    ensures (r.0, r.1) == HashJoinStep(st, chain, q, key, jt, marks)
    ensures r.2.None? <==> ojmap.None?
    ensures ojmap.Some? ==> |r.2.value| == |ojmap.value|
    ensures ojmap.Some? ==> forall k | 0 <= k < |ojmap.value| ::
      r.2.value[k] == (ojmap.value[k] || (r.1.Descend? && r.1.row == Some(k)))
  {
    var (st', m) := HashJoinStep(st, chain, q, key, jt, marks);
    (st', m, Mark(ojmap, m))
  }

  /** The map a hash-join depth leaves once it pops up. */
  function HashJoinMap(st: InnerState, chain: seq<HashItem>, q: seq<bool>, key: Option<bv32>,
                       jt: JoinType, marks: bool, ojmap: Option<seq<bool>>): (r: Option<seq<bool>>)
    requires |q| == |chain| && st.index <= |chain|
    requires st.index == 0 || key == Some(st.hash)
    ensures r.None? <==> ojmap.None?
    ensures ojmap.Some? ==> |r.value| == |ojmap.value| && forall k | 0 <= k < |r.value| :: ojmap.value[k] ==> r.value[k]
    decreases Rank(st, |chain|)
  {
    var (st', m, om) := HashJoinStepMap(st, chain, q, key, jt, marks, ojmap);
    if m.PopUp? then om else HashJoinMap(st', chain, q, key, jt, marks, om)
  }

  /** Exactly the row ids the run emits are marked, besides those marked before. */
  lemma {:induction false} HashJoinMapMarks(st: InnerState, chain: seq<HashItem>, q: seq<bool>, key: Option<bv32>,
                                            jt: JoinType, marks: bool, ojmap: Option<seq<bool>>)
    requires |q| == |chain| && st.index <= |chain|
    requires st.index == 0 || key == Some(st.hash)
    ensures ojmap.Some? ==>
      var r := HashJoinMap(st, chain, q, key, jt, marks, ojmap).value;
      && |r| == |ojmap.value|
      && forall k | 0 <= k < |r| :: r[k] == (ojmap.value[k] || Some(k) in HashJoinRun(st, chain, q, key, jt, marks))
    decreases Rank(st, |chain|)
  {
    var (st', m, om) := HashJoinStepMap(st, chain, q, key, jt, marks, ojmap);
    if m.Descend? {
      HashJoinMapMarks(st', chain, q, key, jt, marks, om);
      assert HashJoinRun(st, chain, q, key, jt, marks) == [m.row] + HashJoinRun(st', chain, q, key, jt, marks);
    }
  }

  /** So a hash-join run marks exactly the row ids of the chain entries it hits. */
  lemma HashJoinMapRows(st: InnerState, chain: seq<HashItem>, q: seq<bool>, h: bv32,
                        jt: JoinType, marks: bool, ojmap: seq<bool>)
    requires |q| == |chain| && st.index <= |chain| && (st.index == 0 || st.hash == h)
    ensures var r := HashJoinMap(st, chain, q, Some(h), jt, marks, Some(ojmap)).value;
      && |r| == |ojmap|
      && forall k | 0 <= k < |r| :: r[k] == (ojmap[k] || Some(k) in HitRows(chain, q, h, st.index))
  {
    HashJoinMapMarks(st, chain, q, Some(h), jt, marks, Some(ojmap));
    HashJoinRunRows(st, chain, q, h, jt, marks);
    var hits := HitRows(chain, q, h, st.index);
    forall k: nat ensures Some(k) in HashJoinRun(st, chain, q, Some(h), jt, marks) <==> Some(k) in hits
    {
      NullTailIn(st.matched || (marks && |hits| > 0), jt, k);
    }
  }

  // ---------------------------------------------------------------------
  // Depth one under gpujoinFallbackLoadSource
  // ---------------------------------------------------------------------

  /**
   * The rewind LoadSource gives depth one before the next outer row: the
   * source resets only the index; the corrected machine clears `matched`
   * too, as every deeper rewind does.
   */
  function LoadSourceRewind(st: InnerState, fixed: bool): InnerState
  {
    st.(index := 0, matched := if fixed then false else st.matched)
  }

  /**
   * A one-level nest-loop join driven over the outer rows LoadSource
   * yields: for each outer row, the inner rows it is emitted with.
   */
  function DriveNestLoop(outers: seq<seq<bool>>, st: InnerState, jt: JoinType, fixed: bool): (r: seq<seq<Option<nat>>>)
    ensures |r| == |outers|
  {
    if |outers| == 0 then []
    else
      var st0 := LoadSourceRewind(st, fixed);
      [NestLoopRun(st0, outers[0], jt, fixed)] + DriveNestLoop(outers[1..], NestLoopFinal(st0, outers[0], jt, fixed), jt, fixed)
  }

  /** The rows of a join of one outer row: its matches, or the null-extended row when none and the join keeps outer rows. */
  function JoinedRows(q: seq<bool>, jt: JoinType): seq<Option<nat>>
  {
    var m := Matches(q, 0);
    if |m| == 0 && KeepsOuter(jt) then [None] else Somes(m)
  }

  /** From a cleared cursor, the corrected run is the join of one outer row. */
  lemma RewoundRunJoins(st: InnerState, q: seq<bool>, jt: JoinType)
    requires st.index == 0 && !st.matched
    ensures NestLoopRun(st, q, jt, true) == JoinedRows(q, jt)
  {
    NestLoopRunRows(st, q, jt, true);
    TailJoins(NestLoopRun(st, q, jt, true), Matches(q, 0), jt);
  }

  /** The matches followed by the null tail of a fresh cursor are the join of the outer row. */
  lemma TailJoins(rows: seq<Option<nat>>, m: seq<nat>, jt: JoinType)
    requires rows == Somes(m) + NullTail(|m| > 0, jt)
    ensures rows == if |m| == 0 && KeepsOuter(jt) then [None] else Somes(m)
  {
    if |m| == 0 {
      assert Somes(m) == [];
    }
  }

  /** With both fixes, every outer row is joined as the join type demands. */
  lemma {:induction false} DriveNestLoopJoins(outers: seq<seq<bool>>, st: InnerState, jt: JoinType)
    ensures forall k | 0 <= k < |outers| :: DriveNestLoop(outers, st, jt, true)[k] == JoinedRows(outers[k], jt)
    decreases |outers|
  {
    if |outers| > 0 {
      var st0 := LoadSourceRewind(st, true);
      var st1 := NestLoopFinal(st0, outers[0], jt, true);
      var d, tail := DriveNestLoop(outers, st, jt, true), DriveNestLoop(outers[1..], st1, jt, true);
      assert d == [NestLoopRun(st0, outers[0], jt, true)] + tail;
      RewoundRunJoins(st0, outers[0], jt);
      DriveNestLoopJoins(outers[1..], st1, jt);
      forall k | 0 <= k < |outers|
        ensures d[k] == JoinedRows(outers[k], jt)
      {
        if k > 0 {
          assert d[k] == tail[k - 1];
          assert outers[1..][k - 1] == outers[k];
        }
      }
    }
  }

  /** As written, once `matched` is set no later outer row gets a null-extended row. */
  lemma {:induction false} DriveNestLoopStale(outers: seq<seq<bool>>, st: InnerState, jt: JoinType)
    requires st.matched
    ensures forall k | 0 <= k < |outers| :: DriveNestLoop(outers, st, jt, false)[k] == Somes(Matches(outers[k], 0))
    decreases |outers|
  {
    if |outers| > 0 {
      var st0 := LoadSourceRewind(st, false);
      var st1 := NestLoopFinal(st0, outers[0], jt, false);
      var d, tail := DriveNestLoop(outers, st, jt, false), DriveNestLoop(outers[1..], st1, jt, false);
      assert d == [NestLoopRun(st0, outers[0], jt, false)] + tail;
      NestLoopRunRows(st0, outers[0], jt, false);
      NestLoopFinalMatched(st0, outers[0], jt, false);
      DriveNestLoopStale(outers[1..], st1, jt);
      forall k | 0 <= k < |outers|
        ensures d[k] == Somes(Matches(outers[k], 0))
      {
        if k > 0 {
          assert d[k] == tail[k - 1];
          assert outers[1..][k - 1] == outers[k];
        }
      }
    }
  }

  /**
   * As written, a LEFT or FULL join gives the first outer row its matches
   * followed by a null-extended row, and every later outer row its
   * matches alone.
   */
  lemma DriveNestLoopAsWritten(outers: seq<seq<bool>>, st: InnerState, jt: JoinType)
    requires |outers| > 0 && !st.matched && KeepsOuter(jt)
    ensures DriveNestLoop(outers, st, jt, false)[0] == Somes(Matches(outers[0], 0)) + [None]
    ensures forall k | 1 <= k < |outers| :: DriveNestLoop(outers, st, jt, false)[k] == Somes(Matches(outers[k], 0))
  {
    var st0 := LoadSourceRewind(st, false);
    NestLoopRunRows(st0, outers[0], jt, false);
    NestLoopFinalMatched(st0, outers[0], jt, false);
    DriveNestLoopStale(outers[1..], NestLoopFinal(st0, outers[0], jt, false), jt);
    forall k | 1 <= k < |outers|
      ensures DriveNestLoop(outers, st, jt, false)[k] == Somes(Matches(outers[k], 0))
    {
      assert outers[1..][k - 1] == outers[k];
    }
  }

  /**
   * Two outer rows under a LEFT join, the first matching inner row 0 and
   * the second matching nothing: as written the first also gets a null
   * row and the second gets none; corrected, each gets exactly one row.
   */
  lemma LeftJoinCounterexample()
    ensures DriveNestLoop([[true], [false]], InnerState(0, false, 0), JoinLeft, false) == [[Some(0), None], []]
    ensures DriveNestLoop([[true], [false]], InnerState(0, false, 0), JoinLeft, true) == [[Some(0)], [None]]
  {
    var outers := [[true], [false]];
    assert Matches(outers[0], 0) == [0] by {
      assert Matches(outers[0], 1) == [];
    }
    assert Matches(outers[1], 0) == [] by {
      assert Matches(outers[1], 1) == [];
    }
    assert Somes([0]) == [Some(0)];
    var st := InnerState(0, false, 0);
    DriveNestLoopAsWritten(outers, st, JoinLeft);
    var asWritten := DriveNestLoop(outers, st, JoinLeft, false);
    assert asWritten[0] == [Some(0), None] && asWritten[1] == [];
    assert asWritten == [asWritten[0], asWritten[1]];
    DriveNestLoopJoins(outers, st, JoinLeft);
    var fixed := DriveNestLoop(outers, st, JoinLeft, true);
    assert fixed[0] == [Some(0)] && fixed[1] == [None];
    assert fixed == [fixed[0], fixed[1]];
  }

  // ---------------------------------------------------------------------
  // gpujoinFallbackLoadOuter
  // ---------------------------------------------------------------------

  function Unset(ojmap: seq<bool>): (r: seq<bool>)
    ensures |r| == |ojmap|
    ensures forall i | 0 <= i < |ojmap| :: r[i] == !ojmap[i]
  {
    seq(|ojmap|, i requires 0 <= i < |ojmap| => !ojmap[i])
  }

  /** The next inner row, at or after the cursor, that no outer row joined with. */
  function LoadOuter(ojmap: seq<bool>, index: nat): (r: Option<nat>)
    ensures r.Some? ==> index <= r.value < |ojmap| && !ojmap[r.value]
    ensures r.Some? ==> forall k | index <= k < r.value :: ojmap[k]
    ensures r.None? ==> forall k | index <= k < |ojmap| :: ojmap[k]
  {
    FirstFrom(Unset(ojmap), index)
  }

  /** The rows successive LoadOuter calls produce, each resuming one past the last. */
  function OuterScan(ojmap: seq<bool>, index: nat): seq<nat>
    decreases |ojmap| - index
  {
    match LoadOuter(ojmap, index)
    case None => []
    case Some(i) => [i] + OuterScan(ojmap, i + 1)
  }

  lemma {:induction false} OuterScanMatches(ojmap: seq<bool>, index: nat)
    ensures OuterScan(ojmap, index) == Matches(Unset(ojmap), index)
    decreases |ojmap| - index
  {
    var f := LoadOuter(ojmap, index);
    if f.Some? {
      OuterScanMatches(ojmap, f.value + 1);
      OuterScanHit(ojmap, index, f.value);
    } else {
      OuterScanEnd(ojmap, index);
    }
  }

  lemma OuterScanHit(ojmap: seq<bool>, index: nat, i: nat)
    requires LoadOuter(ojmap, index) == Some(i)
    requires OuterScan(ojmap, i + 1) == Matches(Unset(ojmap), i + 1)
    ensures OuterScan(ojmap, index) == Matches(Unset(ojmap), index)
  {
    FirstMatches(Unset(ojmap), index);
  }

  lemma OuterScanEnd(ojmap: seq<bool>, index: nat)
    requires LoadOuter(ojmap, index).None?
    ensures OuterScan(ojmap, index) == Matches(Unset(ojmap), index)
  {
    FirstMatches(Unset(ojmap), index);
  }

  /** The right-outer pass visits every unmatched inner row, once each, in order. */
  lemma OuterScanUnmatched(ojmap: seq<bool>, index: nat)
    ensures forall x :: x in OuterScan(ojmap, index) <==> index <= x < |ojmap| && !ojmap[x]
    ensures forall a, b | 0 <= a < b < |OuterScan(ojmap, index)| :: OuterScan(ojmap, index)[a] < OuterScan(ojmap, index)[b]
  {
    OuterScanMatches(ojmap, index);
    MatchesExact(Unset(ojmap), index);
  }

  // ---------------------------------------------------------------------
  // gpujoinFallbackLoadSource over a KDS_FORMAT_BLOCK buffer
  // ---------------------------------------------------------------------

  /** A line pointer: whether it is LP_NORMAL, and whether the outer quals pass on its tuple. */
  datatype Line = Line(normal: bool, passes: bool)

  datatype Page = Page(lines: seq<Line>)

  /** Line numbers travel in the low 16 bits of the cursor. */
  predicate PagesFit(pages: seq<Page>)
  {
    forall b | 0 <= b < |pages| :: |pages[b].lines| < 0x10000
  }

  /** A loaded outer tuple, an outer row left all-null, or the end of the buffer. */
  datatype BlockLoaded = Tuple(block: nat, line: nat) | AllNull(nextBlock: nat, nextLine: nat) | NoMore

  /**
   * The do-while loop of LoadSource from block `b`, line `l`. `retval` is
   * the loop's flag; the source reaches the loop test through `continue`
   * (end of page, a line pointer that is not normal) before it has ever
   * assigned the flag, so on the first pass the test reads an
   * uninitialised value. `fixed` retries on `continue` instead.
   */
  function BlockLoadAt(pages: seq<Page>, b: nat, l: nat, retval: bool, fixed: bool): (r: BlockLoaded)
    requires PagesFit(pages) && l < 0x10000
    ensures r.Tuple? ==> r.block < |pages| && r.line < |pages[r.block].lines|
    ensures r.Tuple? ==> pages[r.block].lines[r.line] == Line(true, true)
    ensures fixed ==> !r.AllNull?
    decreases |pages| - b, 0x10000 - l
  {
    if b >= |pages| then NoMore
    else if l >= |pages[b].lines| then
      if !fixed && retval then AllNull(b + 1, 0) else BlockLoadAt(pages, b + 1, 0, retval, fixed)
    else if !pages[b].lines[l].normal then
      if !fixed && retval then AllNull(b, l + 1) else BlockLoadAt(pages, b, l + 1, retval, fixed)
    else if pages[b].lines[l].passes then Tuple(b, l)
    else BlockLoadAt(pages, b, l + 1, false, fixed)
  }

  /** The cursor `fallback_outer_index` is block << 16 | line. */
  function BlockLoad(pages: seq<Page>, cursor: nat, retval: bool, fixed: bool): BlockLoaded
    requires PagesFit(pages)
  {
    BlockLoadAt(pages, cursor / 0x10000, cursor % 0x10000, retval, fixed)
  }

  /** Every normal tuple that passes the outer quals, from block `b`, line `l` on, in buffer order. */
  function Visible(pages: seq<Page>, b: nat, l: nat): seq<(nat, nat)>
    requires PagesFit(pages) && l <= 0x10000
    decreases |pages| - b, 0x10000 - l
  {
    if b >= |pages| then []
    else if l >= |pages[b].lines| then Visible(pages, b + 1, 0)
    else (if pages[b].lines[l] == Line(true, true) then [(b, l)] else []) + Visible(pages, b, l + 1)
  }

  /** `r` is the first visible tuple from block `b`, line `l` on, or the end when none is left. */
  predicate Describes(pages: seq<Page>, b: nat, l: nat, r: BlockLoaded)
    requires PagesFit(pages) && l <= 0x10000
  {
    && (r.NoMore? <==> |Visible(pages, b, l)| == 0)
    && (r.Tuple? ==> r.line < 0x10000 && Visible(pages, b, l) == [(r.block, r.line)] + Visible(pages, r.block, r.line + 1))
  }

  /** Two positions with the same tuples ahead of them are described alike. */
  lemma DescribesMove(pages: seq<Page>, b: nat, l: nat, b2: nat, l2: nat, r: BlockLoaded)
    requires PagesFit(pages) && l <= 0x10000 && l2 <= 0x10000
    requires Visible(pages, b, l) == Visible(pages, b2, l2)
    requires Describes(pages, b2, l2, r)
    ensures Describes(pages, b, l, r)
  {
  }

  /** The corrected loop yields the first visible tuple, or reports the end when none is left. */
  lemma {:induction false} BlockLoadVisible(pages: seq<Page>, b: nat, l: nat, retval: bool)
    requires PagesFit(pages) && l < 0x10000
    ensures Describes(pages, b, l, BlockLoadAt(pages, b, l, retval, true))
    decreases |pages| - b, 0x10000 - l
  {
    if b >= |pages| {
    } else if l >= |pages[b].lines| {
      BlockLoadVisible(pages, b + 1, 0, retval);
      EndOfPageStep(pages, b, l, retval);
    } else if pages[b].lines[l] != Line(true, true) {
      var rv := if pages[b].lines[l].normal then false else retval;
      BlockLoadVisible(pages, b, l + 1, rv);
      SkipLineStep(pages, b, l, retval, rv);
    } else {
      assert Visible(pages, b, l) == [(b, l)] + Visible(pages, b, l + 1);
    }
  }

  /** Past the last line of a page, the corrected loop goes on at the next page. */
  lemma EndOfPageStep(pages: seq<Page>, b: nat, l: nat, retval: bool)
    requires PagesFit(pages) && l < 0x10000 && b < |pages| && l >= |pages[b].lines|
    requires Describes(pages, b + 1, 0, BlockLoadAt(pages, b + 1, 0, retval, true))
    ensures Describes(pages, b, l, BlockLoadAt(pages, b, l, retval, true))
  {
    assert BlockLoadAt(pages, b, l, retval, true) == BlockLoadAt(pages, b + 1, 0, retval, true);
    DescribesMove(pages, b, l, b + 1, 0, BlockLoadAt(pages, b + 1, 0, retval, true));
  }

  /** A line that is not a visible tuple is stepped over. */
  lemma SkipLineStep(pages: seq<Page>, b: nat, l: nat, retval: bool, rv: bool)
    requires PagesFit(pages) && l < 0x10000 && b < |pages| && l < |pages[b].lines|
    requires pages[b].lines[l] != Line(true, true)
    requires rv == if pages[b].lines[l].normal then false else retval
    requires Describes(pages, b, l + 1, BlockLoadAt(pages, b, l + 1, rv, true))
    ensures Describes(pages, b, l, BlockLoadAt(pages, b, l, retval, true))
  {
    assert BlockLoadAt(pages, b, l, retval, true) == BlockLoadAt(pages, b, l + 1, rv, true);
    assert Visible(pages, b, l) == Visible(pages, b, l + 1);
    DescribesMove(pages, b, l, b, l + 1, BlockLoadAt(pages, b, l + 1, rv, true));
  }

  /** A flag that starts out false makes the loop as written behave like the corrected one. */
  lemma {:induction false} BlockLoadClearFlag(pages: seq<Page>, b: nat, l: nat)
    requires PagesFit(pages) && l < 0x10000
    ensures BlockLoadAt(pages, b, l, false, false) == BlockLoadAt(pages, b, l, false, true)
    decreases |pages| - b, 0x10000 - l
  {
    if b < |pages| {
      if l >= |pages[b].lines| {
        BlockLoadClearFlag(pages, b + 1, 0);
      } else if !(pages[b].lines[l] == Line(true, true)) {
        BlockLoadClearFlag(pages, b, l + 1);
      }
    }
  }

  /** Packing and unpacking the cursor. */
  lemma CursorSplit(b: nat, l: nat)
    requires l < 0x10000
    ensures (b * 0x10000 + l) / 0x10000 == b && (b * 0x10000 + l) % 0x10000 == l
  {
  }

  /**
   * After a corrected load, the cursor the source leaves behind (one past
   * the tuple) resumes with exactly the visible tuples not yet loaded.
   */
  lemma BlockLoadResumes(pages: seq<Page>, cursor: nat, retval: bool)
    requires PagesFit(pages)
    ensures BlockLoad(pages, cursor, retval, true).NoMore? <==> Visible(pages, cursor / 0x10000, cursor % 0x10000) == []
    ensures var r := BlockLoad(pages, cursor, retval, true);
      r.Tuple? ==>
        var next := r.block * 0x10000 + r.line + 1;
        Visible(pages, cursor / 0x10000, cursor % 0x10000)
          == [(r.block, r.line)] + Visible(pages, next / 0x10000, next % 0x10000)
  {
    BlockLoadVisible(pages, cursor / 0x10000, cursor % 0x10000, retval);
    var r := BlockLoad(pages, cursor, retval, true);
    assert Describes(pages, cursor / 0x10000, cursor % 0x10000, r);
    if r.Tuple? {
      CursorSplit(r.block, r.line + 1);
    }
  }

  /**
   * As written, a call that starts on an empty page before a page holding
   * a visible tuple, with the uninitialised flag happening to read true,
   * returns an outer row with no tuple loaded, which the driver then joins
   * as an all-null outer row; corrected, it loads the tuple.
   */
  lemma EmptyPageCounterexample()
    ensures BlockLoad([Page([]), Page([Line(true, true)])], 0, true, false) == AllNull(1, 0)
    ensures BlockLoad([Page([]), Page([Line(true, true)])], 0, true, true) == Tuple(1, 0)
  {
  }
}
