/**
 * Loading the inner buffers of all depths into one shared segment, the
 * "kern_multirels" (src/gpujoin.c:6440-6645), and sharing that segment
 * between sibling GpuJoin plans under one key (src/gpujoin.c:6424-6433,
 * 6462-6480, 6618-6640, 6749-6819).
 *
 * The tuples themselves and the device copies are not modelled: what is
 * kept is where each depth's buffer and outer-join map sit in the segment,
 * when loading is skipped, and the reference count of a shared segment.
 */
module InnerPreload {
  import opened Wrappers
  import opened Align
  import opened InnerKds

  /** One depth after its inner rows were loaded. */
  datatype InnerLoad = InnerLoad(joinType: JoinType, hasOuterHashKeys: bool, nitems: nat, length: nat)

  /** The per-depth entry of kern_multirels. */
  datatype Chunk = Chunk(chunkOffset: nat, isNestloop: bool, rightOuter: bool, leftOuter: bool, ojmapOffset: nat)

  datatype Layout = Layout(chunks: seq<Chunk>, kmrelsLength: nat, ojmapsLength: nat, required: nat)

  predicate KeepsInner(jt: JoinType) { jt == JoinRight || jt == JoinFull }
  predicate KeepsOuter(jt: JoinType) { jt == JoinLeft || jt == JoinFull }

  /** Bytes of outer-join map the first `n` depths need. */
  function OjmapsUsage(inners: seq<InnerLoad>, n: nat): (u: nat)
    requires n <= |inners|
    ensures u % 16 == 0
  {
    if n == 0 then 0
    else
      var prev := OjmapsUsage(inners, n - 1);
      if KeepsInner(inners[n - 1].joinType) then
        AlignedAfterAlign(16, inners[n - 1].nitems);
        var a := StromAlign(inners[n - 1].nitems);
        assert a == 16 * AlignQuot(16, inners[n - 1].nitems);
        prev + a
      else prev
  }

  /**
   * Some depth has no rows and every depth from there to the last is an
   * inner join: no joined row can come out, whatever the outer side holds.
   */
  predicate NothingToJoin(inners: seq<InnerLoad>)
  {
    exists i | 0 <= i < |inners| ::
      inners[i].nitems == 0 && forall j | i <= j < |inners| :: inners[j].joinType == JoinInner
  }

  predicate ChunkFlags(c: Chunk, l: InnerLoad)
  {
    && c.isNestloop == !l.hasOuterHashKeys
    && c.rightOuter == KeepsInner(l.joinType)
    && c.leftOuter == KeepsOuter(l.joinType)
  }

  /**
   * __gpujoin_inner_preload, without the loading itself: the header of
   * `headSz` bytes, then each depth's buffer at a 16-byte boundary; each
   * RIGHT or FULL depth gets a 16-byte aligned run of one byte per inner
   * row in the outer-join map. None when the special case that skips the
   * outer relation applies. `numDevs` is the number of GPU devices: the
   * host keeps one copy of the maps per device and one for itself.
   */
  method PreloadLayout(inners: seq<InnerLoad>, headSz: nat, numDevs: nat) returns (r: Option<Layout>)
    ensures r.None? <==> NothingToJoin(inners)
    ensures r.Some? ==> LayoutOk(inners, headSz, numDevs, r.value)
  {
    var l := BuildLayout(inners, headSz, numDevs);
    var empty := EmptyShortcut(inners);
    if empty {
      return None;
    }
    r := Some(l);
  }

  /** Where the depths' buffers and maps sit, and how many bytes the segment needs. */
  predicate LayoutOk(inners: seq<InnerLoad>, headSz: nat, numDevs: nat, l: Layout)
  {
    && |l.chunks| == |inners|
    && Placed(inners, headSz, l.chunks, l.kmrelsLength)
    && l.ojmapsLength == OjmapsUsage(inners, |inners|)
    && l.required == l.kmrelsLength + l.ojmapsLength * (numDevs + 1)
  }

  method BuildLayout(inners: seq<InnerLoad>, headSz: nat, numDevs: nat) returns (l: Layout)
    ensures LayoutOk(inners, headSz, numDevs, l)
  {
    var chunks, usage, ojmaps := PlaceChunks(inners, headSz);
    l := Layout(chunks, usage, ojmaps, usage + ojmaps * (numDevs + 1));
  }

  /**
   * The chunks of `inners` sit one after the other from the aligned end of
   * the header and before `end`, with the flags their join types call for
   * and, for RIGHT and FULL depths, consecutive runs of the outer-join map.
   */
  predicate Placed(inners: seq<InnerLoad>, headSz: nat, chunks: seq<Chunk>, end: nat)
    requires |chunks| == |inners|
  {
    && (|inners| > 0 ==> chunks[0].chunkOffset == StromAlign(headSz))
    && (forall i | 0 <= i < |inners| :: ChunkFlags(chunks[i], inners[i]))
    && (forall i | 0 <= i < |inners| - 1 :: chunks[i].chunkOffset + inners[i].length <= chunks[i + 1].chunkOffset)
    && (|inners| > 0 ==> chunks[|inners| - 1].chunkOffset + inners[|inners| - 1].length <= end)
    && (forall i {:trigger chunks[i]} | 0 <= i < |inners| && KeepsInner(inners[i].joinType) ::
          chunks[i].ojmapOffset == OjmapsUsage(inners, i)
          && chunks[i].ojmapOffset + inners[i].nitems <= OjmapsUsage(inners, i + 1))
  }

  /** The loading loop of __gpujoin_inner_preload, depth by depth. */
  method PlaceChunks(inners: seq<InnerLoad>, headSz: nat) returns (chunks: seq<Chunk>, usage: nat, ojmaps: nat)
    ensures |chunks| == |inners| && Placed(inners, headSz, chunks, usage)
    ensures ojmaps == OjmapsUsage(inners, |inners|)
  {
    usage := StromAlign(headSz);
    chunks := [];
    ojmaps := 0;
    var i := 0;
    while i < |inners|
      invariant 0 <= i <= |inners| && |chunks| == i
      invariant ojmaps == OjmapsUsage(inners, i)
      invariant i == 0 ==> usage == StromAlign(headSz)
      invariant Placed(inners[..i], headSz, chunks, usage)
    {
      var c;
      var usage';
      c, usage', ojmaps := PlaceChunk(inners[i], usage, ojmaps);
      assert OjmapsUsage(inners, i + 1) == ojmaps;
      PlacedExtend(inners, i, headSz, chunks, usage, c, usage');
      chunks := chunks + [c];
      usage := usage';
      i := i + 1;
    }
    assert inners[..i] == inners;
  }

  /** The map usage of a prefix is the usage of the whole up to that point. */
  lemma {:induction false} OjmapsPrefix(inners: seq<InnerLoad>, m: nat, n: nat)
    requires n <= m <= |inners|
    ensures OjmapsUsage(inners[..m], n) == OjmapsUsage(inners, n)
    decreases n
  {
    if n > 0 {
      OjmapsPrefix(inners, m, n - 1);
    }
  }

  lemma PlacedExtend(inners: seq<InnerLoad>, i: nat, headSz: nat, chunks: seq<Chunk>, usage: nat, c: Chunk, usage': nat)
    requires i < |inners| && |chunks| == i
    requires Placed(inners[..i], headSz, chunks, usage)
    requires i == 0 ==> usage == StromAlign(headSz)
    requires ChunkFlags(c, inners[i]) && c.chunkOffset == usage && c.chunkOffset + inners[i].length <= usage'
    requires KeepsInner(inners[i].joinType) ==> c.ojmapOffset == OjmapsUsage(inners, i)
    ensures Placed(inners[..i + 1], headSz, chunks + [c], usage')
  {
    var p := inners[..i + 1];
    assert inners[..i] == p[..i];
    forall j | 0 <= j <= i + 1 ensures OjmapsUsage(p, j) == OjmapsUsage(inners, j) {
      OjmapsPrefix(inners, i + 1, j);
    }
    forall j | 0 <= j <= i ensures OjmapsUsage(inners[..i], j) == OjmapsUsage(inners, j) {
      OjmapsPrefix(inners, i, j);
    }
  }

  /** One turn of the loading loop: the depth's entry and the advanced segment and map usage. */
  method PlaceChunk(l: InnerLoad, usage: nat, ojmaps: nat) returns (c: Chunk, usage': nat, ojmaps': nat)
    ensures ChunkFlags(c, l) && c.chunkOffset == usage
    ensures c.chunkOffset + l.length <= usage'
    ensures ojmaps' == ojmaps + (if KeepsInner(l.joinType) then StromAlign(l.nitems) else 0)
    ensures KeepsInner(l.joinType) ==> c.ojmapOffset == ojmaps
  {
    c := Chunk(usage, !l.hasOuterHashKeys, false, false, 0);
    ojmaps' := ojmaps;
    if KeepsInner(l.joinType) {
      c := c.(rightOuter := true, ojmapOffset := ojmaps);
      ojmaps' := ojmaps + StromAlign(l.nitems);
    }
    if KeepsOuter(l.joinType) {
      c := c.(leftOuter := true);
    }
    usage' := usage + StromAlign(l.length);
  }

  /** The backwards scan that looks for an empty depth below which only inner joins remain. */
  method EmptyShortcut(inners: seq<InnerLoad>) returns (empty: bool)
    ensures empty <==> NothingToJoin(inners)
  {
    var i := |inners|;
    while i > 0
      invariant 0 <= i <= |inners|
      invariant forall j | i <= j < |inners| :: inners[j].joinType == JoinInner && inners[j].nitems > 0
    {
      if inners[i - 1].joinType != JoinInner {
        assert forall k | 0 <= k < |inners| && inners[k].nitems == 0 ::
          !(forall j | k <= j < |inners| :: inners[j].joinType == JoinInner) by {
          forall k | 0 <= k < |inners| && inners[k].nitems == 0
            ensures exists j | k <= j < |inners| :: inners[j].joinType != JoinInner
          {
            assert k <= i - 1;
            assert inners[i - 1].joinType != JoinInner;
          }
        }
        return false;
      }
      if inners[i - 1].nitems == 0 {
        return true;
      }
      i := i - 1;
    }
    assert forall k | 0 <= k < |inners| :: inners[k].nitems > 0;
    return false;
  }

  /** The outer-join maps of distinct RIGHT or FULL depths do not overlap. */
  lemma {:induction false} OjmapsDisjoint(inners: seq<InnerLoad>, i: nat, j: nat)
    requires i < j < |inners|
    ensures OjmapsUsage(inners, i + 1) <= OjmapsUsage(inners, j)
    decreases j - i
  {
    if i + 1 < j {
      OjmapsDisjoint(inners, i, j - 1);
      assert OjmapsUsage(inners, j - 1) <= OjmapsUsage(inners, j);
    }
  }

  // ---------------------------------------------------------------------
  // Sibling sharing of the inner buffer
  // ---------------------------------------------------------------------

  /*
   * gpujoin_inner_sibling_dsm maps a non-zero inner_buffer_toc_key to the
   * segment it names and the number of GpuJoin plans that hold it. A plan
   * is in one of three states: nothing loaded, loaded and holding the
   * segment, or "nothing to join" (the segment was detached at once and a
   * marker value left in its place).
   */
  datatype PlanState = NotLoaded | Holding | NoJoin

  /** The registry and, per plan, its key and state. */
  datatype Siblings = Siblings(refcnt: map<nat, nat>, plans: seq<(nat, PlanState)>)

  /** How many plans hold the segment registered under `key`. */
  function Holders(plans: seq<(nat, PlanState)>, key: nat): nat
  {
    if |plans| == 0 then 0
    else Holders(plans[..|plans| - 1], key) + (if plans[|plans| - 1] == (key, Holding) then 1 else 0)
  }

  /** Every registered key counts exactly its holders, and every held shared key is registered. */
  predicate Counted(s: Siblings)
  {
    && 0 !in s.refcnt
    && (forall key | key in s.refcnt :: s.refcnt[key] == Holders(s.plans, key) > 0)
    && (forall p | 0 <= p < |s.plans| && s.plans[p].0 != 0 && s.plans[p].1 == Holding :: s.plans[p].0 in s.refcnt)
  }

  lemma {:induction false} HoldersUpdate(plans: seq<(nat, PlanState)>, p: nat, st: PlanState, key: nat)
    requires p < |plans|
    ensures Holders(plans[p := (plans[p].0, st)], key) ==
      Holders(plans, key) - (if plans[p] == (key, Holding) then 1 else 0)
                          + (if (plans[p].0, st) == (key, Holding) then 1 else 0)
    decreases |plans|
  {
    var q := plans[p := (plans[p].0, st)];
    if p < |plans| - 1 {
      assert q[..|q| - 1] == plans[..|plans| - 1][p := (plans[p].0, st)];
      HoldersUpdate(plans[..|plans| - 1], p, st, key);
    } else {
      assert q[..|q| - 1] == plans[..|plans| - 1];
    }
  }

  lemma {:induction false} HoldersPositive(plans: seq<(nat, PlanState)>, p: nat)
    requires p < |plans| && plans[p].1 == Holding
    ensures Holders(plans, plans[p].0) > 0
    decreases |plans|
  {
    if p < |plans| - 1 {
      HoldersPositive(plans[..|plans| - 1], p);
    }
  }

  datatype PreloadOutcome = Shared | Loaded | Skipped

  /**
   * __gpujoin_inner_preload for plan `p`: a plan with a key already in the
   * registry shares that segment and counts itself; otherwise it loads its
   * own, and when the load finds nothing to join it keeps no segment.
   * After a real load a non-zero key is registered with one holder. The
   * source reports a key already present at that point as a bug; since
   * the lookup came first, that cannot happen, and the model is total.
   */
  function Preload(s: Siblings, p: nat, nothingToJoin: bool): (r: Result<(Siblings, PreloadOutcome)>)
    requires p < |s.plans| && s.plans[p].1 == NotLoaded && Counted(s)
    ensures r.Ok? && Counted(r.value.0) && |r.value.0.plans| == |s.plans|
    ensures r.value.1 == Shared <==> s.plans[p].0 != 0 && s.plans[p].0 in s.refcnt
    ensures r.value.0.plans[p].1 == (if r.value.1 == Skipped then NoJoin else Holding)
    ensures r.value.1 == Skipped <==> r.value.0.plans[p].1 == NoJoin
    ensures forall q | 0 <= q < |s.plans| && q != p :: r.value.0.plans[q] == s.plans[q]
  {
    var key := s.plans[p].0;
    HoldersUpdate(s.plans, p, Holding, key);
    if key != 0 && key in s.refcnt then
      var s2 := Siblings(s.refcnt[key := s.refcnt[key] + 1], s.plans[p := (key, Holding)]);
      assert Counted(s2) by { CountedAfterHold(s, p, s2); }
      Ok((s2, Shared))
    else if nothingToJoin then
      HoldersUpdateAll(s.plans, p, NoJoin);
      Ok((Siblings(s.refcnt, s.plans[p := (key, NoJoin)]), Skipped))
    else if key == 0 then
      HoldersUpdateAll(s.plans, p, Holding);
      Ok((Siblings(s.refcnt, s.plans[p := (key, Holding)]), Loaded))
    else
      var s2 := Siblings(s.refcnt[key := 1], s.plans[p := (key, Holding)]);
      assert Counted(s2) by { CountedAfterHold(s, p, s2); }
      Ok((s2, Loaded))
  }

  /** A plan's new state changes the holder count of its own key only. */
  lemma HoldersUpdateAll(plans: seq<(nat, PlanState)>, p: nat, st: PlanState)
    requires p < |plans|
    ensures forall key | key != plans[p].0 :: Holders(plans[p := (plans[p].0, st)], key) == Holders(plans, key)
    ensures Holders(plans[p := (plans[p].0, st)], plans[p].0) ==
      Holders(plans, plans[p].0) - (if plans[p].1 == Holding then 1 else 0) + (if st == Holding then 1 else 0)
  {
    forall key: nat ensures Holders(plans[p := (plans[p].0, st)], key) ==
      Holders(plans, key) - (if plans[p] == (key, Holding) then 1 else 0)
                          + (if (plans[p].0, st) == (key, Holding) then 1 else 0)
    {
      HoldersUpdate(plans, p, st, key);
    }
  }

  lemma CountedAfterHold(s: Siblings, p: nat, s2: Siblings)
    requires p < |s.plans| && s.plans[p].1 == NotLoaded && Counted(s) && s.plans[p].0 != 0
    requires s2.plans == s.plans[p := (s.plans[p].0, Holding)]
    requires s2.refcnt == s.refcnt[s.plans[p].0 := if s.plans[p].0 in s.refcnt then s.refcnt[s.plans[p].0] + 1 else 1]
    ensures Counted(s2)
  {
    var key := s.plans[p].0;
    HoldersUpdateAll(s.plans, p, Holding);
    if key !in s.refcnt {
      assert Holders(s.plans, key) == 0 by {
        HoldersZero(s.plans, key);
      }
    }
  }

  /** A key no plan holds has no holders. */
  lemma {:induction false} HoldersZero(plans: seq<(nat, PlanState)>, key: nat)
    requires key != 0 && forall p | 0 <= p < |plans| && plans[p].0 != 0 && plans[p].1 == Holding :: plans[p].0 != key
    ensures Holders(plans, key) == 0
    decreases |plans|
  {
    if |plans| > 0 {
      HoldersZero(plans[..|plans| - 1], key);
    }
  }

  /** What an unload did with the segment. */
  datatype UnloadOutcome = StillShared | Released(warned: bool) | Untouched

  /**
   * The detach callback: it drops the key from the registry, and warns
   * when the key is not there.
   */
  function OnDetach(refcnt: map<nat, nat>, key: nat): (r: (map<nat, nat>, bool))
    ensures key !in r.0 && r.1 == (key !in refcnt)
    ensures forall k | k != key :: (k in r.0 <==> k in refcnt) && (k in refcnt ==> r.0[k] == refcnt[k])
  {
    (refcnt - {key}, key !in refcnt)
  }

  /**
   * GpuJoinInnerUnload as written, for the leader process: a plan with a
   * key looks it up (a missing key is an error), drops its reference, and
   * only the last holder removes the key, releases the device memory and
   * detaches the segment, which runs the detach callback. The "nothing to
   * join" marker is not the null pointer, so such a plan unloads too: it
   * frees the zeroed per-device pointers and passes the marker to
   * dsm_detach as if it were a segment, which the model reports as an
   * error; with a key a sibling registered meanwhile, it first drops that
   * sibling's reference.
   */
  function UnloadAsWritten(s: Siblings, p: nat): (r: Result<(Siblings, UnloadOutcome)>)
    requires p < |s.plans|
    ensures r.Err? ==> s.plans[p].1 != NotLoaded
    ensures r.Ok? && r.value.1 != Untouched ==> r.value.0.plans == s.plans[p := (s.plans[p].0, NotLoaded)]
    ensures s.plans[p].1 == NoJoin ==> r.Err? || r.value.1 == StillShared
    ensures s.plans[p].1 == NotLoaded <==> r == Ok((s, Untouched))
  {
    var (key, st) := s.plans[p];
    var plans := s.plans[p := (key, NotLoaded)];
    if st == NotLoaded then Ok((s, Untouched))
    else if key == 0 then
      if st == NoJoin then Err("dsm_detach of the nothing-to-join marker")
      else Ok((Siblings(s.refcnt, plans), Released(false)))
    else if key !in s.refcnt then Err("Bug? sibling inner buffer is not found")
    else if s.refcnt[key] > 1 then Ok((Siblings(s.refcnt[key := s.refcnt[key] - 1], plans), StillShared))
    else if st == NoJoin then Err("dsm_detach of the nothing-to-join marker")
    else
      var removed := s.refcnt - {key};
      var (after, warned) := OnDetach(removed, key);
      Ok((Siblings(after, plans), Released(warned)))
  }

  /** A plan without a sharing key whose load found nothing to join fails at unload. */
  lemma UnloadAsWrittenFailsUnkeyed(s: Siblings, p: nat)
    requires p < |s.plans| && s.plans[p] == (0, NotLoaded) && Counted(s)
    ensures var s2 := Preload(s, p, true).value.0; UnloadAsWritten(s2, p).Err?
  {
    var s2 := Preload(s, p, true).value.0;
    assert s2.plans[p] == (0, NoJoin);
  }

  /**
   * A skipped plan whose key a sibling registered afterwards drops the
   * sibling's reference: the registry no longer counts the holders.
   */
  lemma UnloadAsWrittenMiscounts(s: Siblings, p: nat)
    requires p < |s.plans| && Counted(s) && s.plans[p].1 == NoJoin
    requires s.plans[p].0 in s.refcnt && s.refcnt[s.plans[p].0] > 1
    ensures UnloadAsWritten(s, p).Ok? && !Counted(UnloadAsWritten(s, p).value.0)
  {
    var key := s.plans[p].0;
    var s2 := UnloadAsWritten(s, p).value.0;
    HoldersUpdateAll(s.plans, p, NotLoaded);
    assert s2.refcnt[key] == Holders(s2.plans, key) - 1;
  }

  /** The last holder of a shared segment always sees the detach callback's "not tracked" warning. */
  lemma UnloadAsWrittenWarns(s: Siblings, p: nat)
    requires p < |s.plans| && Counted(s)
    requires s.plans[p].0 != 0 && s.plans[p].1 == Holding && Holders(s.plans, s.plans[p].0) == 1
    ensures UnloadAsWritten(s, p) == Ok((Siblings(s.refcnt - {s.plans[p].0}, s.plans[p := (s.plans[p].0, NotLoaded)]), Released(true)))
  {
    var key := s.plans[p].0;
    assert key in s.refcnt && s.refcnt[key] == 1;
    assert (s.refcnt - {key}) - {key} == s.refcnt - {key};
  }

  /** A plan with a key whose load found nothing to join fails at unload. */
  lemma UnloadAsWrittenFailsAfterSkip(s: Siblings, p: nat)
    requires p < |s.plans| && s.plans[p].1 == NotLoaded && Counted(s)
    requires s.plans[p].0 != 0 && s.plans[p].0 !in s.refcnt
    ensures var s2 := Preload(s, p, true).value.0; UnloadAsWritten(s2, p).Err?
  {
    var key := s.plans[p].0;
    var s2 := Preload(s, p, true).value.0;
    assert s2.refcnt == s.refcnt;
  }

  /**
   * GpuJoinInnerUnload with the two slips corrected: a plan that kept no
   * segment has nothing to unload, and the registry entry of the last
   * holder is left for the detach callback to remove.
   */
  function Unload(s: Siblings, p: nat): (r: Result<(Siblings, UnloadOutcome)>)
    requires p < |s.plans| && Counted(s)
    ensures r.Ok? && Counted(r.value.0)
    ensures r.value.0.plans == s.plans[p := (s.plans[p].0, NotLoaded)]
    ensures r.value.1 == (if s.plans[p].1 != Holding then Untouched
                          else if s.plans[p].0 != 0 && Holders(s.plans, s.plans[p].0) > 1 then StillShared
                          else Released(false))
  {
    var (key, st) := s.plans[p];
    var plans := s.plans[p := (key, NotLoaded)];
    HoldersUpdateAll(s.plans, p, NotLoaded);
    if st != Holding then
      Ok((Siblings(s.refcnt, plans), Untouched))
    else if key == 0 then Ok((Siblings(s.refcnt, plans), Released(false)))
    else
      HoldersPositive(s.plans, p);
      if s.refcnt[key] > 1 then Ok((Siblings(s.refcnt[key := s.refcnt[key] - 1], plans), StillShared))
      else
        var (after, warned) := OnDetach(s.refcnt, key);
        assert forall q | 0 <= q < |plans| && plans[q].1 == Holding :: plans[q].0 != key by {
          forall q | 0 <= q < |plans| && plans[q].1 == Holding ensures plans[q].0 != key {
            HoldersPositive(plans, q);
          }
        }
        Ok((Siblings(after, plans), Released(warned)))
  }
}
