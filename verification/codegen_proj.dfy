/**
 * Scan quals, projection, and the packed join-qual and hash-key builders
 * (src/codegen.c:1507-1904).
 */
module CodegenProj {
  import opened Wrappers
  import opened DevCatalog
  import opened CodegenExpr
  import opened PackIndex

  // ---------------------------------------------------------------------
  // Scan quals
  // ---------------------------------------------------------------------

  /** codegen_build_scan_quals: nothing for no qual, the qual itself for one, their AND for several. */
  function ScanQuals(env: Env, ctx: Ctx, quals: seq<Expr>): (r: Result<Option<(Ctx, XNode)>>)
    ensures quals == [] ==> r == Ok(None)
    ensures quals != [] && r.Ok? ==> (r.value.Some? && Evolves(ctx, r.value.value.0)
      && Stamped(r.value.value.1, ctx.flags))
  {
    if quals == [] then Ok(None)
    else
      var e := if |quals| == 1 then quals[0] else BoolExpr(AndExpr, quals);
      var (c1, x) :- Walk(env, ctx, e);
      Ok(Some((c1, x)))
  }

  /** Several quals become one AND node with a child per qual, and fail exactly when one of them fails. */
  lemma ScanQualsConjunction(env: Env, ctx: Ctx, quals: seq<Expr>)
    requires |quals| >= 2 && FindInput(ctx.inputs, BoolExpr(AndExpr, quals)).None?
    ensures ScanQuals(env, ctx, quals).Ok? <==> WalkAll(env, ctx, quals).Ok?
    ensures ScanQuals(env, ctx, quals).Ok? ==>
      var x := ScanQuals(env, ctx, quals).value.value.1;
      x.exptype == "bool" && x.opcode == BoolAnd && |x.args| == |quals|
  {
    var e := BoolExpr(AndExpr, quals);
    assert MatchInput(env, ctx, e) == Ok(None);
    assert Walk(env, ctx, e) == WalkBool(env, ctx, AndExpr, quals);
  }

  // ---------------------------------------------------------------------
  // Projection (src/codegen.c:1537-1704)
  // ---------------------------------------------------------------------

  /** A synthetic slot (negative depth) whose device target-list entry is `e`. */
  predicate Reusable(tlist: seq<TargetEntry>, s: Slot, e: Expr)
  {
    s.depth < 0 && 0 < s.resno <= |tlist| && tlist[s.resno - 1].expr == e
  }

  /**
   * The reuse loop of __try_inject_projection_expression as written: the
   * slot id it reports starts at `slotId` and is never advanced, so a
   * reusable slot anywhere is reported under the starting id.
   */
  function ReuseAsWritten(kvars: seq<Slot>, tlist: seq<TargetEntry>, e: Expr, i: nat, slotId: int): (r: Option<int>)
    requires i <= |kvars|
    decreases |kvars| - i
    ensures r.Some? <==> exists j | i <= j < |kvars| :: Reusable(tlist, kvars[j], e)
    ensures r.Some? ==> r.value == slotId
  {
    if i == |kvars| then None
    else if Reusable(tlist, kvars[i], e) then Some(slotId)
    else ReuseAsWritten(kvars, tlist, e, i + 1, slotId)
  }

  /** The reuse loop with the slot id advanced on every slot: the first reusable slot from `i` on. */
  function Reuse(kvars: seq<Slot>, tlist: seq<TargetEntry>, e: Expr, i: nat): (r: Option<nat>)
    requires i <= |kvars|
    decreases |kvars| - i
    ensures r.None? <==> forall j | i <= j < |kvars| :: !Reusable(tlist, kvars[j], e)
    ensures r.Some? ==> (i <= r.value < |kvars| && Reusable(tlist, kvars[r.value], e)
      && forall j | i <= j < r.value :: !Reusable(tlist, kvars[j], e))
  {
    if i == |kvars| then None
    else if Reusable(tlist, kvars[i], e) then Some(i)
    else Reuse(kvars, tlist, e, i + 1)
  }

  /**
   * A plan whose first slot is a scanned column and whose second slot
   * holds a computed target: the loop as written reports slot 0, the
   * column, where the intended answer is slot 1.
   */
  lemma ReuseAsWrittenMisreports()
    ensures var e := OpExpr(1, [Var(1, 1, 23, 0), Var(1, 1, 23, 0)], 0, 23);
      var kvars := [Slot(0, 1, InvalidOid), Slot(-1, 1, InvalidOid)];
      var tlist := [TargetEntry(e, 1, false)];
      && ReuseAsWritten(kvars, tlist, e, 0, 0) == Some(0)
      && !Reusable(tlist, kvars[0], e)
      && Reuse(kvars, tlist, e, 0) == Some(1)
  {
    var e := OpExpr(1, [Var(1, 1, 23, 0), Var(1, 1, 23, 0)], 0, 23);
    var kvars := [Slot(0, 1, InvalidOid), Slot(-1, 1, InvalidOid)];
    var tlist := [TargetEntry(e, 1, false)];
    assert !Reusable(tlist, kvars[0], e) && Reusable(tlist, kvars[1], e);
  }

  /** The first target-list entry whose expression is `e`. */
  function TlistFind(tlist: seq<TargetEntry>, e: Expr): (r: Option<nat>)
    ensures r.None? <==> forall j | 0 <= j < |tlist| :: tlist[j].expr != e
    ensures r.Some? ==> (r.value < |tlist| && tlist[r.value].expr == e
      && forall j | 0 <= j < r.value :: tlist[j].expr != e)
  {
    if tlist == [] then None
    else if tlist[0].expr == e then Some(0)
    else
      match TlistFind(tlist[1..], e)
      case None => None
      case Some(k) =>
        assert forall j | 1 <= j <= k :: tlist[j] == tlist[1..][j - 1];
        Some(k + 1)
  }

  /** Entry j of the device target list has column number j + 1, as the planner builds it. */
  predicate TlistNumbered(tlist: seq<TargetEntry>)
  {
    forall j | 0 <= j < |tlist| :: tlist[j].resno == j + 1
  }

  /**
   * Slot `id` provides the value of `e`: it is the slot of the input
   * column `e` references, or a synthetic slot of `e`'s target-list entry.
   */
  predicate Holds(ctx: Ctx, id: nat, e: Expr)
  {
    id < |ctx.kvars|
    && ((FindInput(ctx.inputs, e).Some?
         && SlotIs(ctx.kvars[id], FindInput(ctx.inputs, e).value.0, FindInput(ctx.inputs, e).value.1))
        || Reusable(ctx.tlist, ctx.kvars[id], e))
  }

  lemma HoldsMono(c1: Ctx, c2: Ctx, id: nat, e: Expr)
    requires Evolves(c1, c2) && Holds(c1, id, e)
    ensures Holds(c2, id, e)
  {
    assert c2.kvars[id] == c1.kvars[id];
  }

  /** The outcome of an injection: the context after it, the slot (-1: not found) and the SaveExpr node of a new slot. */
  datatype Injected = Injected(ctx: Ctx, slot: int, save: Option<XNode>)

  /**
   * The last step of __try_inject_projection_expression: a new synthetic
   * slot for target-list entry `k`, filled by a SaveExpr node wrapping the
   * code of `e`.
   */
  function InjectNew(env: Env, ctx: Ctx, e: Expr, k: nat): (r: Result<Injected>)
    requires k < |ctx.tlist|
    ensures r.Ok? ==> r.value.save.Some?
    ensures r.Ok? && r.value.save.Some? ==>
      var x := r.value.save.value;
      && Evolves(ctx, r.value.ctx) && r.value.slot == |ctx.kvars| < |r.value.ctx.kvars|
      && r.value.ctx.kvars[r.value.slot] == Slot(-1, ctx.tlist[k].resno, InvalidOid)
      && x.opcode == SaveExpr && x.info == SaveInfo(r.value.slot) && |x.args| == 1 && Stamped(x, ctx.flags)
  {
    var id := |ctx.kvars|;
    var c1 := ctx.(kvars := ctx.kvars + [Slot(-1, ctx.tlist[k].resno, InvalidOid)]);
    var d :- TypeOf(env, ExprType(e));
    if d.None? then Err("type is not device supported")
    else
      var (c2, x) :- Walk(env, c1, e);
      assert c2.kvars[id] == c1.kvars[id];
      Ok(Injected(c2, id, Some(XNode(d.value.code, SaveExpr, ctx.flags, SaveInfo(id), [x]))))
  }

  /**
   * __try_inject_projection_expression (nothing written for a slot that
   * already exists): an input column, else a reusable synthetic slot,
   * else, when `e` is on the target list, a new synthetic slot; else -1.
   */
  function InjectProjection(env: Env, ctx: Ctx, e: Expr): (r: Result<Injected>)
    ensures r.Ok? ==> Evolves(ctx, r.value.ctx) && -1 <= r.value.slot
    ensures r.Ok? ==> (r.value.slot == -1 <==>
      FindInput(ctx.inputs, e).None? && Reuse(ctx.kvars, ctx.tlist, e, 0).None? && TlistFind(ctx.tlist, e).None?)
    ensures r.Ok? && r.value.slot == -1 ==> r.value.ctx == ctx && r.value.save.None?
    ensures r.Ok? && r.value.save.None? && r.value.slot >= 0 ==> r.value.slot < |r.value.ctx.kvars|
    ensures r.Ok? && r.value.save.Some? ==>
      var x := r.value.save.value;
      && r.value.slot == |ctx.kvars| < |r.value.ctx.kvars|
      && r.value.ctx.kvars[r.value.slot].depth == -1 && r.value.ctx.kvars[r.value.slot].typ == InvalidOid
      && x.opcode == SaveExpr && x.info == SaveInfo(r.value.slot) && |x.args| == 1 && Stamped(x, ctx.flags)
  {
    var m :- MatchInput(env, ctx, e);
    if m.Some? then Ok(Injected(m.value.0, m.value.1, None))
    else
      match Reuse(ctx.kvars, ctx.tlist, e, 0)
      case Some(k) => Ok(Injected(ctx, k, None))
      case None =>
        match TlistFind(ctx.tlist, e)
        case None => Ok(Injected(ctx, -1, None))
        case Some(k) => InjectNew(env, ctx, e, k)
  }

  /** The slot an injection reports provides the value of the expression. */
  lemma InjectProjectionHolds(env: Env, ctx: Ctx, e: Expr)
    requires TlistNumbered(ctx.tlist)
    ensures var r := InjectProjection(env, ctx, e);
      r.Ok? && r.value.slot >= 0 ==> Holds(r.value.ctx, r.value.slot, e)
  {
    var r := InjectProjection(env, ctx, e);
    if r.Ok? && r.value.slot >= 0 {
      var m := MatchInput(env, ctx, e).value;
      if m.None? && Reuse(ctx.kvars, ctx.tlist, e, 0).None? {
        var k := TlistFind(ctx.tlist, e).value;
        assert r == InjectNew(env, ctx, e, k);
      }
    }
  }

  /**
   * Injecting the same expression again finds the slot the first
   * injection reported and changes nothing.
   */
  lemma InjectProjectionIdempotent(env: Env, ctx: Ctx, e: Expr)
    requires TlistNumbered(ctx.tlist) && InputSlotsUnique(ctx.kvars)
    requires InjectProjection(env, ctx, e).Ok? && InjectProjection(env, ctx, e).value.slot >= 0
    ensures var c2 := InjectProjection(env, ctx, e).value.ctx;
      InjectProjection(env, c2, e) == Ok(Injected(c2, InjectProjection(env, ctx, e).value.slot, None))
  {
    var m := MatchInput(env, ctx, e).value;
    if m.Some? {
      MatchInputIdempotent(env, ctx, e);
    } else if Reuse(ctx.kvars, ctx.tlist, e, 0).None? {
      InjectedSlotReused(env, ctx, e);
    }
  }

  /** After a new synthetic slot is added for `e`, it is the first slot reusable for `e`. */
  lemma InjectedSlotReused(env: Env, ctx: Ctx, e: Expr)
    requires TlistNumbered(ctx.tlist)
    requires FindInput(ctx.inputs, e).None? && Reuse(ctx.kvars, ctx.tlist, e, 0).None?
    requires InjectProjection(env, ctx, e).Ok? && InjectProjection(env, ctx, e).value.slot >= 0
    ensures var r := InjectProjection(env, ctx, e).value;
      Reuse(r.ctx.kvars, r.ctx.tlist, e, 0) == Some(r.slot)
  {
    var r := InjectProjection(env, ctx, e).value;
    var k := TlistFind(ctx.tlist, e).value;
    assert r == InjectNew(env, ctx, e, k).value;
    assert Reusable(r.ctx.tlist, r.ctx.kvars[r.slot], e);
    forall j | 0 <= j < r.slot ensures !Reusable(r.ctx.tlist, r.ctx.kvars[j], e) {
      assert r.ctx.kvars[j] == ctx.kvars[j];
    }
    var v := Reuse(r.ctx.kvars, r.ctx.tlist, e, 0);
    assert v.Some?;
    assert v.value == r.slot;
  }

  /** Matching an input reference twice reports the same slot and adds nothing the second time. */
  lemma MatchInputIdempotent(env: Env, ctx: Ctx, e: Expr)
    requires InputSlotsUnique(ctx.kvars)
    requires MatchInput(env, ctx, e).Ok? && MatchInput(env, ctx, e).value.Some?
    ensures var (c2, id) := MatchInput(env, ctx, e).value.value;
      MatchInput(env, c2, e) == Ok(Some((c2, id)))
  {
    var (c2, id) := MatchInput(env, ctx, e).value.value;
    var (depth, resno) := FindInput(ctx.inputs, e).value;
    var d := TypeOf(env, ExprType(e)).value;
    SlotForUnique(ctx.kvars, depth, resno, SlotType(d));
    SlotForUnique(c2.kvars, depth, resno, SlotType(d));
  }

  /** No valid target-list entry follows a junk one. */
  predicate JunkLast(tl: seq<TargetEntry>)
  {
    forall i, j | 0 <= i < j < |tl| && tl[i].resjunk :: tl[j].resjunk
  }

  /**
   * One valid entry of codegen_build_projection: the slot of its
   * expression, which must be found, and the SaveExpr node of a new slot.
   */
  method ProjectEntry(env: Env, ctx: Ctx, e: Expr) returns (r: Result<(Ctx, nat, seq<XNode>)>)
    ensures r.Ok? ==> (Evolves(ctx, r.value.0) && |r.value.2| <= 1 && r.value.1 < |r.value.0.kvars|
      && forall k | 0 <= k < |r.value.2| :: r.value.2[k].opcode == SaveExpr && Stamped(r.value.2[k], ctx.flags))
    ensures r.Ok? && TlistNumbered(ctx.tlist) ==> Holds(r.value.0, r.value.1, e)
    ensures FindInput(ctx.inputs, e).None? && Reuse(ctx.kvars, ctx.tlist, e, 0).None? && TlistFind(ctx.tlist, e).None? ==> r.Err?
  {
    var inj := InjectProjection(env, ctx, e);
    if inj.Err? {
      return Err(inj.msg);
    }
    if inj.value.slot < 0 {
      return Err("expression is missing on tlist_dev");
    }
    var d := TypeOf(env, ExprType(e));
    if d.Err? {
      return Err(d.msg);
    }
    if d.value.None? {
      return Err("type is not device supported");
    }
    if TlistNumbered(ctx.tlist) {
      InjectProjectionHolds(env, ctx, e);
    }
    var saves := if inj.value.save.Some? then [inj.value.save.value] else [];
    r := Ok((inj.value.ctx, inj.value.slot as nat, saves));
  }

  /**
   * The loop of codegen_build_projection over the entries `tl`: junk
   * entries are skipped, a valid entry after a junk one is an error, and
   * every valid entry gets the slot of its expression, which, under a
   * numbered target list, provides the entry's value.
   */
  method ProjectEntries(env: Env, ctx: Ctx, tl: seq<TargetEntry>, junk: bool) returns (r: Result<(Ctx, seq<nat>, seq<XNode>)>)
    decreases |tl|
    ensures r.Ok? ==> Evolves(ctx, r.value.0) && JunkLast(tl)
    ensures r.Ok? ==> (|r.value.1| <= |tl| && (junk ==> r.value.1 == [])
      && (forall k | 0 <= k < |r.value.1| :: !tl[k].resjunk)
      && (forall k | |r.value.1| <= k < |tl| :: tl[k].resjunk))
    ensures r.Ok? ==> forall k | 0 <= k < |r.value.2| :: r.value.2[k].opcode == SaveExpr && Stamped(r.value.2[k], ctx.flags)
    ensures r.Ok? && TlistNumbered(ctx.tlist) ==>
      forall k | 0 <= k < |r.value.1| :: Holds(r.value.0, r.value.1[k], tl[k].expr)
  {
    if tl == [] {
      return Ok((ctx, [], []));
    }
    if tl[0].resjunk {
      r := ProjectEntries(env, ctx, tl[1..], true);
      if r.Ok? {
        JunkHead(tl);
      }
      return;
    }
    if junk {
      return Err("a valid TLE after junk TLEs");
    }
    var one := ProjectEntry(env, ctx, tl[0].expr);
    if one.Err? {
      return Err(one.msg);
    }
    var (c1, slot, mine) := one.value;
    var rest := ProjectEntries(env, c1, tl[1..], false);
    if rest.Err? {
      return Err(rest.msg);
    }
    var (c2, slots, saves) := rest.value;
    ValidHead(tl, |slots|);
    SavesJoin(mine, saves, ctx.flags);
    if TlistNumbered(ctx.tlist) {
      HoldsMono(c1, c2, slot, tl[0].expr);
      HoldsCons(c2, slot, slots, tl);
    }
    r := Ok((c2, [slot] + slots, mine + saves));
  }

  /** A junk entry in front of junk entries. */
  lemma JunkHead(tl: seq<TargetEntry>)
    requires |tl| > 0 && tl[0].resjunk && forall k | 0 <= k < |tl| - 1 :: tl[1..][k].resjunk
    ensures JunkLast(tl) && forall k | 0 <= k < |tl| :: tl[k].resjunk
  {
    assert forall k | 1 <= k < |tl| :: tl[k] == tl[1..][k - 1];
  }

  /** A valid entry in front of entries whose first `n` are the valid ones. */
  lemma ValidHead(tl: seq<TargetEntry>, n: nat)
    requires |tl| > 0 && !tl[0].resjunk && JunkLast(tl[1..]) && n <= |tl| - 1
    requires forall k | 0 <= k < n :: !tl[1..][k].resjunk
    requires forall k | n <= k < |tl| - 1 :: tl[1..][k].resjunk
    ensures JunkLast(tl) && n + 1 <= |tl|
    ensures forall k | 0 <= k < n + 1 :: !tl[k].resjunk
    ensures forall k | n + 1 <= k < |tl| :: tl[k].resjunk
  {
    assert forall k | 1 <= k < |tl| :: tl[k] == tl[1..][k - 1];
  }

  lemma SavesJoin(mine: seq<XNode>, saves: seq<XNode>, flags: bv32)
    requires forall k | 0 <= k < |mine| :: mine[k].opcode == SaveExpr && Stamped(mine[k], flags)
    requires forall k | 0 <= k < |saves| :: saves[k].opcode == SaveExpr && Stamped(saves[k], flags)
    ensures forall k | 0 <= k < |mine + saves| :: (mine + saves)[k].opcode == SaveExpr && Stamped((mine + saves)[k], flags)
  {
    forall k | 0 <= k < |mine + saves|
      ensures (mine + saves)[k].opcode == SaveExpr && Stamped((mine + saves)[k], flags)
    {
      if k >= |mine| {
        assert (mine + saves)[k] == saves[k - |mine|];
      }
    }
  }

  lemma HoldsCons(c: Ctx, slot: nat, slots: seq<nat>, tl: seq<TargetEntry>)
    requires |tl| > 0 && |slots| < |tl| && Holds(c, slot, tl[0].expr)
    requires forall k | 0 <= k < |slots| :: Holds(c, slots[k], tl[1..][k].expr)
    ensures forall k | 0 <= k < |[slot] + slots| :: Holds(c, ([slot] + slots)[k], tl[k].expr)
  {
    forall k | 0 <= k < |[slot] + slots|
      ensures Holds(c, ([slot] + slots)[k], tl[k].expr)
    {
      if k > 0 {
        assert tl[k] == tl[1..][k - 1];
      }
    }
  }

  /**
   * codegen_build_projection: one slot per valid entry, in order, with the
   * SaveExpr nodes of the new slots as children. The target list must keep
   * its junk entries last; under a numbered target list each slot provides
   * its entry's value.
   */
  method BuildProjection(env: Env, ctx: Ctx) returns (r: Result<(Ctx, XNode)>)
    ensures r.Ok? ==> (Evolves(ctx, r.value.0) && r.value.1.opcode == Projection && r.value.1.info.ProjInfo?
      && r.value.1.flags == ctx.flags
      && forall k | 0 <= k < |r.value.1.args| :: r.value.1.args[k].opcode == SaveExpr)
    ensures r.Ok? ==> (JunkLast(ctx.tlist) && r.value.1.info.ProjInfo?
        && var slots := r.value.1.info.slots;
        && |slots| <= |ctx.tlist|
        && (forall k | 0 <= k < |ctx.tlist| :: !ctx.tlist[k].resjunk <==> k < |slots|))
    ensures r.Ok? && TlistNumbered(ctx.tlist) ==> (r.value.1.info.ProjInfo? &&
        forall k | 0 <= k < |r.value.1.info.slots| :: Holds(r.value.0, r.value.1.info.slots[k], ctx.tlist[k].expr))
  {
    var entries := ProjectEntries(env, ctx, ctx.tlist, false);
    if entries.Err? {
      return Err(entries.msg);
    }
    var (c2, slots, saves) := entries.value;
    r := Ok((c2, XNode("int4", Projection, ctx.flags, ProjInfo(slots), saves)));
  }

  // ---------------------------------------------------------------------
  // Join quals (src/codegen.c:1709-1821)
  // ---------------------------------------------------------------------

  /** Walks join quals in order; every one must be of type bool. */
  method WalkQuals(env: Env, ctx: Ctx, qs: seq<Expr>) returns (r: Result<(Ctx, seq<XNode>)>)
    ensures r.Ok? ==> (Evolves(ctx, r.value.0) && |r.value.1| == |qs|
      && forall k | 0 <= k < |qs| :: Stamped(r.value.1[k], ctx.flags))
    ensures (exists k | 0 <= k < |qs| :: ExprType(qs[k]) != BOOLOID) ==> r.Err?
  {
    var c := ctx;
    var xs: seq<XNode> := [];
    for i := 0 to |qs|
      invariant Evolves(ctx, c) && |xs| == i
      invariant forall k | 0 <= k < i :: Stamped(xs[k], ctx.flags) && ExprType(qs[k]) == BOOLOID
    {
      if ExprType(qs[i]) != BOOLOID {
        return Err("JOIN quals must be boolean");
      }
      var w :- WalkExpr(env, c, qs[i]);
      c, xs := w.0, xs + [w.1];
    }
    return Ok((c, xs));
  }

  /**
   * __codegen_build_joinquals: nothing when both lists are empty; else a
   * JoinQuals node whose children are the join quals, then the other
   * quals generated with the pushed-down flag set, after which the flags
   * are restored.
   */
  method BuildJoinQuals(env: Env, ctx: Ctx, jq: seq<Expr>, oq: seq<Expr>) returns (r: Result<(Ctx, Option<XNode>)>)
    ensures jq == [] && oq == [] ==> r == Ok((ctx, None))
    ensures r.Ok? ==> (Evolves(ctx, r.value.0) && (r.value.1.None? <==> jq == [] && oq == []))
    ensures r.Ok? && r.value.1.Some? ==>
      var x := r.value.1.value;
      && x.exptype == "bool" && x.opcode == JoinQuals && x.flags == ctx.flags && |x.args| == |jq| + |oq|
      && (forall k | 0 <= k < |jq| :: Stamped(x.args[k], ctx.flags))
      && (forall k | |jq| <= k < |x.args| :: Stamped(x.args[k], ctx.flags | KEXP_FLAG__IS_PUSHED_DOWN))
    ensures r.Ok? && r.value.1.Some? && ctx.flags & KEXP_FLAG__IS_PUSHED_DOWN == 0 ==>
      var x := r.value.1.value;
      forall k | 0 <= k < |x.args| :: (x.args[k].flags & KEXP_FLAG__IS_PUSHED_DOWN != 0 <==> k >= |jq|)
  {
    if jq == [] && oq == [] {
      return Ok((ctx, None));
    }
    var w :- JoinQualsNode(env, ctx, jq, oq);
    return Ok((w.0, Some(w.1)));
  }

  /** The JoinQuals node of __codegen_build_joinquals when some qual is present. */
  method JoinQualsNode(env: Env, ctx: Ctx, jq: seq<Expr>, oq: seq<Expr>) returns (r: Result<(Ctx, XNode)>)
    ensures r.Ok? ==> Evolves(ctx, r.value.0)
    ensures r.Ok? ==>
      var x := r.value.1;
      && x.exptype == "bool" && x.opcode == JoinQuals && x.flags == ctx.flags && |x.args| == |jq| + |oq|
      && (forall k | 0 <= k < |jq| :: Stamped(x.args[k], ctx.flags))
      && (forall k | |jq| <= k < |x.args| :: Stamped(x.args[k], ctx.flags | KEXP_FLAG__IS_PUSHED_DOWN))
    ensures r.Ok? && ctx.flags & KEXP_FLAG__IS_PUSHED_DOWN == 0 ==>
      var x := r.value.1;
      forall k | 0 <= k < |x.args| :: (x.args[k].flags & KEXP_FLAG__IS_PUSHED_DOWN != 0 <==> k >= |jq|)
  {
    var pushed := ctx.flags | KEXP_FLAG__IS_PUSHED_DOWN;
    var wj :- WalkQuals(env, ctx, jq);
    var (c1, jx) := wj;
    var wo :- WalkQuals(env, c1.(flags := pushed), oq);
    var (c2, ox) := wo;
    var args := jx + ox;
    StampedConcat(jx, ox, ctx.flags, pushed);
    if ctx.flags & KEXP_FLAG__IS_PUSHED_DOWN == 0 {
      PushedDownSplit(args, |jq|, ctx.flags);
    }
    EvolvesUnderFlags(ctx, c1, c2, pushed);
    return Ok((c2.(flags := ctx.flags), XNode("bool", JoinQuals, ctx.flags, NoInfo, args)));
  }

  /** Generating under other flags, then restoring them, still evolves the context. */
  lemma EvolvesUnderFlags(c0: Ctx, c1: Ctx, c2: Ctx, f: bv32)
    requires Evolves(c0, c1) && Evolves(c1.(flags := f), c2)
    ensures Evolves(c0, c2.(flags := c0.flags))
  {
  }

  lemma StampedConcat(xs: seq<XNode>, ys: seq<XNode>, f: bv32, g: bv32)
    requires forall k | 0 <= k < |xs| :: Stamped(xs[k], f)
    requires forall k | 0 <= k < |ys| :: Stamped(ys[k], g)
    ensures forall k | 0 <= k < |xs| :: Stamped((xs + ys)[k], f)
    ensures forall k | |xs| <= k < |xs + ys| :: Stamped((xs + ys)[k], g)
  {
    forall k | |xs| <= k < |xs + ys| ensures Stamped((xs + ys)[k], g) {
      assert (xs + ys)[k] == ys[k - |xs|];
    }
  }

  /** Without the pushed-down bit in `f`, the nodes stamped with it set are exactly those from `n` on. */
  lemma PushedDownSplit(xs: seq<XNode>, n: nat, f: bv32)
    requires f & KEXP_FLAG__IS_PUSHED_DOWN == 0 && n <= |xs|
    requires forall k | 0 <= k < n :: Stamped(xs[k], f)
    requires forall k | n <= k < |xs| :: Stamped(xs[k], f | KEXP_FLAG__IS_PUSHED_DOWN)
    ensures forall k | 0 <= k < |xs| :: (xs[k].flags & KEXP_FLAG__IS_PUSHED_DOWN != 0 <==> k >= n)
  {
    assert (f | KEXP_FLAG__IS_PUSHED_DOWN) & KEXP_FLAG__IS_PUSHED_DOWN != 0;
  }

  // ---------------------------------------------------------------------
  // Packed nodes (src/codegen.c:1766-1904)
  // ---------------------------------------------------------------------

  /** A Packed node over per-depth parts, or nothing when no part is present. */
  function Pack(flags: bv32, parts: seq<Option<XNode>>): (r: Option<XNode>)
    ensures r.None? <==> forall j | 0 <= j < |parts| :: parts[j].None?
    ensures r.Some? ==> (r.value.opcode == Packed && r.value.info.PackInfo? && r.value.info.npacked == |parts|
      && |r.value.info.present| == |r.value.args|
      && (forall k, l | 0 <= k < l < |r.value.args| :: r.value.info.present[k] < r.value.info.present[l])
      && (forall j {:trigger j in r.value.info.present} | 0 <= j < |parts| :: parts[j].Some? <==> j in r.value.info.present)
      && forall k | 0 <= k < |r.value.args| ::
           r.value.info.present[k] < |parts| && parts[r.value.info.present[k]] == Some(r.value.args[k]))
  {
    var idx := Present(parts, 0);
    PresentSorted(parts, 0);
    PresentAll(parts, 0);
    if idx == [] then
      assert forall j | 0 <= j < |parts| :: parts[j].None? by {
        forall j | 0 <= j < |parts| ensures parts[j].None? {
          assert j !in idx;
        }
      }
      None
    else
      assert idx[0] in idx;
      Some(XNode("int4", Packed, flags, PackInfo(|parts|, idx), seq(|idx|, k requires 0 <= k < |idx| => parts[idx[k]].value)))
  }

  /** The JoinQuals node of every depth, in depth order. */
  method JoinQualsEach(env: Env, ctx: Ctx, sj: seq<seq<Expr>>, so: seq<seq<Expr>>) returns (r: Result<(Ctx, seq<Option<XNode>>)>)
    requires |sj| == |so|
    ensures r.Ok? ==> (Evolves(ctx, r.value.0) && |r.value.1| == |sj|
      && (forall i | 0 <= i < |sj| :: r.value.1[i].None? <==> sj[i] == [] && so[i] == [])
      && forall i | 0 <= i < |sj| :: r.value.1[i].Some? ==> r.value.1[i].value.opcode == JoinQuals)
  {
    var c := ctx;
    var parts: seq<Option<XNode>> := [];
    for i := 0 to |sj|
      invariant Evolves(ctx, c) && |parts| == i
      invariant forall j | 0 <= j < i :: parts[j].None? <==> sj[j] == [] && so[j] == []
      invariant forall j | 0 <= j < i :: parts[j].Some? ==> parts[j].value.opcode == JoinQuals
    {
      var b :- BuildJoinQuals(env, c, sj[i], so[i]);
      c, parts := b.0, parts + [b.1];
    }
    return Ok((c, parts));
  }

  /**
   * codegen_build_packed_joinquals: one entry per depth, present when
   * that depth has any join or other qual; nothing at all when no depth
   * has one.
   */
  method PackedJoinQuals(env: Env, ctx: Ctx, sj: seq<seq<Expr>>, so: seq<seq<Expr>>) returns (r: Result<(Ctx, Option<XNode>)>)
    requires |sj| == |so|
    ensures r.Ok? ==> (Evolves(ctx, r.value.0)
      && (r.value.1.None? <==> forall i | 0 <= i < |sj| :: sj[i] == [] && so[i] == []))
    ensures r.Ok? && r.value.1.Some? ==>
      var x := r.value.1.value;
      && x.opcode == Packed && x.info.PackInfo? && x.info.npacked == |sj|
      && (forall i {:trigger i in x.info.present} | 0 <= i < |sj| :: (sj[i] != [] || so[i] != []) <==> i in x.info.present)
      && forall k | 0 <= k < |x.args| :: x.args[k].opcode == JoinQuals
  {
    var each :- JoinQualsEach(env, ctx, sj, so);
    return Ok((each.0, Pack(ctx.flags, each.1)));
  }

  /** __codegen_build_hash_value: nothing for no keys, else a HashValue node with one child per key. */
  method BuildHashValue(env: Env, ctx: Ctx, keys: seq<Expr>) returns (r: Result<(Ctx, Option<XNode>)>)
    ensures r.Ok? ==> (Evolves(ctx, r.value.0) && (r.value.1.None? <==> keys == []))
    ensures r.Ok? && r.value.1.Some? ==> (r.value.1.value.opcode == HashValue
      && |r.value.1.value.args| == |keys| && Stamped(r.value.1.value, ctx.flags))
  {
    if keys == [] {
      return Ok((ctx, None));
    }
    var w :- WalkAll(env, ctx, keys);
    var (c1, xs) := w;
    return Ok((c1, Some(XNode("int4", HashValue, ctx.flags, NoInfo, xs))));
  }

  /** The HashValue node of every depth, in depth order. */
  method HashValueEach(env: Env, ctx: Ctx, sk: seq<seq<Expr>>) returns (r: Result<(Ctx, seq<Option<XNode>>)>)
    ensures r.Ok? ==> (Evolves(ctx, r.value.0) && |r.value.1| == |sk|
      && (forall i | 0 <= i < |sk| :: r.value.1[i].None? <==> sk[i] == [])
      && forall i | 0 <= i < |sk| :: r.value.1[i].Some? ==> r.value.1[i].value.opcode == HashValue)
  {
    var c := ctx;
    var parts: seq<Option<XNode>> := [];
    for i := 0 to |sk|
      invariant Evolves(ctx, c) && |parts| == i
      invariant forall j | 0 <= j < i :: parts[j].None? <==> sk[j] == []
      invariant forall j | 0 <= j < i :: parts[j].Some? ==> parts[j].value.opcode == HashValue
    {
      var b :- BuildHashValue(env, c, sk[i]);
      c, parts := b.0, parts + [b.1];
    }
    return Ok((c, parts));
  }

  /**
   * codegen_build_packed_hashkeys: one entry per depth, present when that
   * depth has hash keys; nothing at all when no depth has one.
   */
  method PackedHashKeys(env: Env, ctx: Ctx, sk: seq<seq<Expr>>) returns (r: Result<(Ctx, Option<XNode>)>)
    ensures r.Ok? ==> (Evolves(ctx, r.value.0)
      && (r.value.1.None? <==> forall i | 0 <= i < |sk| :: sk[i] == []))
    ensures r.Ok? && r.value.1.Some? ==>
      var x := r.value.1.value;
      && x.opcode == Packed && x.info.PackInfo? && x.info.npacked == |sk|
      && (forall i {:trigger i in x.info.present} | 0 <= i < |sk| :: sk[i] != [] <==> i in x.info.present)
      && forall k | 0 <= k < |x.args| :: x.args[k].opcode == HashValue
  {
    var each :- HashValueEach(env, ctx, sk);
    return Ok((each.0, Pack(ctx.flags, each.1)));
  }
}
