/**
 * Group-by code (src/codegen.c:1906-2331): the grouping-key hash, the
 * load of the keys already in the final buffer, their comparison, and
 * the partial-aggregate actions; and the check-only entry point of the
 * walker (src/codegen.c:2336-2370).
 */
module CodegenGroupby {
  import opened Wrappers
  import opened XpuOpcodes
  import opened DevCatalog
  import opened CodegenExpr
  import opened CodegenLoadVars
  import opened CodegenProj

  /** KAGG_ACTION__VREF, declared in xpu_common.h, which is not part of this model. */
  const KAGG_ACTION__VREF: int := 1

  // ---------------------------------------------------------------------
  // Slots of grouping keys (src/codegen.c:1906-2012)
  // ---------------------------------------------------------------------

  /** How many synthetic slots (negative depth) lie in kvars[i..j]. */
  function SyntheticCount(kvars: seq<Slot>, i: nat, j: nat): (r: nat)
    requires i <= j <= |kvars|
    decreases j - i
    ensures r <= j - i
  {
    if i == j then 0 else (if kvars[i].depth < 0 then 1 else 0) + SyntheticCount(kvars, i + 1, j)
  }

  /**
   * The reuse loop of __try_inject_groupby_expression as written: a slot
   * of an input relation is skipped before the slot id is advanced, so
   * the id reported counts only the synthetic slots before the one found.
   */
  function GroupbyReuseAsWritten(kvars: seq<Slot>, tlist: seq<TargetEntry>, e: Expr, i: nat, slotId: nat): (r: Option<nat>)
    requires i <= |kvars|
    decreases |kvars| - i
    ensures r.None? <==> Reuse(kvars, tlist, e, i).None?
    ensures r.Some? ==> r.value == slotId + SyntheticCount(kvars, i, Reuse(kvars, tlist, e, i).value)
  {
    if i == |kvars| then None
    else if kvars[i].depth >= 0 then GroupbyReuseAsWritten(kvars, tlist, e, i + 1, slotId)
    else if 0 < kvars[i].resno <= |tlist| && tlist[kvars[i].resno - 1].expr == e then Some(slotId)
    else GroupbyReuseAsWritten(kvars, tlist, e, i + 1, slotId + 1)
  }

  /**
   * Grouping keys `a` (a scanned column, slot 0) and `a + b` (injected,
   * slot 1): looking up `a + b` again, the loop as written reports slot 0,
   * the column, where the intended answer is slot 1.
   */
  lemma GroupbyReuseAsWrittenMisreports()
    ensures var a := Var(1, 1, 23, 0);
      var ab := OpExpr(177, [a, Var(1, 2, 23, 0)], 0, 23);
      var kvars := [Slot(0, 1, InvalidOid), Slot(-1, 2, InvalidOid)];
      var tlist := [TargetEntry(a, 1, false), TargetEntry(ab, 2, true)];
      && GroupbyReuseAsWritten(kvars, tlist, ab, 0, 0) == Some(0)
      && !Reusable(tlist, kvars[0], ab)
      && Reuse(kvars, tlist, ab, 0) == Some(1)
  {
    var a := Var(1, 1, 23, 0);
    var ab := OpExpr(177, [a, Var(1, 2, 23, 0)], 0, 23);
    var kvars := [Slot(0, 1, InvalidOid), Slot(-1, 2, InvalidOid)];
    var tlist := [TargetEntry(a, 1, false), TargetEntry(ab, 2, true)];
    assert !Reusable(tlist, kvars[0], ab) && Reusable(tlist, kvars[1], ab);
  }

  /** When every slot before the one found is synthetic, the loop as written is right. */
  lemma {:induction false} GroupbyReuseAsWrittenAgrees(kvars: seq<Slot>, tlist: seq<TargetEntry>, e: Expr, i: nat)
    requires i <= |kvars| && forall j | i <= j < |kvars| :: kvars[j].depth < 0
    decreases |kvars| - i
    ensures GroupbyReuseAsWritten(kvars, tlist, e, i, i) == Reuse(kvars, tlist, e, i)
  {
    if i < |kvars| {
      GroupbyReuseAsWrittenAgrees(kvars, tlist, e, i + 1);
    }
  }

  /** A context after another: like Evolves, but the device target list may also grow. */
  predicate Grows(c1: Ctx, c2: Ctx)
  {
    && c2.inputs == c1.inputs && c2.flags == c1.flags && c2.required == c1.required
    && c1.kvars <= c2.kvars && c1.tlist <= c2.tlist && c1.refs <= c2.refs && c1.cost <= c2.cost
  }

  lemma HoldsGrows(c1: Ctx, c2: Ctx, id: nat, e: Expr)
    requires Grows(c1, c2) && Holds(c1, id, e)
    ensures Holds(c2, id, e)
  {
    assert c2.kvars[id] == c1.kvars[id];
    if Reusable(c1.tlist, c1.kvars[id], e) {
      assert c2.tlist[c1.kvars[id].resno - 1] == c1.tlist[c1.kvars[id].resno - 1];
    }
  }

  /**
   * __codegen_groupby_expression on one grouping key: an input column or a
   * reusable synthetic slot becomes a Var node on that slot; otherwise
   * `e` is appended to the device target list as a junk entry with a new
   * synthetic slot, filled by a SaveExpr node.
   */
  method GroupbyKey(env: Env, ctx: Ctx, e: Expr) returns (r: Result<(Ctx, nat, XNode)>)
    ensures r.Ok? ==> (Grows(ctx, r.value.0) && r.value.1 < |r.value.0.kvars| && r.value.2.flags == ctx.flags)
    ensures r.Ok? ==>
      (r.value.2.opcode == SaveExpr <==> FindInput(ctx.inputs, e).None? && Reuse(ctx.kvars, ctx.tlist, e, 0).None?)
    ensures r.Ok? && r.value.2.opcode == SaveExpr ==> (r.value.1 == |ctx.kvars|
      && r.value.0.tlist == ctx.tlist + [TargetEntry(e, |ctx.tlist| + 1, true)]
      && r.value.0.kvars[r.value.1] == Slot(-1, |ctx.tlist| + 1, InvalidOid)
      && r.value.2.info == SaveInfo(r.value.1) && |r.value.2.args| == 1)
    ensures r.Ok? && r.value.2.opcode != SaveExpr ==>
      (r.value.2.opcode == VarExpr && r.value.2.info == VarInfo(r.value.1) && r.value.0.tlist == ctx.tlist)
    ensures r.Ok? && TlistNumbered(ctx.tlist) ==> (TlistNumbered(r.value.0.tlist) && Holds(r.value.0, r.value.1, e))
  {
    var m :- MatchInput(env, ctx, e);
    if m.Some? {
      var (c1, slot) := m.value;
      var v :- VarNode(env, c1, e, slot);
      return Ok((c1, slot, v));
    }
    var found := Reuse(ctx.kvars, ctx.tlist, e, 0);
    if found.Some? {
      var v :- VarNode(env, ctx, e, found.value);
      return Ok((ctx, found.value, v));
    }
    r := GroupbyNew(env, ctx, e);
  }

  /** The injection of a grouping key found nowhere: a junk target-list entry and its new synthetic slot. */
  method GroupbyNew(env: Env, ctx: Ctx, e: Expr) returns (r: Result<(Ctx, nat, XNode)>)
    ensures r.Ok? ==> (Grows(ctx, r.value.0) && r.value.1 == |ctx.kvars| < |r.value.0.kvars|
      && r.value.0.tlist == ctx.tlist + [TargetEntry(e, |ctx.tlist| + 1, true)]
      && r.value.0.kvars[r.value.1] == Slot(-1, |ctx.tlist| + 1, InvalidOid)
      && r.value.2.opcode == SaveExpr && r.value.2.info == SaveInfo(r.value.1) && |r.value.2.args| == 1
      && r.value.2.flags == ctx.flags)
    ensures r.Ok? && TlistNumbered(ctx.tlist) ==> (TlistNumbered(r.value.0.tlist) && Holds(r.value.0, r.value.1, e))
  {
    var id := |ctx.kvars|;
    var resno := |ctx.tlist| + 1;
    var c1 := ctx.(kvars := ctx.kvars + [Slot(-1, resno, InvalidOid)],
                   tlist := ctx.tlist + [TargetEntry(e, resno, true)]);
    var d :- TypeOf(env, ExprType(e));
    if d.None? {
      return Err("type is not device supported");
    }
    var w :- WalkExpr(env, c1, e);
    var (c2, x) := w;
    assert c2.kvars[id] == c1.kvars[id] && c2.tlist == c1.tlist;
    assert Reusable(c2.tlist, c2.kvars[id], e);
    r := Ok((c2, id, XNode(d.value.code, SaveExpr, ctx.flags, SaveInfo(id), [x])));
    if TlistNumbered(ctx.tlist) {
      assert TlistNumbered(c2.tlist);
    }
  }

  /**
   * The grouping keys in order: their slots and their nodes. Under a
   * numbered target list, every key's slot provides that key's value.
   */
  method GroupbyKeys(env: Env, ctx: Ctx, keys: seq<Expr>) returns (r: Result<(Ctx, seq<nat>, seq<XNode>)>)
    ensures r.Ok? ==> (Grows(ctx, r.value.0) && |r.value.1| == |keys| && |r.value.2| == |keys|)
    ensures r.Ok? ==> forall k | 0 <= k < |keys| ::
      && r.value.1[k] < |r.value.0.kvars| && r.value.2[k].flags == ctx.flags
      && (r.value.2[k].info == VarInfo(r.value.1[k]) || r.value.2[k].info == SaveInfo(r.value.1[k]))
    ensures r.Ok? && TlistNumbered(ctx.tlist) ==> (TlistNumbered(r.value.0.tlist)
      && forall k | 0 <= k < |keys| :: Holds(r.value.0, r.value.1[k], keys[k]))
  {
    var c := ctx;
    var slots: seq<nat> := [];
    var nodes: seq<XNode> := [];
    for i := 0 to |keys|
      invariant Grows(ctx, c) && |slots| == i && |nodes| == i
      invariant forall k | 0 <= k < i ::
        && slots[k] < |c.kvars| && nodes[k].flags == ctx.flags
        && (nodes[k].info == VarInfo(slots[k]) || nodes[k].info == SaveInfo(slots[k]))
      invariant TlistNumbered(ctx.tlist) ==> (TlistNumbered(c.tlist)
        && forall k | 0 <= k < i :: Holds(c, slots[k], keys[k]))
    {
      var g :- GroupbyKey(env, c, keys[i]);
      var (c1, slot, x) := g;
      if TlistNumbered(ctx.tlist) {
        forall k | 0 <= k < i
          ensures Holds(c1, slots[k], keys[k])
        {
          HoldsGrows(c, c1, slots[k], keys[k]);
        }
      }
      c, slots, nodes := c1, slots + [slot], nodes + [x];
    }
    return Ok((c, slots, nodes));
  }

  /**
   * codegen_build_groupby_keyhash: a HashValue node with one child per
   * key, and the slots the keys are read from in the input.
   */
  method KeyHash(env: Env, ctx: Ctx, keys: seq<Expr>) returns (r: Result<(Ctx, seq<nat>, XNode)>)
    requires keys != []
    ensures r.Ok? ==> (Grows(ctx, r.value.0) && |r.value.1| == |keys|
      && r.value.2.opcode == HashValue && r.value.2.flags == ctx.flags && |r.value.2.args| == |keys|)
    ensures r.Ok? ==> forall k | 0 <= k < |keys| ::
      r.value.2.args[k].info == VarInfo(r.value.1[k]) || r.value.2.args[k].info == SaveInfo(r.value.1[k])
    ensures r.Ok? && TlistNumbered(ctx.tlist) ==>
      forall k | 0 <= k < |keys| :: Holds(r.value.0, r.value.1[k], keys[k])
  {
    var g :- GroupbyKeys(env, ctx, keys);
    var (c1, slots, xs) := g;
    return Ok((c1, slots, XNode("int4", HashValue, ctx.flags, NoInfo, xs)));
  }

  // ---------------------------------------------------------------------
  // Keys of the final buffer (src/codegen.c:2063-2109)
  // ---------------------------------------------------------------------

  /** The first valid entry of the target list whose expression is `e`. */
  function ValidEntry(tlist: seq<TargetEntry>, e: Expr, i: nat): (r: Option<nat>)
    requires i <= |tlist|
    decreases |tlist| - i
    ensures r.None? <==> forall j | i <= j < |tlist| :: tlist[j].resjunk || tlist[j].expr != e
    ensures r.Some? ==> i <= r.value < |tlist| && !tlist[r.value].resjunk && tlist[r.value].expr == e
  {
    if i == |tlist| then None
    else if !tlist[i].resjunk && tlist[i].expr == e then Some(i)
    else ValidEntry(tlist, e, i + 1)
  }

  /** The column a key is read from in the final buffer: that of its first valid target-list entry. */
  predicate FinalSlot(tlist: seq<TargetEntry>, s: Slot, key: Expr)
  {
    ValidEntry(tlist, key, 0).Some? && s == Slot(-2, tlist[ValidEntry(tlist, key, 0).value].resno, InvalidOid)
  }

  /**
   * The slots codegen_build_groupby_keyload adds: for each key, a new
   * slot of depth -2 on the column of its valid target-list entry; a key
   * with no valid entry is an error.
   */
  method FinalSlots(ctx: Ctx, keys: seq<Expr>) returns (r: Result<(Ctx, seq<nat>)>)
    ensures r.Err? <==> exists k | 0 <= k < |keys| :: ValidEntry(ctx.tlist, keys[k], 0).None?
    ensures r.Ok? ==> (r.value.0 == ctx.(kvars := r.value.0.kvars) && |r.value.1| == |keys|
      && |r.value.0.kvars| == |ctx.kvars| + |keys| && ctx.kvars <= r.value.0.kvars)
    ensures r.Ok? ==> forall k | 0 <= k < |keys| ::
      r.value.1[k] == |ctx.kvars| + k && FinalSlot(ctx.tlist, r.value.0.kvars[r.value.1[k]], keys[k])
  {
    var kvars := ctx.kvars;
    var slots: seq<nat> := [];
    for i := 0 to |keys|
      invariant |slots| == i && |kvars| == |ctx.kvars| + i && ctx.kvars <= kvars
      invariant forall k | 0 <= k < i :: slots[k] == |ctx.kvars| + k && FinalSlot(ctx.tlist, kvars[slots[k]], keys[k])
    {
      var t := ValidEntry(ctx.tlist, keys[i], 0);
      if t.None? {
        return Err("group-by key is missing on the tlist_dev");
      }
      kvars := kvars + [Slot(-2, ctx.tlist[t.value].resno, InvalidOid)];
      slots := slots + [|ctx.kvars| + i];
    }
    return Ok((ctx.(kvars := kvars), slots));
  }

  /**
   * codegen_build_groupby_keyload: the final-buffer slots of the keys and
   * the LoadVars node of depth -2, which loads every one of them.
   */
  method KeyLoad(env: Env, ctx: Ctx, keys: seq<Expr>) returns (r: Result<(Ctx, seq<nat>, XNode)>)
    requires keys != []
    ensures r.Err? <==> exists k | 0 <= k < |keys| :: ValidEntry(ctx.tlist, keys[k], 0).None?
    ensures r.Ok? ==> (r.value.0 == ctx.(kvars := r.value.0.kvars) && ctx.kvars <= r.value.0.kvars
      && |r.value.0.kvars| == |ctx.kvars| + |keys| && |r.value.1| == |keys|
      && (forall k | 0 <= k < |keys| :: r.value.1[k] == |ctx.kvars| + k) && r.value.2.opcode == LoadVars && r.value.2.info.LoadInfo?
      && r.value.2.info.depth == -2)
    ensures r.Ok? ==> forall k | 0 <= k < |keys| ::
      FinalSlot(ctx.tlist, r.value.0.kvars[r.value.1[k]], keys[k]) && Loads(r.value.2, r.value.1[k])
  {
    var f :- FinalSlots(ctx, keys);
    var (c1, slots) := f;
    var x := LoadVarsOne(env, c1, -2);
    LoadVarsContents(env, c1, -2);
    assert forall k | 0 <= k < |keys| :: c1.kvars[slots[k]].depth == -2;
    return Ok((c1, slots, x));
  }

  // ---------------------------------------------------------------------
  // Key comparison (src/codegen.c:2114-2224)
  // ---------------------------------------------------------------------

  /** devtype_lookup_equal_func: the type's equality function on two arguments of the type, if it has one. */
  function EqualFunc(env: Env, t: Oid, collid: Oid): (r: Result<Option<DevFunc>>)
    ensures t !in env.eqFuncs ==> r == Ok(None)
  {
    if t !in env.eqFuncs then Ok(None) else FuncOf(env, env.eqFuncs[t], [t, t], collid)
  }

  /** The comparison of one key: a call with the key's input slot and its final-buffer slot as arguments. */
  predicate Compares(x: XNode, islot: nat, fslot: nat)
  {
    && x.opcode.FuncCall? && |x.args| == 2
    && x.args[0].opcode == VarExpr && x.args[0].info == VarInfo(islot)
    && x.args[1].opcode == VarExpr && x.args[1].info == VarInfo(fslot)
  }

  /** One comparison: the key's equality function applied to its input slot and its final-buffer slot. */
  method KeyCompOne(env: Env, ctx: Ctx, key: Expr, islot: nat, fslot: nat) returns (r: Result<XNode>)
    ensures r.Ok? ==> Compares(r.value, islot, fslot) && Stamped(r.value, ctx.flags)
    ensures ExprType(key) !in env.eqFuncs ==> r.Err?
  {
    var t := ExprType(key);
    var d :- TypeOf(env, t);
    if d.None? {
      return Err("type is not device supported");
    }
    var f :- EqualFunc(env, t, ExprCollation(key));
    if f.None? {
      return Err("type has no device executable equal function");
    }
    var iv := XNode(d.value.code, VarExpr, ctx.flags, VarInfo(islot), []);
    var fv := XNode(d.value.code, VarExpr, ctx.flags, VarInfo(fslot), []);
    assert Stamped(iv, ctx.flags) && Stamped(fv, ctx.flags);
    return Ok(XNode(f.value.rettype.code, FuncCall(f.value.code), ctx.flags, NoInfo, [iv, fv]));
  }

  /**
   * codegen_build_groupby_keycomp: the comparison of the one key, or the
   * AND of the comparisons of several, in key order.
   */
  method KeyComp(env: Env, ctx: Ctx, keys: seq<Expr>, islots: seq<nat>, fslots: seq<nat>) returns (r: Result<XNode>)
    requires keys != [] && |islots| == |keys| && |fslots| == |keys|
    ensures (exists k | 0 <= k < |keys| :: ExprType(keys[k]) !in env.eqFuncs) ==> r.Err?
    ensures r.Ok? && |keys| == 1 ==> Compares(r.value, islots[0], fslots[0])
    ensures r.Ok? && |keys| > 1 ==> (r.value.opcode == BoolAnd && r.value.flags == ctx.flags
      && |r.value.args| == |keys| && forall k | 0 <= k < |keys| :: Compares(r.value.args[k], islots[k], fslots[k]))
  {
    var comps: seq<XNode> := [];
    for i := 0 to |keys|
      invariant |comps| == i && forall k | 0 <= k < i :: Compares(comps[k], islots[k], fslots[k])
      invariant forall k | 0 <= k < i :: ExprType(keys[k]) in env.eqFuncs
    {
      var x :- KeyCompOne(env, ctx, keys[i], islots[i], fslots[i]);
      comps := comps + [x];
    }
    if |keys| > 1 {
      return Ok(XNode("bool", BoolAnd, ctx.flags, NoInfo, comps));
    }
    return Ok(comps[0]);
  }

  // ---------------------------------------------------------------------
  // Partial-aggregate actions (src/codegen.c:2229-2331)
  // ---------------------------------------------------------------------

  /** The SaveExpr nodes a step adds, each stamped with the context's flags. */
  predicate Saves(xs: seq<XNode>, f: bv32)
  {
    forall k | 0 <= k < |xs| :: xs[k].opcode == SaveExpr && Stamped(xs[k], f)
  }

  /** The nodes an injection adds: its SaveExpr node, if it made one. */
  function SavesOf(inj: Injected): (r: seq<XNode>)
    ensures |r| <= 1 && (inj.save.Some? <==> r != [])
  {
    if inj.save.Some? then [inj.save.value] else []
  }

  /** The slot of `e` on the kvars list, injecting it if need be; `missing` when it is nowhere to be found. */
  method InjectSlot(env: Env, ctx: Ctx, e: Expr, missing: string) returns (r: Result<(Ctx, nat, seq<XNode>)>)
    ensures r.Ok? ==> (Evolves(ctx, r.value.0) && Saves(r.value.2, ctx.flags))
    ensures r.Ok? && TlistNumbered(ctx.tlist) ==> Holds(r.value.0, r.value.1, e)
    ensures (FindInput(ctx.inputs, e).None? && Reuse(ctx.kvars, ctx.tlist, e, 0).None? && TlistFind(ctx.tlist, e).None?) ==> r.Err?
  {
    var inj :- InjectProjection(env, ctx, e);
    if inj.slot < 0 {
      return Err(missing);
    }
    if TlistNumbered(ctx.tlist) {
      InjectProjectionHolds(env, ctx, e);
    }
    return Ok((inj.ctx, inj.slot as nat, SavesOf(inj)));
  }

  /**
   * The argument slots of a partial function: the first argument's slot
   * goes to arg0, the second's to arg1, and a third argument is an error.
   */
  method AggArgs(env: Env, ctx: Ctx, args: seq<Expr>, desc: AggDesc) returns (r: Result<(Ctx, AggDesc, seq<XNode>)>)
    ensures |args| > 2 ==> r.Err?
    ensures r.Ok? ==> (Evolves(ctx, r.value.0) && r.value.1.action == desc.action && Saves(r.value.2, ctx.flags))
    ensures r.Ok? && |args| == 0 ==> r.value.1 == desc
    ensures r.Ok? && |args| == 1 ==> r.value.1.arg1 == desc.arg1
    ensures r.Ok? && |args| >= 1 && TlistNumbered(ctx.tlist) ==>
      (0 <= r.value.1.arg0 && Holds(r.value.0, r.value.1.arg0 as nat, args[0]))
    ensures r.Ok? && |args| == 2 && TlistNumbered(ctx.tlist) ==>
      (0 <= r.value.1.arg1 && Holds(r.value.0, r.value.1.arg1 as nat, args[1]))
  {
    var c := ctx;
    var d := desc;
    var saves: seq<XNode> := [];
    for count := 0 to |args|
      invariant count <= 2 && Evolves(ctx, c) && d.action == desc.action && Saves(saves, ctx.flags)
      invariant count == 0 ==> d == desc
      invariant count <= 1 ==> d.arg1 == desc.arg1
      invariant count >= 1 && TlistNumbered(ctx.tlist) ==> (0 <= d.arg0 && Holds(c, d.arg0 as nat, args[0]))
      invariant count == 2 && TlistNumbered(ctx.tlist) ==> (0 <= d.arg1 && Holds(c, d.arg1 as nat, args[1]))
    {
      var inj :- InjectSlot(env, c, args[count], "partial-aggregate-function argument is missing");
      var (c1, slot, save) := inj;
      if count >= 2 {
        return Err("too much partial function arguments");
      }
      if TlistNumbered(ctx.tlist) && count == 1 {
        HoldsMono(c, c1, d.arg0 as nat, args[0]);
      }
      d := if count == 0 then d.(arg0 := slot) else d.(arg1 := slot);
      c := c1;
      saves := saves + save;
    }
    return Ok((c, d, saves));
  }

  /** An action the model refuses: a partial function that is not a call, or has more than two arguments. */
  predicate BadAction(tle: TargetEntry, action: int)
  {
    action != KAGG_ACTION__VREF && (!tle.expr.FuncExpr? || |tle.expr.args| > 2)
  }

  /**
   * The descriptor of target-list entry `index`: its own slot for a VREF
   * action, else the slots of the function's arguments.
   */
  method AggAction(env: Env, ctx: Ctx, index: nat, action: int) returns (r: Result<(Ctx, AggDesc, seq<XNode>)>)
    requires index < |ctx.tlist|
    ensures BadAction(ctx.tlist[index], action) ==> r.Err?
    ensures r.Ok? ==> (Evolves(ctx, r.value.0) && r.value.1.action == action && Saves(r.value.2, ctx.flags))
    ensures r.Ok? && action == KAGG_ACTION__VREF && TlistNumbered(ctx.tlist) ==>
      (0 <= r.value.1.arg0 && Holds(r.value.0, r.value.1.arg0 as nat, ctx.tlist[index].expr))
  {
    var e := ctx.tlist[index].expr;
    if action == KAGG_ACTION__VREF {
      var inj :- InjectSlot(env, ctx, e, "grouping-key is not on the kvars-slot");
      return Ok((inj.0, AggDesc(action, inj.1, 0), inj.2));
    }
    if !e.FuncExpr? {
      return Err("partial aggregate is not a function call");
    }
    r := AggArgs(env, ctx, e.args, AggDesc(action, 0, 0));
  }

  /**
   * __codegen_build_groupby_actions: an AggFuncs node with one descriptor
   * per action, in target-list order, and the SaveExpr nodes of the new
   * slots as children.
   */
  method GroupbyActions(env: Env, ctx: Ctx, actions: seq<int>) returns (r: Result<(Ctx, XNode)>)
    requires |actions| <= |ctx.tlist|
    ensures (exists k | 0 <= k < |actions| :: BadAction(ctx.tlist[k], actions[k])) ==> r.Err?
    ensures r.Ok? ==> (Evolves(ctx, r.value.0) && r.value.1.opcode == AggFuncs && r.value.1.info.AggInfo?
      && |r.value.1.info.descs| == |actions| && Saves(r.value.1.args, ctx.flags)
      && forall k | 0 <= k < |actions| :: r.value.1.info.descs[k].action == actions[k])
    ensures r.Ok? && TlistNumbered(ctx.tlist) ==>
      forall k | 0 <= k < |actions| && actions[k] == KAGG_ACTION__VREF ::
        0 <= r.value.1.info.descs[k].arg0 && Holds(r.value.0, r.value.1.info.descs[k].arg0 as nat, ctx.tlist[k].expr)
  {
    var c := ctx;
    var descs: seq<AggDesc> := [];
    var saves: seq<XNode> := [];
    for i := 0 to |actions|
      invariant Evolves(ctx, c) && |descs| == i && Saves(saves, ctx.flags)
      invariant forall k | 0 <= k < i :: descs[k].action == actions[k] && !BadAction(ctx.tlist[k], actions[k])
      invariant TlistNumbered(ctx.tlist) ==>
        forall k | 0 <= k < i && actions[k] == KAGG_ACTION__VREF ::
          0 <= descs[k].arg0 && Holds(c, descs[k].arg0 as nat, ctx.tlist[k].expr)
    {
      var a :- AggAction(env, c, i, actions[i]);
      var (c1, desc, mine) := a;
      if TlistNumbered(ctx.tlist) {
        forall k | 0 <= k < i && actions[k] == KAGG_ACTION__VREF
          ensures Holds(c1, descs[k].arg0 as nat, ctx.tlist[k].expr)
        {
          HoldsMono(c, c1, descs[k].arg0 as nat, ctx.tlist[k].expr);
        }
      }
      c, descs, saves := c1, descs + [desc], saves + mine;
    }
    return Ok((c, XNode("int4", AggFuncs, ctx.flags, AggInfo(descs), saves)));
  }

  /**
   * The group-by code: key hash, key load and key comparison when there
   * are keys, and the actions; with the keys' input slots and final-buffer
   * slots, which codegen_build_groupby_keyhash and
   * codegen_build_groupby_keyload return.
   */
  datatype GroupbyCode = GroupbyCode(keyhash: Option<XNode>, keyload: Option<XNode>, keycomp: Option<XNode>,
                                     actions: XNode, inputSlots: seq<nat>, finalSlots: seq<nat>)

  /**
   * The group-by part of codegen_build_groupby_actions and its callers:
   * with keys, their hash over the input slots, their load into new
   * final-buffer slots, and the comparison of each input slot with the
   * final-buffer slot of the same key; then the actions.
   */
  method BuildGroupby(env: Env, ctx: Ctx, keys: seq<Expr>, actions: seq<int>) returns (r: Result<(Ctx, GroupbyCode)>)
    requires |actions| <= |ctx.tlist|
    ensures r.Ok? ==> ((r.value.1.keyhash.Some? <==> keys != []) && (r.value.1.keyload.Some? <==> keys != [])
      && (r.value.1.keycomp.Some? <==> keys != []) && r.value.1.actions.opcode == AggFuncs
      && |r.value.1.inputSlots| == |keys| && |r.value.1.finalSlots| == |keys|)
    ensures r.Ok? && keys != [] ==>
      var g := r.value.1;
      && |g.keyhash.value.args| == |keys|
      && forall k | 0 <= k < |keys| ::
           && Loads(g.keyload.value, g.finalSlots[k])
           && (g.keyhash.value.args[k].info == VarInfo(g.inputSlots[k])
               || g.keyhash.value.args[k].info == SaveInfo(g.inputSlots[k]))
    ensures r.Ok? && |keys| == 1 ==> Compares(r.value.1.keycomp.value, r.value.1.inputSlots[0], r.value.1.finalSlots[0])
    ensures r.Ok? && |keys| > 1 ==>
      var g := r.value.1;
      && |g.keycomp.value.args| == |keys|
      && forall k | 0 <= k < |keys| :: Compares(g.keycomp.value.args[k], g.inputSlots[k], g.finalSlots[k])
  {
    if keys == [] {
      var a :- GroupbyActions(env, ctx, actions);
      var (c1, x) := a;
      return Ok((c1, GroupbyCode(None, None, None, x, [], [])));
    }
    var h :- KeyHash(env, ctx, keys);
    var (c1, islots, hash) := h;
    var l :- KeyLoad(env, c1, keys);
    var (c2, fslots, load) := l;
    var comp :- KeyComp(env, c2, keys, islots, fslots);
    var a :- GroupbyActions(env, c2, actions);
    var (c3, x) := a;
    return Ok((c3, GroupbyCode(Some(hash), Some(load), Some(comp), x, islots, fslots)));
  }

  // ---------------------------------------------------------------------
  // Check-only walk (src/codegen.c:2336-2370)
  // ---------------------------------------------------------------------

  /**
   * The messages the walker raises through __Elog (src/codegen.c:874-883),
   * at the context's elevel. pgstrom_xpu_expression sets it to DEBUG2
   * (src/codegen.c:2371), so these make the check answer false; every
   * other error (a catalog lookup that fails, the Const length test) is an
   * elog(ERROR) and is raised whatever the elevel.
   */
  const Refusals: set<string> := {
    "unable to use type in Const expression", "type is not device supported",
    "Only PARAM_EXTERN is supported on device", "function is not supported on the target device",
    "BoolExpr(AND) must have 2 or more arguments", "BoolExpr(OR) must have 2 or more arguments",
    "BoolExpr(OR) must not have multiple arguments", "not a supported expression type"}

  /** One qual stands for itself; several stand for their AND (make_andclause). */
  function XpuQual(quals: seq<Expr>): (e: Expr)
    requires quals != []
    ensures |quals| == 1 ==> e == quals[0]
    ensures |quals| >= 2 ==> e == BoolExpr(AndExpr, quals)
  {
    if |quals| == 1 then quals[0] else BoolExpr(AndExpr, quals)
  }

  /** What the check answers after a walk: the device cost, false after a refusal in `soft`, or the error raised. */
  function XpuAnswer(w: Result<(Ctx, XNode)>, soft: set<string>): (r: Result<Option<nat>>)
    ensures w.Ok? ==> r == Ok(Some(w.value.0.cost))
    ensures w.Err? ==> (r == Ok(None) <==> w.msg in soft)
    ensures r.Err? ==> w.Err? && r.msg == w.msg && r.msg !in soft
  {
    match w
    case Ok((c, _)) => Ok(Some(c.cost))
    case Err(m) => if m in soft then Ok(None) else Err(m)
  }

  /**
   * pgstrom_xpu_expression, as written for the Const length test: the
   * walker runs without an output buffer, so that test is skipped; a
   * refusal answers false (Ok(None)), the device cost comes back with
   * true, and an elog(ERROR) is raised (Err). Domains resolve as the
   * catalogs' `refuseDomains` says: as compiled with it set
   * (DomainVarRefused), through their base type without it.
   */
  function XpuExpression(env: Env, quals: seq<Expr>, required: set<Flag>, inputs: seq<InputRel>)
    : (r: Result<Option<nat>>)
    ensures quals == [] ==> r == Ok(None)
    ensures r.Err? ==> r.msg !in Refusals
  {
    if quals == [] then Ok(None)
    else XpuAnswer(Walk(env, Unbuffered(InitCtx(inputs, [], required)), XpuQual(quals)), Refusals)
  }

  /**
   * The check as evidently intended: it walks as generation does and
   * answers false wherever generation could not build the expression,
   * the length error included.
   */
  function XpuExpressionIntended(env: Env, quals: seq<Expr>, required: set<Flag>, inputs: seq<InputRel>)
    : (r: Result<Option<nat>>)
    ensures quals == [] ==> r == Ok(None)
    ensures r.Err? ==> r.msg !in Refusals && r.msg != UnsupportedLength
  {
    if quals == [] then Ok(None)
    else XpuAnswer(Walk(env, InitCtx(inputs, [], required), XpuQual(quals)), Refusals + {UnsupportedLength})
  }

  /**
   * The check as written against scan-qual generation on a fresh context:
   * where generation succeeds the check accepts with the same device cost;
   * where generation fails with any error but the length error, the check
   * answers false or raises that error just as the intended check does; and
   * where no qual holds a Const the generator cannot copy, the check is the
   * intended one.
   */
  lemma XpuExpressionAgrees(env: Env, quals: seq<Expr>, required: set<Flag>, inputs: seq<InputRel>)
    ensures var q := ScanQuals(env, InitCtx(inputs, [], required), quals);
      && (q.Ok? && q.value.Some? ==> XpuExpression(env, quals, required, inputs) == Ok(Some(q.value.value.0.cost)))
      && (q.Err? && q.msg != UnsupportedLength ==>
            XpuExpression(env, quals, required, inputs) == (if q.msg in Refusals then Ok(None) else Err(q.msg)))
      && (!FixedByRefAmong(quals) ==>
            XpuExpression(env, quals, required, inputs) == XpuExpressionIntended(env, quals, required, inputs))
  {
    if quals != [] {
      var ctx := InitCtx(inputs, [], required);
      var e := XpuQual(quals);
      WalkChecking(env, ctx, e);
      if !FixedByRefAmong(quals) {
        XpuQualFixedByRef(quals);
        WalkCheckingAgrees(env, ctx, e);
      }
    }
  }

  /** The qual a check walks holds a Const the generator cannot copy exactly when one of the quals does. */
  lemma XpuQualFixedByRef(quals: seq<Expr>)
    requires quals != []
    ensures FixedByRefIn(XpuQual(quals)) <==> FixedByRefAmong(quals)
  {
    if |quals| == 1 {
      assert XpuQual(quals) == quals[0];
    }
  }

  /**
   * The intended check answers exactly as scan-qual generation on a fresh
   * context ends: true with generation's device cost when it succeeds,
   * false when it refuses or meets the length error, and any other error
   * raised as it is.
   */
  lemma XpuExpressionIntendedAgrees(env: Env, quals: seq<Expr>, required: set<Flag>, inputs: seq<InputRel>)
    ensures var q := ScanQuals(env, InitCtx(inputs, [], required), quals);
      var r := XpuExpressionIntended(env, quals, required, inputs);
      && (q.Ok? ==> r == Ok(if q.value.None? then None else Some(q.value.value.0.cost)))
      && (q.Err? ==> (r == Ok(None) <==> q.msg in Refusals || q.msg == UnsupportedLength))
      && (q.Err? && r.Err? ==> r.msg == q.msg)
  {
  }

  /**
   * A non-null Const of a fixed-length by-reference device type (an
   * interval, a uuid, a macaddr) as the only qual: the check as written
   * accepts it at no cost, generation raises "unsupported type length",
   * and the intended check answers false.
   */
  lemma FixedByRefConstAccepted(env: Env, e: Expr, required: set<Flag>, inputs: seq<InputRel>)
    requires FixedByRef(e) && FindInput(inputs, e).None?
    requires ScalarType(env, e.consttype) && TypeOf(env, e.consttype).Ok? && TypeOf(env, e.consttype).value.Some?
    ensures XpuExpression(env, [e], required, inputs) == Ok(Some(0))
    ensures ScanQuals(env, InitCtx(inputs, [], required), [e]) == Err(UnsupportedLength)
    ensures XpuExpressionIntended(env, [e], required, inputs) == Ok(None)
  {
    FixedByRefChecked(env, InitCtx(inputs, [], required), e);
  }

  /**
   * A column of a domain type as the only qual. Where types resolve as
   * compiled, pgstrom_devtype_lookup refuses the domain, so the column
   * is "not device supported" (src/codegen.c:1022-1024) and the check
   * answers false.
   */
  lemma DomainVarRefused(env: Env, e: Expr, required: set<Flag>, inputs: seq<InputRel>)
    requires env.refuseDomains && e.Var? && FindInput(inputs, e).Some?
    requires e.vartype in env.sys.types && env.sys.types[e.vartype].typtype == Domain
    ensures XpuExpression(env, [e], required, inputs) == Ok(None)
    ensures XpuExpressionIntended(env, [e], required, inputs) == Ok(None)
  {
    var ctx := InitCtx(inputs, [], required);
    assert XpuQual([e]) == e;
    assert TypeOf(env, ExprType(e)) == Ok(None);
    assert MatchInput(env, Unbuffered(ctx), e).Ok? && MatchInput(env, Unbuffered(ctx), e).value.Some?;
    assert MatchInput(env, ctx, e).Ok? && MatchInput(env, ctx, e).value.Some?;
  }

  /**
   * Where a domain resolves through its base type, a column of a domain
   * over a device type is accepted as the only qual, at no device cost.
   */
  lemma DomainVarAccepted(env: Env, e: Expr, required: set<Flag>, inputs: seq<InputRel>)
    requires !env.refuseDomains && e.Var? && FindInput(inputs, e).Some?
    requires Resolve(env.cat, env.sys, e.vartype).Ok? && Resolve(env.cat, env.sys, e.vartype).value.Some?
    ensures XpuExpression(env, [e], required, inputs) == Ok(Some(0))
    ensures XpuExpressionIntended(env, [e], required, inputs) == Ok(Some(0))
  {
    var ctx := InitCtx(inputs, [], required);
    assert XpuQual([e]) == e;
    assert TypeOf(env, ExprType(e)) == Resolve(env.cat, env.sys, e.vartype);
    assert MatchInput(env, Unbuffered(ctx), e).Ok? && MatchInput(env, Unbuffered(ctx), e).value.Some?;
    assert MatchInput(env, ctx, e).Ok? && MatchInput(env, ctx, e).value.Some?;
  }

  /**
   * The column of type `posint`, a domain over int4, scanned from the only
   * input relation: as compiled the check answers false; resolved through
   * the base type, it answers true at no cost.
   */
  lemma DomainColumnCheck()
    ensures Leveled(DomainSys)
    ensures XpuExpression(Catalogs(TypeCatalog, [], DomainSys, map[], _ => 1, _ => 0, true),
                          [Var(1, 1, DomainOid, 0)], {}, [ScanRel(1)]) == Ok(None)
    ensures XpuExpression(Catalogs(TypeCatalog, [], DomainSys, map[], _ => 1, _ => 0, false),
                          [Var(1, 1, DomainOid, 0)], {}, [ScanRel(1)]) == Ok(Some(0))
  {
    DomainSysLeveled();
    DomainIntended();
    var e := Var(1, 1, DomainOid, 0);
    assert FindInput([ScanRel(1)], e).Some? by {
      assert RelRef(ScanRel(1), e).Some?;
    }
    DomainVarRefused(Catalogs(TypeCatalog, [], DomainSys, map[], _ => 1, _ => 0, true), e, {}, [ScanRel(1)]);
    DomainVarAccepted(Catalogs(TypeCatalog, [], DomainSys, map[], _ => 1, _ => 0, false), e, {}, [ScanRel(1)]);
  }
}
