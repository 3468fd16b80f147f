/**
 * The expression walker of the code generator (src/codegen.c:885-1357):
 * a PostgreSQL expression tree becomes a tree of device expression nodes,
 * and every reference to a column of an input relation becomes a "slot"
 * of the context's variable lists.
 *
 * Nodes are kept abstract here (result type code, opcode, flags, the few
 * fields a node kind carries, children); KernExp gives their byte image.
 */
module CodegenExpr {
  import opened Wrappers
  import opened XpuOpcodes
  import opened Align
  import opened DevCatalog

  const BOOLOID: Oid := 16

  /** KEXP_FLAG__IS_PUSHED_DOWN; its bit is defined in xpu_common.h, which is not part of this model. */
  const KEXP_FLAG__IS_PUSHED_DOWN: bv32 := 0x0001

  // ---------------------------------------------------------------------
  // Expressions, as far as the walker reads them
  // ---------------------------------------------------------------------

  datatype ParamKind = ParamExtern | ParamExec | ParamSublink | ParamMultiexpr
  datatype BoolOp = AndExpr | OrExpr | NotExpr
  datatype NullTestKind = IsNull | IsNotNull
  datatype BoolTestKind = IsTrue | IsNotTrue | IsFalse | IsNotFalse | IsUnknown | IsNotUnknown

  /**
   * An OpExpr carries the function its operator resolves to (what
   * get_opcode answers); a DistinctExpr has the same shape and is walked
   * the same way. `Unsupported` stands for every other node kind.
   */
  datatype Expr =
    | Var(varno: nat, attno: int, vartype: Oid, varcollid: Oid)
    | Const(consttype: Oid, constlen: int, byval: bool, isnull: bool, datum: seq<byte>, constcollid: Oid)
    | Param(kind: ParamKind, paramid: int, paramtype: Oid, paramcollid: Oid)
    | FuncExpr(funcid: Oid, args: seq<Expr>, collid: Oid, resulttype: Oid)
    | OpExpr(opfuncid: Oid, args: seq<Expr>, collid: Oid, resulttype: Oid)
    | BoolExpr(boolop: BoolOp, args: seq<Expr>)
    | NullTest(nullKind: NullTestKind, arg: Expr)
    | BooleanTest(testKind: BoolTestKind, arg: Expr)
    | Unsupported(tag: string, resulttype: Oid)

  /** exprType */
  function ExprType(e: Expr): Oid
  {
    match e
    case Var(_, _, t, _) => t
    case Const(t, _, _, _, _, _) => t
    case Param(_, _, t, _) => t
    case FuncExpr(_, _, _, t) => t
    case OpExpr(_, _, _, t) => t
    case Unsupported(_, t) => t
    case _ => BOOLOID
  }

  /** exprCollation */
  function ExprCollation(e: Expr): Oid
  {
    match e
    case Var(_, _, _, c) => c
    case Const(_, _, _, _, _, c) => c
    case Param(_, _, _, c) => c
    case FuncExpr(_, _, c, _) => c
    case OpExpr(_, _, c, _) => c
    case _ => InvalidOid
  }

  function TypesOf(es: seq<Expr>): (r: seq<Oid>)
    ensures |r| == |es| && forall i | 0 <= i < |es| :: r[i] == ExprType(es[i])
  {
    if es == [] then [] else [ExprType(es[0])] + TypesOf(es[1..])
  }

  // ---------------------------------------------------------------------
  // Device expression nodes
  // ---------------------------------------------------------------------

  datatype Opcode =
    | ConstExpr | ParamExpr | VarExpr | FuncCall(code: string)
    | BoolAnd | BoolOr | BoolNot | NullTestOp(nt: NullTestKind) | BoolTestOp(bt: BoolTestKind)
    | SaveExpr | LoadVars | Packed | JoinQuals | HashValue | Projection | AggFuncs

  /** One kern_vars_defitem of a LoadVars node. */
  datatype LoadItem = LoadItem(resno: int, slot: nat, offset: nat)

  /** One kern_aggregate_desc of an AggFuncs node; an unused argument slot stays 0. */
  datatype AggDesc = AggDesc(action: int, arg0: int, arg1: int)

  /** The node-kind specific fields of a kern_expression. */
  datatype Info =
    | NoInfo
    | ConstInfo(ctype: Oid, isnull: bool, value: seq<byte>)
    | ParamInfo(paramid: int)
    | VarInfo(slot: nat)
    | SaveInfo(saveSlot: nat)
    | LoadInfo(depth: int, items: seq<LoadItem>)
    | PackInfo(npacked: nat, present: seq<nat>)
    | ProjInfo(slots: seq<nat>)
    | AggInfo(descs: seq<AggDesc>)

  datatype XNode = XNode(exptype: string, opcode: Opcode, flags: bv32, info: Info, args: seq<XNode>)

  /** Every node of the tree carries the flags `f`. */
  predicate Stamped(x: XNode, f: bv32)
    decreases x
  {
    x.flags == f && forall k | 0 <= k < |x.args| :: Stamped(x.args[k], f)
  }

  /** Every variable reference of the tree names one of the first `n` slots. */
  predicate SlotsBelow(x: XNode, n: nat)
    decreases x
  {
    (x.info.VarInfo? ==> x.info.slot < n)
    && (x.info.SaveInfo? ==> x.info.saveSlot < n)
    && forall k | 0 <= k < |x.args| :: SlotsBelow(x.args[k], n)
  }

  // ---------------------------------------------------------------------
  // The code generation context
  // ---------------------------------------------------------------------

  /** An entry of input_rels_tlist: a scanned relation by range-table index, or the target list of a joined relation. */
  datatype InputRel = ScanRel(varno: nat) | PathTarget(exprs: seq<Expr>)

  /** One position of the parallel lists kvars_depth / kvars_resno / kvars_types. */
  datatype Slot = Slot(depth: int, resno: int, typ: Oid)

  datatype TargetEntry = TargetEntry(expr: Expr, resno: int, resjunk: bool)

  /**
   * codegen_context: the input relations, the variable slots, the
   * expressions behind them (kvars_exprs), the device target list, the
   * flags stamped on new nodes, the device kinds required, the
   * accumulated device cost and the parameters used. `checking` is set when
   * the walker runs without an output buffer (`buf` NULL), only to decide
   * whether the expression can run on the device.
   */
  datatype Ctx = Ctx(inputs: seq<InputRel>, kvars: seq<Slot>, refs: seq<Expr>, tlist: seq<TargetEntry>,
                     flags: bv32, required: set<Flag>, cost: nat, params: seq<Expr>, checking: bool)

  /**
   * The catalogs the lookups consult, the type cache's equality function
   * of each type (absent: none), and where a device type puts its value
   * in the variable slot buffer (type_alignof, type_sizeof of the device
   * type, which the device headers define). With `refuseDomains` types and
   * functions resolve as the compiled lookup does, which refuses a domain
   * (DevCatalog.ResolveAsWritten, DevCatalog.ResolveFuncAsWritten);
   * without it a domain resolves through its base type, as intended.
   */
  datatype Catalogs = Catalogs(cat: seq<TypeEntry>, rows: seq<FuncRow>, sys: SysCache,
                               eqFuncs: map<Oid, Oid>, slotAlign: Oid -> Pos, slotSize: Oid -> nat,
                               refuseDomains: bool)

  type Pos = n: nat | n > 0 witness 1

  type Env = e: Catalogs | Leveled(e.sys)
    witness Catalogs([], [], SysCache(map[], map[], map[], {}), map[], _ => 1, _ => 0, false)

  /** codegen_context_init: only the device-kind bits of the required flags are kept. */
  function InitCtx(inputs: seq<InputRel>, tlist: seq<TargetEntry>, required: set<Flag>): (c: Ctx)
    ensures c.required <= AnyKind && c.kvars == [] && c.cost == 0 && !c.checking
  {
    Ctx(inputs, [], [], tlist, 0, required * AnyKind, 0, [], false)
  }

  /** What happens to a context while code is generated: slots, references, cost and parameters only accumulate. */
  predicate Evolves(c1: Ctx, c2: Ctx)
  {
    && c2.inputs == c1.inputs && c2.tlist == c1.tlist && c2.flags == c1.flags && c2.required == c1.required
    && c2.checking == c1.checking
    && c1.kvars <= c2.kvars && c1.refs <= c2.refs && c1.cost <= c2.cost && c1.params <= c2.params
  }

  /**
   * The memoised lookups answer what fresh resolution answers
   * (DevCatalog.LookupAgrees, DevCatalog.FuncLookupAgrees), so the walker
   * consults the resolution directly, as compiled or as intended.
   */
  function TypeOf(env: Env, oid: Oid): (r: Result<Option<DevType>>)
    ensures r.Err? ==> r.msg in CatalogErrors
    ensures r.Ok? && r.value.Some? ==> r == Resolve(env.cat, env.sys, oid)
    ensures env.refuseDomains && oid in env.sys.types && env.sys.types[oid].typtype == Domain ==> r == Ok(None)
    ensures !env.refuseDomains || NoDomains(env.sys) ==> r == Resolve(env.cat, env.sys, oid)
  {
    if env.refuseDomains then ResolveAsWritten(env.cat, env.sys, oid) else Resolve(env.cat, env.sys, oid)
  }

  function FuncOf(env: Env, foid: Oid, argtypes: seq<Oid>, collid: Oid): (r: Result<Option<DevFunc>>)
    ensures r.Err? ==> r.msg in CatalogErrors
    ensures r.Ok? && r.value.Some? ==>
      ResolveFunc(env.cat, env.rows, env.sys, foid, argtypes).Ok? && r.value == Admit(ResolveFunc(env.cat, env.rows, env.sys, foid, argtypes).value, collid, env.sys)
    ensures !env.refuseDomains || NoDomains(env.sys) ==>
      r == (var f :- ResolveFunc(env.cat, env.rows, env.sys, foid, argtypes); Ok(Admit(f, collid, env.sys)))
  {
    var f :- if env.refuseDomains then ResolveFuncAsWritten(env.cat, env.rows, env.sys, foid, argtypes)
             else ResolveFunc(env.cat, env.rows, env.sys, foid, argtypes);
    Ok(Admit(f, collid, env.sys))
  }

  // ---------------------------------------------------------------------
  // References to input relations and slot allocation (src/codegen.c:1240-1309)
  // ---------------------------------------------------------------------

  function IndexOf<T(==)>(s: seq<T>, x: T): (r: Option<nat>)
    ensures r.None? <==> x !in s
    ensures r.Some? ==> r.value < |s| && s[r.value] == x && x !in s[..r.value]
  {
    if s == [] then None
    else if s[0] == x then Some(0)
    else
      match IndexOf(s[1..], x)
      case None => None
      case Some(i) =>
        assert s[..i + 1] == [s[0]] + s[1..][..i];
        Some(i + 1)
  }

  /** The attribute number under which input relation `rel` provides `e`, if it does. */
  function RelRef(rel: InputRel, e: Expr): (r: Option<int>)
    ensures rel.ScanRel? ==> (r.Some? <==> e.Var? && e.varno == rel.varno)
    ensures rel.ScanRel? && r.Some? ==> r.value == e.attno
    ensures rel.PathTarget? ==> (r.Some? <==> e in rel.exprs)
    ensures rel.PathTarget? && r.Some? ==>
      1 <= r.value <= |rel.exprs| && rel.exprs[r.value - 1] == e && e !in rel.exprs[..r.value - 1]
  {
    match rel
    case ScanRel(v) => if e.Var? && e.varno == v then Some(e.attno) else None
    case PathTarget(es) =>
      match IndexOf(es, e)
      case None => None
      case Some(k) => Some(k + 1)
  }

  /** The first input relation (its depth) that provides `e`, and the attribute number there. */
  function FindInput(inputs: seq<InputRel>, e: Expr): (r: Option<(nat, int)>)
    ensures r.None? <==> forall d | 0 <= d < |inputs| :: RelRef(inputs[d], e).None?
    ensures r.Some? ==> (r.value.0 < |inputs| && RelRef(inputs[r.value.0], e) == Some(r.value.1)
      && forall d | 0 <= d < r.value.0 :: RelRef(inputs[d], e).None?)
  {
    if inputs == [] then None
    else if RelRef(inputs[0], e).Some? then Some((0, RelRef(inputs[0], e).value))
    else
      match FindInput(inputs[1..], e)
      case None => None
      case Some((d, resno)) =>
        assert forall k | 0 < k < d + 1 :: inputs[k] == inputs[1..][k - 1];
        Some((d + 1, resno))
  }

  predicate SlotIs(s: Slot, depth: int, resno: int)
  {
    s.depth == depth && s.resno == resno
  }

  function FindSlot(kvars: seq<Slot>, depth: int, resno: int): (r: Option<nat>)
    ensures r.None? <==> forall i | 0 <= i < |kvars| :: !SlotIs(kvars[i], depth, resno)
    ensures r.Some? ==> (r.value < |kvars| && SlotIs(kvars[r.value], depth, resno)
      && forall i | 0 <= i < r.value :: !SlotIs(kvars[i], depth, resno))
  {
    if kvars == [] then None
    else if SlotIs(kvars[0], depth, resno) then Some(0)
    else
      match FindSlot(kvars[1..], depth, resno)
      case None => None
      case Some(i) =>
        assert forall k | 0 < k < i + 1 :: kvars[k] == kvars[1..][k - 1];
        Some(i + 1)
  }

  /**
   * The slot of a (depth, resno) pair: the one already holding the pair,
   * or a new one appended at the end.
   */
  function SlotFor(kvars: seq<Slot>, depth: int, resno: int, typ: Oid): (r: (seq<Slot>, nat))
    ensures r.1 < |r.0| && SlotIs(r.0[r.1], depth, resno)
    ensures (exists i | 0 <= i < |kvars| :: SlotIs(kvars[i], depth, resno)) ==>
      r.0 == kvars && forall i | 0 <= i < r.1 :: !SlotIs(kvars[i], depth, resno)
    ensures (forall i | 0 <= i < |kvars| :: !SlotIs(kvars[i], depth, resno)) ==>
      r.0 == kvars + [Slot(depth, resno, typ)] && r.1 == |kvars|
  {
    match FindSlot(kvars, depth, resno)
    case Some(i) => (kvars, i)
    case None => (kvars + [Slot(depth, resno, typ)], |kvars|)
  }

  /** No two slots referring to input relations hold the same (depth, resno) pair. */
  predicate InputSlotsUnique(kvars: seq<Slot>)
  {
    forall i, j | 0 <= i < j < |kvars| && kvars[i].depth >= 0 :: !SlotIs(kvars[j], kvars[i].depth, kvars[i].resno)
  }

  /** Allocating a slot for an input reference keeps the slots unique, and asking again returns the same slot. */
  lemma SlotForUnique(kvars: seq<Slot>, depth: int, resno: int, typ: Oid)
    ensures InputSlotsUnique(kvars) && depth >= 0 ==> InputSlotsUnique(SlotFor(kvars, depth, resno, typ).0)
    ensures var (k2, id) := SlotFor(kvars, depth, resno, typ);
      SlotFor(k2, depth, resno, typ) == (k2, id)
  {
    var (k2, id) := SlotFor(kvars, depth, resno, typ);
    if FindSlot(kvars, depth, resno).None? && InputSlotsUnique(kvars) && depth >= 0 {
      forall i, j | 0 <= i < j < |k2| && k2[i].depth >= 0
        ensures !SlotIs(k2[j], k2[i].depth, k2[i].resno)
      {
        if j == |kvars| {
          assert k2[j] == Slot(depth, resno, typ);
          assert k2[i] == kvars[i];
        }
      }
    }
    assert exists i | 0 <= i < |k2| :: SlotIs(k2[i], depth, resno) by {
      assert SlotIs(k2[id], depth, resno);
    }
  }

  /** The variable slot type: the device type, when its values need the slot buffer. */
  function SlotType(d: Option<DevType>): (r: Oid)
    ensures r != InvalidOid ==> d.Some? && KvarsSlotbuf in d.value.flags && r == d.value.oid
  {
    if d.Some? && KvarsSlotbuf in d.value.flags then d.value.oid else InvalidOid
  }

  /**
   * is_expression_equals_tlist: when an input relation provides `e`, the
   * slot of that reference (allocated if new); otherwise None. The type is
   * looked up before the slot list is searched, so a failed lookup fails
   * even a known reference.
   */
  function MatchInput(env: Env, ctx: Ctx, e: Expr): (r: Result<Option<(Ctx, nat)>>)
    ensures r.Ok? && r.value.None? <==> FindInput(ctx.inputs, e).None?
    ensures r.Ok? && r.value.Some? ==>
      var (c2, id) := r.value.value;
      var (depth, resno) := FindInput(ctx.inputs, e).value;
      && Evolves(ctx, c2) && c2.cost == ctx.cost && c2.params == ctx.params
      && id < |c2.kvars| && SlotIs(c2.kvars[id], depth, resno)
      && (id < |ctx.kvars| ==> c2 == ctx)
      && (id == |ctx.kvars| ==> |c2.kvars| == |ctx.kvars| + 1 && c2.refs == ctx.refs + [e])
    ensures r.Ok? && r.value.Some? && InputSlotsUnique(ctx.kvars) ==> InputSlotsUnique(r.value.value.0.kvars)
    ensures r.Err? ==> r.msg in CatalogErrors
  {
    match FindInput(ctx.inputs, e)
    case None => Ok(None)
    case Some((depth, resno)) =>
      var d :- TypeOf(env, ExprType(e));
      SlotForUnique(ctx.kvars, depth, resno, SlotType(d));
      var (kvars, id) := SlotFor(ctx.kvars, depth, resno, SlotType(d));
      if id < |ctx.kvars| then Ok(Some((ctx, id)))
      else Ok(Some((ctx.(kvars := kvars, refs := ctx.refs + [e]), id)))
  }

  // ---------------------------------------------------------------------
  // The walker (src/codegen.c:914-1234, 1311-1357)
  // ---------------------------------------------------------------------

  /** Types a Const or Param may have: base, enum, range or domain. */
  predicate ScalarType(env: Env, oid: Oid)
  {
    oid in env.sys.types && env.sys.types[oid].typtype in {Base, Enum, Range, Domain}
  }

  function AppendUnique(params: seq<Expr>, p: Expr): (r: seq<Expr>)
    ensures p in r && params <= r && (p in params ==> r == params) && |r| <= |params| + 1
  {
    if p in params then params else params + [p]
  }

  /** codegen_var_expression: a leaf referring to slot `slot`. */
  function VarNode(env: Env, ctx: Ctx, e: Expr, slot: nat): (r: Result<XNode>)
    ensures r.Ok? ==> (r.value.opcode == VarExpr && r.value.info == VarInfo(slot) && r.value.args == []
      && r.value.flags == ctx.flags)
  {
    var d :- TypeOf(env, ExprType(e));
    if d.None? then Err("type is not device supported")
    else Ok(XNode(d.value.code, VarExpr, ctx.flags, VarInfo(slot), []))
  }

  /** A non-null Const of a by-reference type of fixed length, whose value the generator cannot copy into a node. */
  predicate FixedByRef(e: Expr)
  {
    e.Const? && !e.isnull && !e.byval && e.constlen != -1
  }

  /** The elog(ERROR) the generator raises for such a Const (src/codegen.c:946). */
  const UnsupportedLength := "unsupported type length"

  /**
   * codegen_const_expression. The length test sits inside `if (buf)`
   * (src/codegen.c:933-946), so a walk that only checks never makes it.
   */
  function ConstNode(env: Env, ctx: Ctx, e: Expr): (r: Result<XNode>)
    requires e.Const?
    ensures r.Ok? ==> (r.value.opcode == ConstExpr && r.value.args == [] && r.value.flags == ctx.flags
      && r.value.info == ConstInfo(e.consttype, e.isnull, if e.isnull then [] else e.datum))
    ensures !ScalarType(env, e.consttype) ==> r.Err?
    ensures r.Ok? && !ctx.checking ==> !FixedByRef(e)
    ensures r == Err(UnsupportedLength) ==> !ctx.checking && FixedByRef(e)
  {
    if !ScalarType(env, e.consttype) then Err("unable to use type in Const expression")
    else
      var d :- TypeOf(env, e.consttype);
      if d.None? then Err("type is not device supported")
      else if !ctx.checking && FixedByRef(e) then Err(UnsupportedLength)
      else
        var value := if e.isnull then [] else e.datum;
        Ok(XNode(d.value.code, ConstExpr, ctx.flags, ConstInfo(e.consttype, e.isnull, value), []))
  }

  /** codegen_param_expression: also records the parameter among those used. */
  function ParamNode(env: Env, ctx: Ctx, e: Expr): (r: Result<(Ctx, XNode)>)
    requires e.Param?
    ensures r.Ok? ==> (Evolves(ctx, r.value.0) && r.value.0.kvars == ctx.kvars && e in r.value.0.params
      && r.value.1.opcode == ParamExpr && r.value.1.args == [] && r.value.1.flags == ctx.flags
      && r.value.1.info == ParamInfo(e.paramid))
    ensures e.kind != ParamExtern ==> r.Err?
  {
    if e.kind != ParamExtern then Err("Only PARAM_EXTERN is supported on device")
    else if !ScalarType(env, e.paramtype) then Err("unable to use type in Const expression")
    else
      var d :- TypeOf(env, e.paramtype);
      if d.None? then Err("type is not device supported")
      else Ok((ctx.(params := AppendUnique(ctx.params, e)),
               XNode(d.value.code, ParamExpr, ctx.flags, ParamInfo(e.paramid), [])))
  }

  function BoolOpcode(op: BoolOp): Opcode
  {
    match op
    case AndExpr => BoolAnd
    case OrExpr => BoolOr
    case NotExpr => BoolNot
  }

  /**
   * The walker as its callers in the projection and group-by builders see
   * it: only what Walk promises, not how it gets there.
   */
  method WalkExpr(env: Env, ctx: Ctx, e: Expr) returns (r: Result<(Ctx, XNode)>)
    ensures r.Ok? ==> (Evolves(ctx, r.value.0) && Stamped(r.value.1, ctx.flags)
      && SlotsBelow(r.value.1, |r.value.0.kvars|))
    ensures r.Ok? && InputSlotsUnique(ctx.kvars) ==> InputSlotsUnique(r.value.0.kvars)
  {
    r := Walk(env, ctx, e);
  }

  /** codegen_expression_walker: an input reference first, then by node kind. */
  function Walk(env: Env, ctx: Ctx, e: Expr): (r: Result<(Ctx, XNode)>)
    decreases e, 0
    ensures r.Ok? ==> (Evolves(ctx, r.value.0) && Stamped(r.value.1, ctx.flags)
      && SlotsBelow(r.value.1, |r.value.0.kvars|))
    ensures r.Ok? && InputSlotsUnique(ctx.kvars) ==> InputSlotsUnique(r.value.0.kvars)
  {
    var m :- MatchInput(env, ctx, e);
    if m.Some? then
      var (c1, slot) := m.value;
      var v :- VarNode(env, c1, e, slot);
      Ok((c1, v))
    else
      match e
      case Const(_, _, _, _, _, _) =>
        var x :- ConstNode(env, ctx, e);
        Ok((ctx, x))
      case Param(_, _, _, _) => ParamNode(env, ctx, e)
      case FuncExpr(fid, args, coll, _) => WalkCall(env, ctx, fid, args, coll)
      case OpExpr(fid, args, coll, _) => WalkCall(env, ctx, fid, args, coll)
      case BoolExpr(op, args) => WalkBool(env, ctx, op, args)
      case NullTest(kind, arg) => WalkTest(env, ctx, NullTestOp(kind), arg)
      case BooleanTest(kind, arg) => WalkTest(env, ctx, BoolTestOp(kind), arg)
      case _ => Err("not a supported expression type")
  }

  /** codegen_bool_expression: AND and OR need two or more arguments, NOT exactly one. */
  function WalkBool(env: Env, ctx: Ctx, op: BoolOp, args: seq<Expr>): (r: Result<(Ctx, XNode)>)
    decreases args, 1
    ensures r.Ok? ==> (Evolves(ctx, r.value.0) && Stamped(r.value.1, ctx.flags)
      && SlotsBelow(r.value.1, |r.value.0.kvars|))
    ensures r.Ok? && InputSlotsUnique(ctx.kvars) ==> InputSlotsUnique(r.value.0.kvars)
    ensures r.Ok? ==> (r.value.1.exptype == "bool" && r.value.1.opcode == BoolOpcode(op)
      && |r.value.1.args| == |args| && if op == NotExpr then |args| == 1 else |args| >= 2)
  {
    if op == AndExpr && |args| < 2 then Err("BoolExpr(AND) must have 2 or more arguments")
    else if op == OrExpr && |args| < 2 then Err("BoolExpr(OR) must have 2 or more arguments")
    // the source reports a NOT with other than one argument under OR's name
    else if op == NotExpr && |args| != 1 then Err("BoolExpr(OR) must not have multiple arguments")
    else
      var (c1, kids) :- WalkAll(env, ctx, args);
      Ok((c1, XNode("bool", BoolOpcode(op), ctx.flags, NoInfo, kids)))
  }

  /** codegen_nulltest_expression and codegen_booleantest_expression: one argument, a bool result. */
  function WalkTest(env: Env, ctx: Ctx, op: Opcode, arg: Expr): (r: Result<(Ctx, XNode)>)
    decreases arg, 1
    ensures r.Ok? ==> (Evolves(ctx, r.value.0) && Stamped(r.value.1, ctx.flags)
      && SlotsBelow(r.value.1, |r.value.0.kvars|))
    ensures r.Ok? && InputSlotsUnique(ctx.kvars) ==> InputSlotsUnique(r.value.0.kvars)
    ensures r.Ok? ==> r.value.1.exptype == "bool" && r.value.1.opcode == op && |r.value.1.args| == 1
  {
    TestNode(op, ctx.flags, Walk(env, ctx, arg))
  }

  /** The test node over the walked argument, or the argument's error. */
  function TestNode(op: Opcode, flags: bv32, w: Result<(Ctx, XNode)>): (r: Result<(Ctx, XNode)>)
    ensures w.Err? <==> r.Err?
    ensures w.Err? ==> r.msg == w.msg
    ensures r.Ok? ==> (r.value.0 == w.value.0 && r.value.1.args == [w.value.1]
      && r.value.1.opcode == op && r.value.1.flags == flags && r.value.1.exptype == "bool")
  {
    match w
    case Ok((c, kid)) => Ok((c, XNode("bool", op, flags, NoInfo, [kid])))
    case Err(m) => Err(m)
  }

  /**
   * __codegen_func_expression: the function must exist on the device and
   * support every required device kind; its cost is charged before the
   * arguments are walked.
   */
  function WalkCall(env: Env, ctx: Ctx, fid: Oid, args: seq<Expr>, collid: Oid): (r: Result<(Ctx, XNode)>)
    decreases args, 1
    ensures r.Ok? ==> (Evolves(ctx, r.value.0) && Stamped(r.value.1, ctx.flags)
      && SlotsBelow(r.value.1, |r.value.0.kvars|))
    ensures r.Ok? && InputSlotsUnique(ctx.kvars) ==> InputSlotsUnique(r.value.0.kvars)
    ensures r.Ok? ==> r.value.1.opcode.FuncCall? && |r.value.1.args| == |args|
  {
    match Callable(env, ctx.required, fid, TypesOf(args), collid)
    case Err(m) => Err(m)
    case Ok(f) => CallNode(f, ctx.flags, WalkAll(env, Charge(ctx, f.cost), args))
  }

  /** The context with `n` added to the accumulated device cost. */
  function Charge(ctx: Ctx, n: nat): (c: Ctx)
    ensures Evolves(ctx, c) && c.kvars == ctx.kvars && c.cost == ctx.cost + n
  {
    ctx.(cost := ctx.cost + n)
  }

  /** The device function a call resolves to, if it exists and supports every required device kind. */
  function Callable(env: Env, required: set<Flag>, fid: Oid, argtypes: seq<Oid>, collid: Oid): (r: Result<DevFunc>)
    ensures r.Ok? ==> FuncOf(env, fid, argtypes, collid) == Ok(Some(r.value)) && required <= r.value.flags
    ensures var f := FuncOf(env, fid, argtypes, collid);
      f.Ok? && f.value.Some? && required <= f.value.value.flags ==> r == Ok(f.value.value)
  {
    var f :- FuncOf(env, fid, argtypes, collid);
    if f.None? || !(required <= f.value.flags) then Err("function is not supported on the target device")
    else Ok(f.value)
  }

  /** The call node over the walked arguments, or the arguments' error. */
  function CallNode(f: DevFunc, flags: bv32, w: Result<(Ctx, seq<XNode>)>): (r: Result<(Ctx, XNode)>)
    ensures w.Err? <==> r.Err?
    ensures w.Err? ==> r.msg == w.msg
    ensures r.Ok? ==> (r.value.0 == w.value.0 && r.value.1.args == w.value.1
      && r.value.1.opcode == FuncCall(f.code) && r.value.1.flags == flags)
  {
    match w
    case Ok((c, kids)) => Ok((c, XNode(f.rettype.code, FuncCall(f.code), flags, NoInfo, kids)))
    case Err(m) => Err(m)
  }

  function WalkAll(env: Env, ctx: Ctx, es: seq<Expr>): (r: Result<(Ctx, seq<XNode>)>)
    decreases es, 0
    ensures r.Ok? ==> (Evolves(ctx, r.value.0) && |r.value.1| == |es|
      && forall k | 0 <= k < |es| :: Stamped(r.value.1[k], ctx.flags) && SlotsBelow(r.value.1[k], |r.value.0.kvars|))
    ensures r.Ok? && InputSlotsUnique(ctx.kvars) ==> InputSlotsUnique(r.value.0.kvars)
  {
    if es == [] then Ok((ctx, []))
    else
      var (c1, x) :- Walk(env, ctx, es[0]);
      var (c2, xs) :- WalkAll(env, c1, es[1..]);
      SlotsBelowMono(x, |c1.kvars|, |c2.kvars|);
      Ok((c2, [x] + xs))
  }

  lemma {:induction false} SlotsBelowMono(x: XNode, n: nat, m: nat)
    requires SlotsBelow(x, n) && n <= m
    ensures SlotsBelow(x, m)
    decreases x
  {
    forall k | 0 <= k < |x.args| ensures SlotsBelow(x.args[k], m) {
      SlotsBelowMono(x.args[k], n, m);
    }
  }

  /** A reference to an input relation becomes a Var node on the slot of that (depth, resno) pair. */
  lemma WalkInputRef(env: Env, ctx: Ctx, e: Expr)
    requires FindInput(ctx.inputs, e).Some? && Walk(env, ctx, e).Ok?
    ensures var (c2, x) := Walk(env, ctx, e).value;
      var (depth, resno) := FindInput(ctx.inputs, e).value;
      && x.opcode == VarExpr && x.args == [] && x.info.VarInfo?
      && x.info.slot < |c2.kvars| && SlotIs(c2.kvars[x.info.slot], depth, resno)
  {
    var m := MatchInput(env, ctx, e);
    assert m.Ok? && m.value.Some?;
  }

  /**
   * Any other expression is dispatched by kind: AND and OR get two or more
   * children and NOT one, null tests and boolean tests one child and a
   * bool result, a function or operator call one child per argument; a
   * column of no input relation and any other kind are refused.
   */
  lemma WalkDispatch(env: Env, ctx: Ctx, e: Expr)
    requires FindInput(ctx.inputs, e).None?
    ensures Walk(env, ctx, e).Ok? ==> Dispatched(e, Walk(env, ctx, e).value.1)
    ensures e.Unsupported? || e.Var? ==> Walk(env, ctx, e).Err?
  {
    assert MatchInput(env, ctx, e) == Ok(None);
    if e.BoolExpr? {
      DispatchBool(env, ctx, e);
    } else if e.NullTest? || e.BooleanTest? {
      DispatchTest(env, ctx, e);
    } else if e.FuncExpr? || e.OpExpr? {
      DispatchCall(env, ctx, e);
    }
  }

  lemma DispatchBool(env: Env, ctx: Ctx, e: Expr)
    requires e.BoolExpr? && MatchInput(env, ctx, e) == Ok(None)
    ensures Walk(env, ctx, e).Ok? ==> Dispatched(e, Walk(env, ctx, e).value.1)
  {
    assert Walk(env, ctx, e) == WalkBool(env, ctx, e.boolop, e.args);
  }

  lemma DispatchTest(env: Env, ctx: Ctx, e: Expr)
    requires (e.NullTest? || e.BooleanTest?) && MatchInput(env, ctx, e) == Ok(None)
    ensures Walk(env, ctx, e).Ok? ==> Dispatched(e, Walk(env, ctx, e).value.1)
  {
    if e.NullTest? {
      assert Walk(env, ctx, e) == WalkTest(env, ctx, NullTestOp(e.nullKind), e.arg);
    } else {
      assert Walk(env, ctx, e) == WalkTest(env, ctx, BoolTestOp(e.testKind), e.arg);
    }
  }

  lemma DispatchCall(env: Env, ctx: Ctx, e: Expr)
    requires (e.FuncExpr? || e.OpExpr?) && MatchInput(env, ctx, e) == Ok(None)
    ensures Walk(env, ctx, e).Ok? ==> Dispatched(e, Walk(env, ctx, e).value.1)
  {
    if e.FuncExpr? {
      assert Walk(env, ctx, e) == WalkCall(env, ctx, e.funcid, e.args, e.collid);
    } else {
      assert Walk(env, ctx, e) == WalkCall(env, ctx, e.opfuncid, e.args, e.collid);
    }
  }

  /** The node an expression that is no input reference becomes. */
  predicate Dispatched(e: Expr, x: XNode)
  {
    match e
    case Var(_, _, _, _) => false
    case Unsupported(_, _) => false
    case Const(_, _, _, _, _, _) => x.opcode == ConstExpr && x.args == []
    case Param(_, _, _, _) => x.opcode == ParamExpr && x.args == [] && e.kind == ParamExtern
    case FuncExpr(_, args, _, _) => x.opcode.FuncCall? && |x.args| == |args|
    case OpExpr(_, args, _, _) => x.opcode.FuncCall? && |x.args| == |args|
    case BoolExpr(op, args) =>
      && x.exptype == "bool" && x.opcode == BoolOpcode(op) && |x.args| == |args|
      && (if op == NotExpr then |args| == 1 else |args| >= 2)
    case NullTest(kind, _) => x.exptype == "bool" && x.opcode == NullTestOp(kind) && |x.args| == 1
    case BooleanTest(kind, _) => x.exptype == "bool" && x.opcode == BoolTestOp(kind) && |x.args| == 1
  }

  // ---------------------------------------------------------------------
  // The walk that only checks (buf NULL) against the one that generates
  // ---------------------------------------------------------------------

  /** Somewhere in the tree, a Const the generator cannot copy. */
  predicate FixedByRefIn(e: Expr)
    decreases e, 1
  {
    match e
    case FuncExpr(_, args, _, _) => FixedByRefAmong(args)
    case OpExpr(_, args, _, _) => FixedByRefAmong(args)
    case BoolExpr(_, args) => FixedByRefAmong(args)
    case NullTest(_, arg) => FixedByRefIn(arg)
    case BooleanTest(_, arg) => FixedByRefIn(arg)
    case _ => FixedByRef(e)
  }

  predicate FixedByRefAmong(es: seq<Expr>)
    decreases es, 0
  {
    exists k | 0 <= k < |es| :: FixedByRefIn(es[k])
  }

  /** The same context, for a walk without an output buffer. */
  function Unbuffered(ctx: Ctx): (c: Ctx)
    ensures c.checking && c.kvars == ctx.kvars && c.cost == ctx.cost && c.flags == ctx.flags
  {
    ctx.(checking := true)
  }

  /**
   * How a walk that only checks ends, given how the generating walk ends:
   * where generation succeeds, the check succeeds with the same node and
   * the same context; where generation fails with any error but the length
   * error, the check fails with the same error. Only after a length error
   * may the two differ.
   */
  predicate CheckedAs<X(==)>(g: Result<(Ctx, X)>, k: Result<(Ctx, X)>)
  {
    && (g.Ok? ==> k == Ok((Unbuffered(g.value.0), g.value.1)))
    && (g.Err? && g.msg != UnsupportedLength ==> k == Err(g.msg))
  }

  lemma MatchInputChecking(env: Env, ctx: Ctx, e: Expr)
    ensures var g := MatchInput(env, ctx, e);
      var k := MatchInput(env, Unbuffered(ctx), e);
      && (g.Err? ==> k == g)
      && (g.Ok? && g.value.None? ==> k == g)
      && (g.Ok? && g.value.Some? ==> k == Ok(Some((Unbuffered(g.value.value.0), g.value.value.1))))
  {
  }

  lemma {:induction false} WalkChecking(env: Env, ctx: Ctx, e: Expr)
    requires !ctx.checking
    decreases e, 1
    ensures CheckedAs(Walk(env, ctx, e), Walk(env, Unbuffered(ctx), e))
    ensures Walk(env, ctx, e) == Err(UnsupportedLength) ==> FixedByRefIn(e)
  {
    var k0 := Unbuffered(ctx);
    MatchInputChecking(env, ctx, e);
    var m := MatchInput(env, ctx, e);
    if m.Err? {
      assert Walk(env, ctx, e) == Err(m.msg) && Walk(env, k0, e) == Err(m.msg);
    } else if m.value.Some? {
      VarChecking(env, ctx, e);
    } else {
      WalkKindChecking(env, ctx, e);
    }
  }

  /** An expression an input relation provides becomes a variable reference, with or without a buffer. */
  lemma VarChecking(env: Env, ctx: Ctx, e: Expr)
    requires !ctx.checking && MatchInput(env, ctx, e).Ok? && MatchInput(env, ctx, e).value.Some?
    ensures CheckedAs(Walk(env, ctx, e), Walk(env, Unbuffered(ctx), e))
    ensures Walk(env, ctx, e) != Err(UnsupportedLength)
  {
    MatchInputChecking(env, ctx, e);
    var (c1, slot) := MatchInput(env, ctx, e).value.value;
    assert VarNode(env, Unbuffered(c1), e, slot) == VarNode(env, c1, e, slot);
  }

  /** The same, for an expression that no input relation provides: by node kind. */
  lemma {:induction false} WalkKindChecking(env: Env, ctx: Ctx, e: Expr)
    requires !ctx.checking && MatchInput(env, ctx, e) == Ok(None)
    decreases e, 0
    ensures CheckedAs(Walk(env, ctx, e), Walk(env, Unbuffered(ctx), e))
    ensures Walk(env, ctx, e) == Err(UnsupportedLength) ==> FixedByRefIn(e)
  {
    var k0 := Unbuffered(ctx);
    MatchInputChecking(env, ctx, e);
    if e.FuncExpr? || e.OpExpr? {
      var fid := if e.FuncExpr? then e.funcid else e.opfuncid;
      assert Walk(env, ctx, e) == WalkCall(env, ctx, fid, e.args, e.collid);
      assert Walk(env, k0, e) == WalkCall(env, k0, fid, e.args, e.collid);
      WalkCallChecking(env, ctx, fid, e.args, e.collid);
    } else if e.BoolExpr? {
      assert Walk(env, ctx, e) == WalkBool(env, ctx, e.boolop, e.args);
      assert Walk(env, k0, e) == WalkBool(env, k0, e.boolop, e.args);
      WalkBoolChecking(env, ctx, e.boolop, e.args);
    } else if e.NullTest? || e.BooleanTest? {
      var op := if e.NullTest? then NullTestOp(e.nullKind) else BoolTestOp(e.testKind);
      assert Walk(env, ctx, e) == WalkTest(env, ctx, op, e.arg);
      assert Walk(env, k0, e) == WalkTest(env, k0, op, e.arg);
      WalkTestChecking(env, ctx, op, e.arg);
    } else {
      WalkLeafChecking(env, ctx, e);
    }
  }

  /** Leaves: a Const, a Param, or a node kind the walker refuses. */
  lemma WalkLeafChecking(env: Env, ctx: Ctx, e: Expr)
    requires !ctx.checking && MatchInput(env, ctx, e) == Ok(None)
    requires e.Const? || e.Param? || e.Var? || e.Unsupported?
    ensures CheckedAs(Walk(env, ctx, e), Walk(env, Unbuffered(ctx), e))
    ensures Walk(env, ctx, e) == Err(UnsupportedLength) ==> FixedByRefIn(e)
  {
    MatchInputChecking(env, ctx, e);
    if e.Const? {
      ConstChecking(env, ctx, e);
    } else if e.Param? {
      ParamChecking(env, ctx, e);
      assert Walk(env, ctx, e) == ParamNode(env, ctx, e);
      assert Walk(env, Unbuffered(ctx), e) == ParamNode(env, Unbuffered(ctx), e);
    }
  }

  /** A Const: only the length error depends on whether there is a buffer. */
  lemma ConstChecking(env: Env, ctx: Ctx, e: Expr)
    requires !ctx.checking && e.Const?
    ensures var g := ConstNode(env, ctx, e);
      && (g.Ok? ==> ConstNode(env, Unbuffered(ctx), e) == g)
      && (g.Err? && g.msg != UnsupportedLength ==> ConstNode(env, Unbuffered(ctx), e) == g)
  {
  }

  lemma ParamChecking(env: Env, ctx: Ctx, e: Expr)
    requires !ctx.checking && e.Param?
    ensures CheckedAs(ParamNode(env, ctx, e), ParamNode(env, Unbuffered(ctx), e))
  {
  }

  lemma {:induction false} WalkBoolChecking(env: Env, ctx: Ctx, op: BoolOp, args: seq<Expr>)
    requires !ctx.checking
    decreases args, 2
    ensures CheckedAs(WalkBool(env, ctx, op, args), WalkBool(env, Unbuffered(ctx), op, args))
    ensures WalkBool(env, ctx, op, args) == Err(UnsupportedLength) ==> FixedByRefAmong(args)
  {
    WalkAllChecking(env, ctx, args);
  }

  lemma {:induction false} WalkTestChecking(env: Env, ctx: Ctx, op: Opcode, arg: Expr)
    requires !ctx.checking
    decreases arg, 2
    ensures CheckedAs(WalkTest(env, ctx, op, arg), WalkTest(env, Unbuffered(ctx), op, arg))
    ensures WalkTest(env, ctx, op, arg) == Err(UnsupportedLength) ==> FixedByRefIn(arg)
  {
    var g := Walk(env, ctx, arg);
    var k := Walk(env, Unbuffered(ctx), arg);
    WalkChecking(env, ctx, arg);
    assert WalkTest(env, ctx, op, arg) == TestNode(op, ctx.flags, g);
    assert WalkTest(env, Unbuffered(ctx), op, arg) == TestNode(op, ctx.flags, k);
    TestNodeChecked(op, ctx.flags, g, k);
  }

  lemma TestNodeChecked(op: Opcode, flags: bv32, g: Result<(Ctx, XNode)>, k: Result<(Ctx, XNode)>)
    requires CheckedAs(g, k)
    ensures CheckedAs(TestNode(op, flags, g), TestNode(op, flags, k))
    ensures TestNode(op, flags, g) == Err(UnsupportedLength) ==> g == Err(UnsupportedLength)
  {
  }

  lemma {:induction false} WalkCallChecking(env: Env, ctx: Ctx, fid: Oid, args: seq<Expr>, collid: Oid)
    requires !ctx.checking
    decreases args, 3
    ensures CheckedAs(WalkCall(env, ctx, fid, args, collid), WalkCall(env, Unbuffered(ctx), fid, args, collid))
    ensures WalkCall(env, ctx, fid, args, collid) == Err(UnsupportedLength) ==> FixedByRefAmong(args)
  {
    var f := Callable(env, ctx.required, fid, TypesOf(args), collid);
    if f.Ok? {
      WalkCallFoundChecking(env, ctx, fid, args, collid, f.value);
    }
  }

  /** A usable function: the call node is built over whatever the arguments' walks give. */
  lemma {:induction false} WalkCallFoundChecking(env: Env, ctx: Ctx, fid: Oid, args: seq<Expr>, collid: Oid, f: DevFunc)
    requires !ctx.checking && Callable(env, ctx.required, fid, TypesOf(args), collid) == Ok(f)
    decreases args, 2
    ensures CheckedAs(WalkCall(env, ctx, fid, args, collid), WalkCall(env, Unbuffered(ctx), fid, args, collid))
    ensures WalkCall(env, ctx, fid, args, collid) == Err(UnsupportedLength) ==> FixedByRefAmong(args)
  {
    var k0 := Unbuffered(ctx);
    var c1 := Charge(ctx, f.cost);
    assert Charge(k0, f.cost) == Unbuffered(c1);
    assert WalkCall(env, ctx, fid, args, collid) == CallNode(f, ctx.flags, WalkAll(env, c1, args));
    assert WalkCall(env, k0, fid, args, collid) == CallNode(f, ctx.flags, WalkAll(env, Charge(k0, f.cost), args));
    WalkAllChecking(env, c1, args);
  }


  lemma {:induction false} WalkAllChecking(env: Env, ctx: Ctx, es: seq<Expr>)
    requires !ctx.checking
    decreases es, 1
    ensures CheckedAs(WalkAll(env, ctx, es), WalkAll(env, Unbuffered(ctx), es))
    ensures WalkAll(env, ctx, es) == Err(UnsupportedLength) ==> FixedByRefAmong(es)
  {
    if es != [] {
      WalkChecking(env, ctx, es[0]);
      var g := Walk(env, ctx, es[0]);
      if g.Ok? {
        var c1 := g.value.0;
        WalkAllChecking(env, c1, es[1..]);
        if WalkAll(env, c1, es[1..]) == Err(UnsupportedLength) {
          var k :| 0 <= k < |es[1..]| && FixedByRefIn(es[1..][k]);
          assert es[k + 1] == es[1..][k];
        }
      }
    }
  }

  /** Where the tree holds no Const the generator cannot copy, checking and generating end alike. */
  lemma WalkCheckingAgrees(env: Env, ctx: Ctx, e: Expr)
    requires !ctx.checking && !FixedByRefIn(e)
    ensures var g := Walk(env, ctx, e);
      var k := Walk(env, Unbuffered(ctx), e);
      && (g.Ok? <==> k.Ok?)
      && (g.Ok? ==> k.value == (Unbuffered(g.value.0), g.value.1))
      && (g.Err? ==> k == Err(g.msg))
  {
    WalkChecking(env, ctx, e);
  }

  /**
   * A non-null Const of a fixed-length by-reference device type, outside
   * every input relation: the check accepts it at no cost, and generation
   * raises "unsupported type length".
   */
  lemma FixedByRefChecked(env: Env, ctx: Ctx, e: Expr)
    requires !ctx.checking && FixedByRef(e) && FindInput(ctx.inputs, e).None?
    requires ScalarType(env, e.consttype) && TypeOf(env, e.consttype).Ok? && TypeOf(env, e.consttype).value.Some?
    ensures Walk(env, ctx, e) == Err(UnsupportedLength)
    ensures Walk(env, Unbuffered(ctx), e).Ok?
    ensures Walk(env, Unbuffered(ctx), e).value.0 == Unbuffered(ctx)
  {
    assert MatchInput(env, ctx, e) == Ok(None);
    assert MatchInput(env, Unbuffered(ctx), e) == Ok(None);
  }
}
