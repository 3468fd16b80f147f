/**
 * LoadVars nodes (src/codegen.c:1359-1505): for one depth, the list of
 * slots the device loads from that input relation, sorted by column
 * number, each typed slot given an aligned place in the slot buffer; and
 * the Packed node holding one LoadVars per joined depth.
 */
module CodegenLoadVars {
  import opened Wrappers
  import opened Align
  import opened DevCatalog
  import opened CodegenExpr

  /** sizeof(kern_variable) and sizeof(int); kern_variable is declared in xpu_common.h, which is not part of this model. */
  const KERN_VARIABLE_SIZE: nat := 16
  const INT_SIZE: nat := 4

  function SlotsOf(items: seq<LoadItem>): set<nat>
  {
    set it | it in items :: it.slot
  }

  predicate Typed(kvars: seq<Slot>, it: LoadItem)
  {
    it.slot < |kvars| && kvars[it.slot].typ != InvalidOid
  }

  /**
   * The items of the slots `i..` whose depth is `depth`, in slot order; a
   * typed slot is placed at the next boundary of its type at or after
   * `off`, and the second component is where the next one may go.
   */
  function Collect(env: Env, kvars: seq<Slot>, depth: int, i: nat, off: nat): (r: (seq<LoadItem>, nat))
    requires i <= |kvars|
    decreases |kvars| - i
    ensures off <= r.1
  {
    if i == |kvars| then ([], off)
    else if kvars[i].depth != depth then Collect(env, kvars, depth, i + 1, off)
    else if kvars[i].typ == InvalidOid then
      var (rest, end) := Collect(env, kvars, depth, i + 1, off);
      ([LoadItem(kvars[i].resno, i, 0)] + rest, end)
    else
      var t := kvars[i].typ;
      var at := TypeAlign(env.slotAlign(t), off);
      var (rest, end) := Collect(env, kvars, depth, i + 1, at + env.slotSize(t));
      ([LoadItem(kvars[i].resno, i, at)] + rest, end)
  }

  /** Collect takes exactly the slots of the depth, in increasing slot order, with their column numbers. */
  lemma {:induction false} CollectMembers(env: Env, kvars: seq<Slot>, depth: int, i: nat, off: nat)
    requires i <= |kvars|
    decreases |kvars| - i
    ensures var items := Collect(env, kvars, depth, i, off).0;
      && (forall j | i <= j < |kvars| :: kvars[j].depth == depth <==> j in SlotsOf(items))
      && (forall it | it in items :: i <= it.slot < |kvars| && it.resno == kvars[it.slot].resno)
      && (forall a, b | 0 <= a < b < |items| :: items[a].slot < items[b].slot)
  {
    if i < |kvars| {
      var t := kvars[i].typ;
      var next := if kvars[i].depth != depth || t == InvalidOid then off
                  else TypeAlign(env.slotAlign(t), off) + env.slotSize(t);
      CollectMembers(env, kvars, depth, i + 1, next);
    }
  }

  /**
   * An untyped slot gets offset 0; a typed one an offset on its type's
   * boundary at or after `off`, its value ending before `end` and before
   * every later typed item.
   */
  predicate OffsetsOk(env: Env, kvars: seq<Slot>, items: seq<LoadItem>, off: nat, end: nat)
  {
    && (forall it | it in items && !Typed(kvars, it) :: it.offset == 0)
    && (forall it | it in items && Typed(kvars, it) ::
          off <= it.offset && Aligned(env.slotAlign(kvars[it.slot].typ), it.offset)
          && it.offset + env.slotSize(kvars[it.slot].typ) <= end)
    && (forall a, b | 0 <= a < b < |items| && Typed(kvars, items[a]) && Typed(kvars, items[b]) ::
          items[a].offset + env.slotSize(kvars[items[a].slot].typ) <= items[b].offset)
  }

  lemma OffsetsCons(env: Env, kvars: seq<Slot>, it0: LoadItem, rest: seq<LoadItem>, off: nat, next: nat, end: nat)
    requires OffsetsOk(env, kvars, rest, next, end) && off <= next <= end
    requires !Typed(kvars, it0) ==> it0.offset == 0
    requires Typed(kvars, it0) ==>
      off <= it0.offset && Aligned(env.slotAlign(kvars[it0.slot].typ), it0.offset)
      && it0.offset + env.slotSize(kvars[it0.slot].typ) <= next
    ensures OffsetsOk(env, kvars, [it0] + rest, off, end)
  {
    var items := [it0] + rest;
    forall a, b | 0 <= a < b < |items| && Typed(kvars, items[a]) && Typed(kvars, items[b])
      ensures items[a].offset + env.slotSize(kvars[items[a].slot].typ) <= items[b].offset
    {
      if a > 0 {
        assert items[a] == rest[a - 1] && items[b] == rest[b - 1];
      } else {
        assert items[b] == rest[b - 1] && items[b] in rest;
      }
    }
  }

  /** The placement Collect gives every item it takes. */
  lemma {:induction false} CollectOffsets(env: Env, kvars: seq<Slot>, depth: int, i: nat, off: nat)
    requires i <= |kvars|
    decreases |kvars| - i
    ensures var (items, end) := Collect(env, kvars, depth, i, off); OffsetsOk(env, kvars, items, off, end)
  {
    if i < |kvars| {
      var t := kvars[i].typ;
      if kvars[i].depth != depth {
        CollectOffsets(env, kvars, depth, i + 1, off);
      } else if t == InvalidOid {
        CollectOffsets(env, kvars, depth, i + 1, off);
        var (rest, end) := Collect(env, kvars, depth, i + 1, off);
        OffsetsCons(env, kvars, LoadItem(kvars[i].resno, i, 0), rest, off, off, end);
      } else {
        var at := TypeAlign(env.slotAlign(t), off);
        AlignedAfterAlign(env.slotAlign(t), off);
        CollectOffsets(env, kvars, depth, i + 1, at + env.slotSize(t));
        var (rest, end) := Collect(env, kvars, depth, i + 1, at + env.slotSize(t));
        OffsetsCons(env, kvars, LoadItem(kvars[i].resno, i, at), rest, off, at + env.slotSize(t), end);
      }
    }
  }

  predicate SortedByResno(s: seq<LoadItem>)
  {
    forall a, b | 0 <= a < b < |s| :: s[a].resno <= s[b].resno
  }

  function Insert(x: LoadItem, s: seq<LoadItem>): (r: seq<LoadItem>)
    requires SortedByResno(s)
    ensures SortedByResno(r) && multiset(r) == multiset(s) + multiset{x}
    ensures forall it | it in r :: it == x || it in s
  {
    if s == [] || x.resno <= s[0].resno then [x] + s
    else
      var rest := Insert(x, s[1..]);
      InsertCons(x, s, rest);
      [s[0]] + rest
  }

  /** Putting the head of a sorted list in front of the insertion into its tail. */
  lemma InsertCons(x: LoadItem, s: seq<LoadItem>, rest: seq<LoadItem>)
    requires SortedByResno(s) && s != [] && s[0].resno < x.resno
    requires SortedByResno(rest) && multiset(rest) == multiset(s[1..]) + multiset{x}
    requires forall it | it in rest :: it == x || it in s[1..]
    ensures SortedByResno([s[0]] + rest) && multiset([s[0]] + rest) == multiset(s) + multiset{x}
    ensures forall it | it in [s[0]] + rest :: it == x || it in s
  {
    assert s == [s[0]] + s[1..];
    assert forall it | it in rest :: s[0].resno <= it.resno by {
      forall it | it in rest ensures s[0].resno <= it.resno {
        if it != x {
          var k :| 0 <= k < |s[1..]| && s[1..][k] == it;
          assert s[k + 1] == it;
        }
      }
    }
  }

  /** The qsort of the items by column number; qsort leaves the order of ties open, this model keeps them in slot order. */
  function SortByResno(s: seq<LoadItem>): (r: seq<LoadItem>)
    ensures SortedByResno(r) && multiset(r) == multiset(s)
  {
    if s == [] then []
    else
      assert s == [s[0]] + s[1..];
      Insert(s[0], SortByResno(s[1..]))
  }

  lemma SameMembers(s: seq<LoadItem>, t: seq<LoadItem>)
    requires multiset(s) == multiset(t)
    ensures forall it :: it in s <==> it in t
  {
    forall it ensures it in s <==> it in t {
      assert it in s <==> it in multiset(s);
      assert it in t <==> it in multiset(t);
    }
  }

  /** Room for a kern_variable and an int per slot precedes the typed values. */
  function SlotBufferBase(kvars: seq<Slot>): nat
  {
    |kvars| * (KERN_VARIABLE_SIZE + INT_SIZE)
  }

  /** __codegen_build_loadvars_one */
  function LoadVarsOne(env: Env, ctx: Ctx, depth: int): (r: XNode)
  {
    var (items, _) := Collect(env, ctx.kvars, depth, 0, SlotBufferBase(ctx.kvars));
    XNode("int4", LoadVars, ctx.flags, LoadInfo(depth, SortByResno(items)), [])
  }

  /**
   * A LoadVars node of depth d holds exactly the slots of depth d, ordered
   * by column number, each with its slot's column number.
   */
  lemma LoadVarsContents(env: Env, ctx: Ctx, depth: int)
    ensures var x := LoadVarsOne(env, ctx, depth);
      var kvars := ctx.kvars;
      && x.opcode == LoadVars && x.args == [] && x.info.LoadInfo? && x.info.depth == depth
      && SortedByResno(x.info.items)
      && (forall j | 0 <= j < |kvars| :: kvars[j].depth == depth <==> j in SlotsOf(x.info.items))
      && (forall it | it in x.info.items :: it.slot < |kvars| && it.resno == kvars[it.slot].resno)
  {
    var (items, _) := Collect(env, ctx.kvars, depth, 0, SlotBufferBase(ctx.kvars));
    CollectMembers(env, ctx.kvars, depth, 0, SlotBufferBase(ctx.kvars));
    SameMembers(items, SortByResno(items));
    assert SlotsOf(SortByResno(items)) == SlotsOf(items);
  }

  /**
   * A typed slot gets an offset past the per-slot headers, on its type's
   * boundary, and two typed slots never overlap, the lower slot id lying
   * lower.
   */
  lemma LoadVarsOffsets(env: Env, ctx: Ctx, depth: int)
    ensures var x := LoadVarsOne(env, ctx, depth);
      var kvars := ctx.kvars;
      && x.info.LoadInfo?
      && (forall it | it in x.info.items && !Typed(kvars, it) :: it.offset == 0)
      && (forall it | it in x.info.items && Typed(kvars, it) ::
            SlotBufferBase(kvars) <= it.offset && Aligned(env.slotAlign(kvars[it.slot].typ), it.offset))
      && (forall a, b | a in x.info.items && b in x.info.items && a.slot < b.slot && Typed(kvars, a) && Typed(kvars, b) ::
            a.offset + env.slotSize(kvars[a.slot].typ) <= b.offset)
  {
    var (items, _) := Collect(env, ctx.kvars, depth, 0, SlotBufferBase(ctx.kvars));
    CollectOffsets(env, ctx.kvars, depth, 0, SlotBufferBase(ctx.kvars));
    CollectDisjoint(env, ctx.kvars, depth, SlotBufferBase(ctx.kvars));
    SameMembers(items, SortByResno(items));
  }

  /** Two typed items of a collection never overlap, the lower slot id lying lower. */
  lemma CollectDisjoint(env: Env, kvars: seq<Slot>, depth: int, off: nat)
    ensures var (items, _) := Collect(env, kvars, depth, 0, off);
      forall a, b | a in items && b in items && a.slot < b.slot && Typed(kvars, a) && Typed(kvars, b) ::
        a.offset + env.slotSize(kvars[a.slot].typ) <= b.offset
  {
    var (items, _) := Collect(env, kvars, depth, 0, off);
    CollectMembers(env, kvars, depth, 0, off);
    CollectOffsets(env, kvars, depth, 0, off);
    forall a, b | a in items && b in items && a.slot < b.slot && Typed(kvars, a) && Typed(kvars, b)
      ensures a.offset + env.slotSize(kvars[a.slot].typ) <= b.offset
    {
      var ia :| 0 <= ia < |items| && items[ia] == a;
      var ib :| 0 <= ib < |items| && items[ib] == b;
      if ib <= ia {
        assert false;
      }
    }
  }

  /** The largest depth of an input-relation slot, -1 when there is none. */
  function MaxDepth(kvars: seq<Slot>): (r: int)
    ensures r >= -1
    ensures forall i | 0 <= i < |kvars| && kvars[i].depth >= 0 :: kvars[i].depth <= r
    ensures r >= 0 ==> exists i | 0 <= i < |kvars| :: kvars[i].depth == r
  {
    if kvars == [] then -1
    else
      var rest := MaxDepth(kvars[1..]);
      assert forall i | 1 <= i < |kvars| :: kvars[i] == kvars[1..][i - 1];
      if kvars[0].depth > rest then kvars[0].depth else rest
  }

  /** Slot `i` is among those a LoadVars node loads. */
  predicate Loads(x: XNode, i: nat)
  {
    x.info.LoadInfo? && i in SlotsOf(x.info.items)
  }

  /**
   * codegen_build_join_loadvars: nothing when no slot refers to a joined
   * relation (depth 1 or more); otherwise a Packed node whose entry d-1
   * is the LoadVars node of depth d, for every depth up to the largest.
   */
  function JoinLoadVars(env: Env, ctx: Ctx): (r: Option<XNode>)
    ensures r.Some? ==> (|r.value.args| == MaxDepth(ctx.kvars)
      && forall k | 0 <= k < |r.value.args| :: r.value.args[k] == LoadVarsOne(env, ctx, k + 1))
  {
    var m := MaxDepth(ctx.kvars);
    if m < 1 then None
    else
      Some(XNode("int4", Packed, ctx.flags, PackInfo(m, seq(m, i => i)),
                 seq(m, i requires 0 <= i < m => LoadVarsOne(env, ctx, i + 1))))
  }

  /** Every slot of a joined relation is loaded by the entry of its depth, and only by it. */
  lemma JoinLoadVarsCovers(env: Env, ctx: Ctx)
    ensures JoinLoadVars(env, ctx).None? <==> forall i | 0 <= i < |ctx.kvars| :: ctx.kvars[i].depth < 1
    ensures JoinLoadVars(env, ctx).Some? ==>
      var x := JoinLoadVars(env, ctx).value;
      forall i | 0 <= i < |ctx.kvars| && ctx.kvars[i].depth >= 1 ::
        && ctx.kvars[i].depth <= |x.args|
        && forall k | 0 <= k < |x.args| :: Loads(x.args[k], i) <==> ctx.kvars[i].depth == k + 1
  {
    var m := MaxDepth(ctx.kvars);
    forall d | 1 <= d <= m
      ensures forall i | 0 <= i < |ctx.kvars| :: Loads(LoadVarsOne(env, ctx, d), i) <==> ctx.kvars[i].depth == d
    {
      LoadVarsContents(env, ctx, d);
    }
  }

  /**
   * codegen_build_scan_loadvars: the LoadVars node of the scanned relation,
   * depth 0, holding exactly the slots of that depth. The node is built
   * even when no slot has depth 0, so the bytea is never NULL.
   */
  function ScanLoadVars(env: Env, ctx: Ctx): (r: XNode)
    ensures r.opcode == LoadVars && r.args == [] && r.info.LoadInfo? && r.info.depth == 0
    ensures SortedByResno(r.info.items)
    ensures forall j | 0 <= j < |ctx.kvars| :: ctx.kvars[j].depth == 0 <==> j in SlotsOf(r.info.items)
    ensures forall it | it in r.info.items :: it.slot < |ctx.kvars| && it.resno == ctx.kvars[it.slot].resno
  {
    LoadVarsContents(env, ctx, 0);
    LoadVarsOne(env, ctx, 0)
  }
}
