/**
 * The private state of a GpuJoin plan node and its round trip through the
 * plan tree (src/gpujoin.c:50-166): `form_gpujoin_info` flattens the
 * GpuJoinInfo record into two node lists, `custom_private` and
 * `custom_exprs`, and `deform_gpujoin_info` reads it back by position.
 *
 * PostgreSQL value nodes are modelled as a small `Node` datatype: an
 * Integer node holds a C `long`, a Float node holds the double it was
 * printed from, and lists hold further nodes. Expression trees that the
 * lists carry are opaque leaves here.
 */
module GpuJoinInfo {
  import opened Wrappers

  const TWO_31: int := 0x8000_0000
  const TWO_32: int := 0x1_0000_0000
  const TWO_63: int := 0x8000_0000_0000_0000
  const TWO_64: int := 0x1_0000_0000_0000_0000

  /** C `int`, `cl_uint`/`Oid`, `long` and `cl_ulong`. */
  type i32 = x: int | -TWO_31 <= x < TWO_31
  type u32 = x: int | 0 <= x < TWO_32
  type i64 = x: int | -TWO_63 <= x < TWO_63
  type u64 = x: int | 0 <= x < TWO_64

  datatype Node =
    | IntNode(ival: i64)
    | StrNode(sval: string)
    | FloatNode(fval: real)
    | ListNode(items: seq<Node>)
    | ExprLeaf(tag: nat)

  datatype GpuJoinInfo = GpuJoinInfo(
    numRels: i32,
    kernSource: string,
    extraFlags: i32,
    ccacheRefs: seq<Node>,
    usedParams: seq<Node>,
    outerQuals: seq<Node>,
    outerRatio: real,
    outerNrows: real,
    outerWidth: i32,
    outerStartupCost: real,
    outerTotalCost: real,
    outerNrowsPerBlock: u32,
    innerBufferTocKey: u64,
    indexOid: u32,
    indexConds: seq<Node>,
    indexQuals: seq<Node>,
    planNrowsIn: seq<Node>,
    planNrowsOut: seq<Node>,
    ichunkSize: seq<Node>,
    joinTypes: seq<Node>,
    joinQuals: seq<Node>,
    otherQuals: seq<Node>,
    hashInnerKeys: seq<Node>,
    hashOuterKeys: seq<Node>,
    psSrcDepth: seq<Node>,
    psSrcResno: seq<Node>,
    extraMaxlen: u32)

  // ---------------------------------------------------------------------
  // C integer conversions on the way into and out of an Integer node
  // ---------------------------------------------------------------------

  /** `cl_ulong` stored into a `long`: values of 2^63 and above wrap to negatives. */
  function U64ToLong(x: u64): (v: i64)
    ensures v % TWO_64 == x % TWO_64
  {
    if x < TWO_63 then x else x - TWO_64
  }

  /** `long` read back as `cl_ulong`: reduction modulo 2^64. */
  function LongToU64(v: i64): (x: u64)
    ensures x % TWO_64 == v % TWO_64
  {
    if v < 0 then v + TWO_64 else v
  }

  /** `long` read back as `int` or `cl_uint`: the low 32 bits, signed or not. */
  function LongToU32(v: i64): (x: u32)
    ensures x % TWO_32 == v % TWO_32
  {
    v % TWO_32
  }

  function LongToI32(v: i64): (x: i32)
    ensures x % TWO_32 == v % TWO_32
    ensures -TWO_31 <= v < TWO_31 ==> x == v
  {
    var u := v % TWO_32;
    if u < TWO_31 then u else u - TWO_32
  }

  // ---------------------------------------------------------------------
  // form / deform
  // ---------------------------------------------------------------------

  /** The node kinds `custom_private` holds, position by position. */
  predicate PrivsShaped(p: seq<Node>)
  {
    && |p| == 20
    && p[0].IntNode? && p[1].StrNode? && p[2].IntNode? && p[3].ListNode?
    && p[4].FloatNode? && p[5].FloatNode? && p[6].IntNode? && p[7].FloatNode?
    && p[8].FloatNode? && p[9].IntNode? && p[10].IntNode? && p[11].IntNode?
    && p[12].ListNode? && p[13].ListNode? && p[14].ListNode? && p[15].ListNode?
    && p[16].ListNode? && p[17].ListNode? && p[18].ListNode? && p[19].IntNode?
  }

  /** `custom_exprs` holds seven lists. */
  predicate ExprsShaped(e: seq<Node>)
  {
    && |e| == 7
    && e[0].ListNode? && e[1].ListNode? && e[2].ListNode? && e[3].ListNode?
    && e[4].ListNode? && e[5].ListNode? && e[6].ListNode?
  }

  predicate WellShaped(privs: seq<Node>, exprs: seq<Node>)
  {
    PrivsShaped(privs) && ExprsShaped(exprs)
  }

  /** form_gpujoin_info: the two lists, in the order the fields are appended. */
  function Form(g: GpuJoinInfo): (r: (seq<Node>, seq<Node>))
    ensures |r.0| == 20 && |r.1| == 7
  {
    ([IntNode(g.numRels), StrNode(g.kernSource), IntNode(g.extraFlags), ListNode(g.ccacheRefs),
      FloatNode(g.outerRatio), FloatNode(g.outerNrows), IntNode(g.outerWidth),
      FloatNode(g.outerStartupCost), FloatNode(g.outerTotalCost),
      IntNode(g.outerNrowsPerBlock), IntNode(U64ToLong(g.innerBufferTocKey)), IntNode(g.indexOid),
      ListNode(g.indexConds),
      ListNode(g.planNrowsIn), ListNode(g.planNrowsOut), ListNode(g.ichunkSize), ListNode(g.joinTypes),
      ListNode(g.psSrcDepth), ListNode(g.psSrcResno), IntNode(g.extraMaxlen)],
     [ListNode(g.usedParams), ListNode(g.outerQuals), ListNode(g.indexQuals),
      ListNode(g.joinQuals), ListNode(g.otherQuals), ListNode(g.hashInnerKeys), ListNode(g.hashOuterKeys)])
  }

  /**
   * deform_gpujoin_info. The source asserts that both lists are consumed
   * exactly; reading a node of the wrong kind is undefined there. The
   * model answers None for either.
   */
  function Deform(privs: seq<Node>, exprs: seq<Node>): (r: Option<GpuJoinInfo>)
    ensures r.Some? <==> WellShaped(privs, exprs)
  {
    if !WellShaped(privs, exprs) then None
    else
      Some(GpuJoinInfo(
        numRels := LongToI32(privs[0].ival),
        kernSource := privs[1].sval,
        extraFlags := LongToI32(privs[2].ival),
        ccacheRefs := privs[3].items,
        usedParams := exprs[0].items,
        outerQuals := exprs[1].items,
        outerRatio := privs[4].fval,
        outerNrows := privs[5].fval,
        outerWidth := LongToI32(privs[6].ival),
        outerStartupCost := privs[7].fval,
        outerTotalCost := privs[8].fval,
        outerNrowsPerBlock := LongToU32(privs[9].ival),
        innerBufferTocKey := LongToU64(privs[10].ival),
        indexOid := LongToU32(privs[11].ival),
        indexConds := privs[12].items,
        indexQuals := exprs[2].items,
        planNrowsIn := privs[13].items,
        planNrowsOut := privs[14].items,
        ichunkSize := privs[15].items,
        joinTypes := privs[16].items,
        joinQuals := exprs[3].items,
        otherQuals := exprs[4].items,
        hashInnerKeys := exprs[5].items,
        hashOuterKeys := exprs[6].items,
        psSrcDepth := privs[17].items,
        psSrcResno := privs[18].items,
        extraMaxlen := LongToU32(privs[19].ival)))
  }

  /** Reading back what was written gives the same record, the 64-bit key included. */
  lemma DeformForm(g: GpuJoinInfo)
    ensures Deform(Form(g).0, Form(g).1) == Some(g)
  {
    var (p, e) := Form(g);
    assert PrivsShaped(p) && ExprsShaped(e);
    assert LongToU64(U64ToLong(g.innerBufferTocKey)) == g.innerBufferTocKey;
    var d := Deform(p, e).value;
    assert d == g;
  }

  /**
   * The integer fields that came from narrower C types must hold values
   * of those types for the converse to hold.
   */
  predicate NarrowInts(privs: seq<Node>)
    requires PrivsShaped(privs)
  {
    && -TWO_31 <= privs[0].ival < TWO_31
    && -TWO_31 <= privs[2].ival < TWO_31
    && -TWO_31 <= privs[6].ival < TWO_31
    && 0 <= privs[9].ival < TWO_32
    && 0 <= privs[11].ival < TWO_32
    && 0 <= privs[19].ival < TWO_32
  }

  /** Any well-shaped pair of lists whose integers fit their fields is what Form writes. */
  lemma FormDeform(privs: seq<Node>, exprs: seq<Node>)
    requires WellShaped(privs, exprs) && NarrowInts(privs)
    ensures Deform(privs, exprs).Some?
    ensures Form(Deform(privs, exprs).value) == (privs, exprs)
  {
    var g := Deform(privs, exprs).value;
    var (p, e) := Form(g);
    assert U64ToLong(LongToU64(privs[10].ival)) == privs[10].ival;
    assert p == privs;
    assert e == exprs;
  }
}
