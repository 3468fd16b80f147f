/**
 * Setting up the per-record-batch state of an Arrow file
 * (next/arrow_fdw.c:969-1022, 1098-1428, 1785-1797). Every column of the
 * schema, children included, takes the next field node of the record batch
 * and then one buffer for its validity bitmap, one for its values unless
 * it only has a bitmap of children, and one for variable-length data
 * after an offsets array. Each buffer is checked for its length and its
 * 8-byte alignment, as the Apache Arrow Columnar Format sections "Validity
 * bitmaps", "Fixed-size Primitive Layout" and "Variable-size Binary Layout"
 * describe them, and the record batch must use every node and buffer.
 *
 * `fixed` selects between the code as written and the corrected unit size
 * of Date MILLISECOND columns (see `TypeLayout`).
 */
module ArrowBatch {
  import opened Wrappers
  import opened ArrowTypes
  import Align

  /** The two cursors: the next buffer and the next field node. */
  datatype Cur = Cur(b: nat, n: nat)

  /**
   * RecordBatchFieldState, as far as the validation fills it in: the item
   * and null counts, the unit size (negative for a bitmap of values, 0 for
   * none), the buffers it recorded and its children.
   */
  datatype FieldState = FieldState(
    nitems: nat,
    nullCount: nat,
    unitsz: int,
    nullmap: Option<Buffer>,
    values: Option<Buffer>,
    extra: Option<Buffer>,
    children: seq<FieldState>)

  /** The length the values buffer must at least have before alignment. */
  function LeastLength(unitsz: int, nitems: nat, hasExtra: bool): nat
  {
    if unitsz < 0 then Align.BitmapLen(nitems)
    else if !hasExtra then unitsz * nitems
    else unitsz * (nitems + 1)
  }

  /** How many buffers a column of this layout takes. */
  function ColumnBuffers(unitsz: int, hasExtra: bool): nat
  {
    1 + (if unitsz != 0 then 1 else 0) + (if hasExtra then 1 else 0)
  }

  /**
   * The requirements on a column's own buffers: a validity bitmap that covers
   * the items and sits on an 8-byte boundary when there are nulls; a values
   * buffer of at least the 8-byte-rounded least length on a boundary; an
   * extra buffer on a boundary.
   */
  predicate BuffersFit(bs: seq<Buffer>, nitems: nat, nullCount: nat, unitsz: int, hasExtra: bool)
  {
    && |bs| == ColumnBuffers(unitsz, hasExtra)
    && (nullCount > 0 ==> bs[0].length >= Align.BitmapLen(nitems) && Align.Aligned(8, bs[0].offset))
    && (unitsz != 0 ==>
          bs[1].length >= Align.MaxAlign(LeastLength(unitsz, nitems, hasExtra)) && Align.Aligned(8, bs[1].offset))
    && (hasExtra ==> Align.Aligned(8, bs[|bs| - 1].offset))
  }

  /**
   * `__assignRecordBatchFieldStateBuffer`: consume the column's buffers
   * from the cursor and record them, or fail with the first complaint.
   */
  function Assign(fs: FieldState, bufs: seq<Buffer>, c: Cur, hasExtra: bool): (r: Result<(FieldState, Cur)>)
    requires hasExtra ==> fs.unitsz > 0
    requires fs.nullmap.None? && fs.values.None? && fs.extra.None?
    ensures r.Ok? ==> r.value.1 == Cur(c.b + ColumnBuffers(fs.unitsz, hasExtra), c.n)
    ensures r.Ok? ==> var g := r.value.0;
      && g.nitems == fs.nitems && g.nullCount == fs.nullCount && g.unitsz == fs.unitsz && g.children == fs.children
      && (g.extra.Some? <==> hasExtra)
      && OwnValid(g)
  {
    var k := ColumnBuffers(fs.unitsz, hasExtra);
    // nullmap
    if c.b >= |bufs| then Err("RecordBatch has less buffers than expected")
    else
      var nb := bufs[c.b];
      if fs.nullCount > 0 && nb.length < Align.BitmapLen(fs.nitems) then Err("nullmap length is smaller than expected")
      else if fs.nullCount > 0 && nb.offset != Align.MaxAlign(nb.offset) then Err("nullmap is not aligned well")
      else
        var fs1 := if fs.nullCount > 0 then fs.(nullmap := Some(nb)) else fs;
        // values
        var vpos := c.b + 1;
        if fs.unitsz != 0 && vpos >= |bufs| then Err("RecordBatch has less buffers than expected")
        else if fs.unitsz != 0 && bufs[vpos].length < Align.MaxAlign(LeastLength(fs.unitsz, fs.nitems, hasExtra)) then
          Err("values array is smaller than expected")
        else if fs.unitsz != 0 && bufs[vpos].offset != Align.MaxAlign(bufs[vpos].offset) then Err("values array is not aligned well")
        else
          var fs2 := if fs.unitsz != 0 then fs1.(values := Some(bufs[vpos])) else fs1;
          var epos := if fs.unitsz != 0 then vpos + 1 else vpos;
          // extra
          if hasExtra && epos >= |bufs| then Err("RecordBatch has less buffers than expected")
          else if hasExtra && bufs[epos].offset != Align.MaxAlign(bufs[epos].offset) then Err("extra buffer is not aligned well")
          else
            var fs3 := if hasExtra then fs2.(extra := Some(bufs[epos])) else fs2;
            Ok((fs3, Cur(c.b + k, c.n)))
  }

  /**
   * The complaints of `Assign` are exactly the violations of `BuffersFit`,
   * and it records the validity buffer when there are nulls, the values
   * buffer when the unit size is not 0 and the extra buffer when asked to.
   */
  lemma AssignExact(fs: FieldState, bufs: seq<Buffer>, c: Cur, hasExtra: bool)
    requires hasExtra ==> fs.unitsz > 0
    requires fs.nullmap.None? && fs.values.None? && fs.extra.None?
    ensures var k := ColumnBuffers(fs.unitsz, hasExtra);
      var r := Assign(fs, bufs, c, hasExtra);
      && (r.Ok? <==> c.b + k <= |bufs| && BuffersFit(bufs[c.b..c.b + k], fs.nitems, fs.nullCount, fs.unitsz, hasExtra))
      && (r.Ok? ==> var g := r.value.0;
           && g.nullmap == (if fs.nullCount > 0 then Some(bufs[c.b]) else None)
           && g.values == (if fs.unitsz != 0 then Some(bufs[c.b + 1]) else None)
           && g.extra == (if hasExtra then Some(bufs[c.b + k - 1]) else None))
  {
    var k := ColumnBuffers(fs.unitsz, hasExtra);
    if c.b + k <= |bufs| {
      var bs := bufs[c.b..c.b + k];
      assert bs[0] == bufs[c.b];
      assert fs.unitsz != 0 ==> bs[1] == bufs[c.b + 1];
      assert bs[k - 1] == bufs[c.b + k - 1];
    }
  }

  /** The unit size of a column and whether an extra buffer follows its values. */
  datatype Layout = Layout(unitsz: int, hasExtra: bool)

  /**
   * The layout `__buildRecordBatchFieldState` gives each type that has no
   * children. As written, a Date MILLISECOND column gets a 4-byte unit, but
   * its values are 64-bit in the Arrow format; with `fixed` it gets 8.
   */
  function TypeLayout(t: ArrowType, fixed: bool): (r: Result<Layout>)
    requires !t.List? && !t.LargeList? && !t.Struct?
    ensures r.Ok? && r.value.hasExtra ==> r.value.unitsz > 0
    ensures r.Ok? <==>
      (t.Int? ==> t.bitWidth in {8, 16, 32, 64})
      && (t.Decimal? ==> t.decBitWidth == 128)
      && (t.Interval? ==> t.intervalUnit != MonthDayNano)
      && (t.FixedSizeBinary? ==> 0 < t.byteWidth <= Align.BLCKSZ)
      && !t.OtherType?
    ensures r.Ok? && ArrowWidth(t).Some? ==>
      (Some(r.value.unitsz) == ArrowWidth(t) <==> fixed || t != Date(DateMilliSecond))
    ensures r.Ok? && r.value.hasExtra ==> t in {Utf8, Binary, LargeUtf8, LargeBinary}
    ensures t.Bool? ==> r == Ok(Layout(-1, false))
  {
    match t
    case Int(bw, _) =>
      if bw == 8 then Ok(Layout(1, false)) else if bw == 16 then Ok(Layout(2, false))
      else if bw == 32 then Ok(Layout(4, false)) else if bw == 64 then Ok(Layout(8, false))
      else Err("Arrow::Int bitWidth is not supported")
    case FloatingPoint(p) => Ok(Layout(match p case Half => 2 case Single => 4 case Double => 8, false))
    case Bool => Ok(Layout(-1, false))
    case Decimal(_, _, bw) => if bw != 128 then Err("Arrow::Decimal is not supported") else Ok(Layout(16, false))
    case Date(u) => Ok(Layout(match u case DateDay => 4 case DateMilliSecond => if fixed then 8 else 4, false))
    case Time(u) => Ok(Layout(match u case Second => 4 case MilliSecond => 4 case MicroSecond => 8 case NanoSecond => 8, false))
    case Timestamp(_, _) => Ok(Layout(8, false))
    case Interval(u) =>
      (match u
       case YearMonth => Ok(Layout(4, false))
       case DayTime => Ok(Layout(8, false))
       case MonthDayNano => Err("unknown Interval::unit"))
    case FixedSizeBinary(w) =>
      if w <= 0 || w > Align.BLCKSZ then Err("arrow_fdw: FixedSizeBinary byteWidth is not supported")
      else Ok(Layout(w, false))
    case Utf8 => Ok(Layout(4, true))
    case LargeUtf8 => Ok(Layout(8, true))
    case Binary => Ok(Layout(4, true))
    case LargeBinary => Ok(Layout(8, true))
    case OtherType(_) => Err("Bug? ArrowSchema contains unsupported types")
  }

  // ---------------------------------------------------------------------
  // How many nodes and buffers a schema takes
  // ---------------------------------------------------------------------

  /**
   * Field nodes a field takes: its own and, for a list or a struct, its
   * descendants', in pre-order. The children of other types are not visited.
   */
  function NodeCount(f: Field): nat
    decreases f, 1
  {
    if f.atype in {List, LargeList, Struct} then 1 + NodeCountAll(f.children) else 1
  }

  function NodeCountAll(fs: seq<Field>): nat
    decreases fs, 0
  {
    if |fs| == 0 then 0 else NodeCount(fs[0]) + NodeCountAll(fs[1..])
  }

  /** Buffers a field takes, from the layout of each column in its subtree. */
  function BufferCount(f: Field, fixed: bool): nat
    decreases f, 1
  {
    if f.atype.List? then ColumnBuffers(4, false) + BufferCountAll(f.children, fixed)
    else if f.atype.LargeList? then ColumnBuffers(8, false) + BufferCountAll(f.children, fixed)
    else if f.atype.Struct? then ColumnBuffers(0, false) + BufferCountAll(f.children, fixed)
    else
      match TypeLayout(f.atype, fixed)
      case Ok(l) => ColumnBuffers(l.unitsz, l.hasExtra)
      case Err(_) => 0
  }

  function BufferCountAll(fs: seq<Field>, fixed: bool): nat
    decreases fs, 0
  {
    if |fs| == 0 then 0 else BufferCount(fs[0], fixed) + BufferCountAll(fs[1..], fixed)
  }

  // ---------------------------------------------------------------------
  // Building the field states
  // ---------------------------------------------------------------------

  /**
   * Every recorded buffer passed its checks, at every level: the state
   * `__buildRecordBatchFieldState` leaves behind.
   */
  predicate Validated(fs: FieldState)
  {
    OwnValid(fs) && forall j | 0 <= j < |fs.children| :: Validated(fs.children[j])
  }

  /** The checks on a column's own buffers hold for what it recorded. */
  predicate OwnValid(fs: FieldState)
  {
    && (fs.nullmap.Some? <==> fs.nullCount > 0)
    && (fs.nullmap.Some? ==> fs.nullmap.value.length >= Align.BitmapLen(fs.nitems))
    && (fs.values.Some? <==> fs.unitsz != 0)
    && (fs.extra.Some? ==> fs.unitsz > 0)
    && (fs.values.Some? ==>
          fs.values.value.length >= Align.MaxAlign(LeastLength(fs.unitsz, fs.nitems, fs.extra.Some?)))
  }

  /**
   * `__buildRecordBatchFieldState`: take the field's node, set its layout,
   * consume its buffers and build its children. A list takes exactly one
   * child and a struct any number; neither may sit below another one.
   */
  function BuildField(f: Field, bufs: seq<Buffer>, nodes: seq<FieldNode>, c: Cur, depth: nat, fixed: bool)
    : (r: Result<(FieldState, Cur)>)
    ensures r.Ok? ==> r.value.1 == Cur(c.b + BufferCount(f, fixed), c.n + NodeCount(f))
    ensures r.Ok? ==> Validated(r.value.0)
    ensures r.Ok? ==> c.n < |nodes| && r.value.0.nitems == nodes[c.n].length && r.value.0.nullCount == nodes[c.n].nullCount
    ensures r.Ok? && depth > 0 ==> !f.atype.List? && !f.atype.LargeList? && !f.atype.Struct?
    decreases f, 1
  {
    if c.n >= |nodes| then Err("RecordBatch has less ArrowFieldNode than expected")
    else
      var node := nodes[c.n];
      var c1 := Cur(c.b, c.n + 1);
      var fs := FieldState(node.length, node.nullCount, 0, None, None, None, []);
      if f.atype.List? then BuildList(f, fs, 4, bufs, nodes, c1, depth, fixed)
      else if f.atype.LargeList? then BuildList(f, fs, 8, bufs, nodes, c1, depth, fixed)
      else if f.atype.Struct? then BuildStruct(f, fs, bufs, nodes, c1, depth, fixed)
      else BuildScalar(f, fs, bufs, c1, fixed)
  }

  function BuildStruct(f: Field, fs: FieldState, bufs: seq<Buffer>, nodes: seq<FieldNode>, c: Cur, depth: nat, fixed: bool)
    : (r: Result<(FieldState, Cur)>)
    requires f.atype.Struct?
    requires fs.unitsz == 0 && fs.children == [] && fs.nullmap.None? && fs.values.None? && fs.extra.None?
    ensures r.Ok? ==> r.value.1 == Cur(c.b + BufferCount(f, fixed), c.n + NodeCount(f) - 1)
    ensures r.Ok? ==> Validated(r.value.0)
    ensures r.Ok? ==> r.value.0.nitems == fs.nitems && r.value.0.nullCount == fs.nullCount
    ensures r.Ok? ==> depth == 0
    decreases f, 0
  {
    if depth > 0 then Err("nested composite type is not supported")
    else
      var a :- Assign(fs, bufs, c, false);
      var kids :- BuildChildren(f.children, bufs, nodes, a.1, depth + 1, fixed);
      Ok((a.0.(children := kids.0), kids.1))
  }

  /** A column without children: its type's layout, then its buffers. */
  function BuildScalar(f: Field, fs: FieldState, bufs: seq<Buffer>, c: Cur, fixed: bool) : (r: Result<(FieldState, Cur)>)
    requires !f.atype.List? && !f.atype.LargeList? && !f.atype.Struct?
    requires fs.children == [] && fs.nullmap.None? && fs.values.None? && fs.extra.None?
    ensures r.Ok? ==> r.value.1 == Cur(c.b + BufferCount(f, fixed), c.n)
    ensures r.Ok? ==> Validated(r.value.0)
    ensures r.Ok? ==> r.value.0.nitems == fs.nitems && r.value.0.nullCount == fs.nullCount
  {
    var lay :- TypeLayout(f.atype, fixed);
    assert BufferCount(f, fixed) == ColumnBuffers(lay.unitsz, lay.hasExtra);
    Assign(fs.(unitsz := lay.unitsz), bufs, c, lay.hasExtra)
  }

  function BuildList(f: Field, fs: FieldState, unitsz: int, bufs: seq<Buffer>, nodes: seq<FieldNode>, c: Cur, depth: nat, fixed: bool)
    : (r: Result<(FieldState, Cur)>)
    requires f.atype in {List, LargeList} && unitsz == (if f.atype == List then 4 else 8)
    requires fs.children == [] && fs.nullmap.None? && fs.values.None? && fs.extra.None?
    ensures r.Ok? ==> r.value.1 == Cur(c.b + BufferCount(f, fixed), c.n + NodeCount(f) - 1)
    ensures r.Ok? ==> Validated(r.value.0)
    ensures r.Ok? ==> r.value.0.nitems == fs.nitems && r.value.0.nullCount == fs.nullCount
    ensures r.Ok? ==> depth == 0 && |f.children| == 1
    decreases f, 0
  {
    if |f.children| != 1 then Err("Bug? List of arrow type is corrupted")
    else if depth > 0 then Err("nested array type is not supported")
    else
      var a :- Assign(fs.(unitsz := unitsz), bufs, c, false);
      var child :- BuildField(f.children[0], bufs, nodes, a.1, depth + 1, fixed);
      ListCounts(f, fixed);
      WithChildren(a.0, [child.0]);
      Ok((a.0.(children := [child.0]), child.1))
  }

  /** A list's counts: its own column's, then its one child's. */
  lemma ListCounts(f: Field, fixed: bool)
    requires f.atype in {List, LargeList} && |f.children| == 1
    ensures BufferCount(f, fixed) == ColumnBuffers(if f.atype == List then 4 else 8, false) + BufferCount(f.children[0], fixed)
    ensures NodeCount(f) == 1 + NodeCount(f.children[0])
  {
    assert BufferCountAll(f.children, fixed) == BufferCount(f.children[0], fixed);
    assert NodeCountAll(f.children) == NodeCount(f.children[0]);
  }

  /** A column that passed its own checks, given children that passed theirs. */
  lemma WithChildren(fs: FieldState, kids: seq<FieldState>)
    requires OwnValid(fs) && forall j | 0 <= j < |kids| :: Validated(kids[j])
    ensures Validated(fs.(children := kids))
  {
    assert OwnValid(fs.(children := kids));
  }

  function BuildChildren(fs: seq<Field>, bufs: seq<Buffer>, nodes: seq<FieldNode>, c: Cur, depth: nat, fixed: bool)
    : (r: Result<(seq<FieldState>, Cur)>)
    ensures r.Ok? ==> |r.value.0| == |fs|
    ensures r.Ok? ==> r.value.1 == Cur(c.b + BufferCountAll(fs, fixed), c.n + NodeCountAll(fs))
    ensures r.Ok? ==> forall j | 0 <= j < |fs| :: Validated(r.value.0[j])
    decreases fs, 2
  {
    if |fs| == 0 then Ok(([], c))
    else
      var head :- BuildField(fs[0], bufs, nodes, c, depth, fixed);
      var tail :- BuildChildren(fs[1..], bufs, nodes, head.1, depth, fixed);
      var r := [head.0] + tail.0;
      assert forall j | 1 <= j < |fs| :: r[j] == tail.0[j - 1];
      Ok((r, tail.1))
  }

  // ---------------------------------------------------------------------
  // One record batch
  // ---------------------------------------------------------------------

  /** ArrowBlock: where a record batch's message lies in the file. */
  datatype Block = Block(offset: nat, metaDataLength: nat, bodyLength: nat)

  /** ArrowRecordBatch: the item count, compression and the flat node and buffer lists. */
  datatype RecordBatch = RecordBatch(length: nat, compressed: bool, nodes: seq<FieldNode>, buffers: seq<Buffer>)

  datatype RecordBatchState = RecordBatchState(rbIndex: nat, rbOffset: nat, rbLength: nat, rbNitems: nat, fields: seq<FieldState>)

  /**
   * `__buildRecordBatchStateOne`: compressed batches are refused, the body
   * starts after the message metadata, and every field node and buffer of
   * the batch must be used by exactly the schema's columns.
   */
  function BuildRecordBatch(schema: seq<Field>, rbIndex: nat, block: Block, rb: RecordBatch, fixed: bool)
    : (r: Result<RecordBatchState>)
    ensures rb.compressed ==> r.Err?
    ensures r.Ok? ==> |rb.nodes| == NodeCountAll(schema) && |rb.buffers| == BufferCountAll(schema, fixed)
    ensures r.Ok? ==> r.value.rbOffset == block.offset + block.metaDataLength
    ensures r.Ok? ==> r.value.rbLength == block.bodyLength && r.value.rbNitems == rb.length
    ensures r.Ok? ==> |r.value.fields| == |schema| && forall j | 0 <= j < |schema| :: Validated(r.value.fields[j])
  {
    if rb.compressed then Err("arrow_fdw: right now, compressed record-batche is not supported")
    else
      var built :- BuildChildren(schema, rb.buffers, rb.nodes, Cur(0, 0), 0, fixed);
      if built.1 != Cur(|rb.buffers|, |rb.nodes|) then Err("arrow_fdw: RecordBatch may be corrupted")
      else Ok(RecordBatchState(rbIndex, block.offset + block.metaDataLength, block.bodyLength, rb.length, built.0))
  }

  /** A batch whose node or buffer count differs from what the schema takes is refused. */
  lemma BatchCountsMismatch(schema: seq<Field>, rbIndex: nat, block: Block, rb: RecordBatch, fixed: bool)
    requires |rb.nodes| != NodeCountAll(schema) || |rb.buffers| != BufferCountAll(schema, fixed)
    ensures BuildRecordBatch(schema, rbIndex, block, rb, fixed).Err?
  {
  }

  // ---------------------------------------------------------------------
  // Size of a column's data
  // ---------------------------------------------------------------------

  function BufLen(b: Option<Buffer>): nat
  {
    if b.Some? then b.value.length else 0
  }

  /** `__recordBatchFieldLength`: bytes of the buffers a column and its children recorded. */
  function FieldLength(fs: FieldState): nat
    decreases fs, 1
  {
    (if fs.nullCount > 0 then BufLen(fs.nullmap) else 0) + BufLen(fs.values) + BufLen(fs.extra)
      + FieldLengthAll(fs.children)
  }

  function FieldLengthAll(cs: seq<FieldState>): nat
    decreases cs, 0
  {
    if |cs| == 0 then 0 else FieldLength(cs[0]) + FieldLengthAll(cs[1..])
  }

  /**
   * The bytes the Arrow layout needs for a column's items: the null bitmap
   * when there are nulls, the 8-byte-rounded values array, and the same for
   * every child.
   */
  function NeededBytes(fs: FieldState): nat
    decreases fs, 1
  {
    (if fs.nullCount > 0 then Align.BitmapLen(fs.nitems) else 0)
      + (if fs.unitsz != 0 then Align.MaxAlign(LeastLength(fs.unitsz, fs.nitems, fs.extra.Some?)) else 0)
      + NeededBytesAll(fs.children)
  }

  function NeededBytesAll(cs: seq<FieldState>): nat
    decreases cs, 0
  {
    if |cs| == 0 then 0 else NeededBytes(cs[0]) + NeededBytesAll(cs[1..])
  }

  /** A validated column's size estimate covers the bytes its items need. */
  lemma {:induction false} FieldLengthCovers(fs: FieldState)
    requires Validated(fs)
    ensures FieldLength(fs) >= NeededBytes(fs)
    decreases fs, 1
  {
    FieldLengthAllCovers(fs.children);
  }

  lemma {:induction false} FieldLengthAllCovers(cs: seq<FieldState>)
    requires forall j | 0 <= j < |cs| :: Validated(cs[j])
    ensures FieldLengthAll(cs) >= NeededBytesAll(cs)
    decreases cs, 0
  {
    if |cs| > 0 {
      FieldLengthCovers(cs[0]);
      FieldLengthAllCovers(cs[1..]);
    }
  }

  // ---------------------------------------------------------------------
  // Date MILLISECOND values
  // ---------------------------------------------------------------------

  /**
   * With the correction, an accepted column of a fixed-width type has a
   * values buffer that holds every item at its Arrow width.
   */
  lemma FixedWidthValuesFit(f: Field, bufs: seq<Buffer>, nodes: seq<FieldNode>, c: Cur, depth: nat)
    requires ArrowWidth(f.atype).Some? && BuildField(f, bufs, nodes, c, depth, true).Ok?
    ensures var fs := BuildField(f, bufs, nodes, c, depth, true).value.0;
      fs.values.Some? && fs.values.value.length >= ArrowWidth(f.atype).value * fs.nitems
  {
    var fs := BuildField(f, bufs, nodes, c, depth, true).value.0;
    var lay := TypeLayout(f.atype, true).value;
    assert fs.unitsz == lay.unitsz && !lay.hasExtra;
  }

  /**
   * The code as written: a Date MILLISECOND column of two items whose values
   * buffer holds eight bytes, one 64-bit value, is accepted; the corrected
   * unit size refuses it.
   */
  lemma DateMilliCounterexample()
    ensures var f := Field("d", Date(DateMilliSecond), [], []);
      var rb := RecordBatch(2, false, [FieldNode(2, 0)], [Buffer(0, 0), Buffer(0, 8)]);
      && BuildRecordBatch([f], 0, Block(0, 0, 8), rb, false).Ok?
      && BuildRecordBatch([f], 0, Block(0, 0, 8), rb, true).Err?
  {
    var f := Field("d", Date(DateMilliSecond), [], []);
    var bufs := [Buffer(0, 0), Buffer(0, 8)];
    Align.TypeAlignFixed(8, 1);
    Align.TypeAlignFixed(8, 0);
    Align.TypeAlignFixed(8, 2);
    assert Align.MaxAlign(8) == 8 && Align.MaxAlign(0) == 0 && Align.MaxAlign(16) == 16;
    assert bufs[0..2] == bufs;
    var fs := FieldState(2, 0, 0, None, None, None, []);
    assert Assign(fs.(unitsz := 4), bufs, Cur(0, 1), false).Ok?;
    assert Assign(fs.(unitsz := 8), bufs, Cur(0, 1), false).Err?;
    assert BufferCountAll([f], false) == 2;
  }
}
