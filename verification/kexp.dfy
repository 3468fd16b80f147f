/**
 * The byte image of a device expression (a `kern_expression` node) as the
 * code generator of src/codegen.c emits it, and a reader that walks it back.
 *
 * A node is a fixed header, a payload, optional child nodes each starting
 * on an 8-byte boundary, zero padding to a 4-byte boundary, and a 32-bit
 * trailer magic derived from the node's result type and opcode; the
 * header's `len` is back-patched to cover all of it.
 *
 * The header itself is declared in xpu_common.h, which is not part of this
 * model; the model lays it out as 24 bytes, all little-endian:
 *   len u32 @0, exptype u16 @4, opcode u16 @6, expflags u32 @8,
 *   nr_args u32 @12, args_offset u32 @16, and 4 bytes the device fills in
 *   (zero on the host) @20.
 */
module KernExp {
  import opened Align
  import opened Wrappers

  const HeaderSize: nat := 24
  /** KERN_EXPRESSION_MAGIC comes from xpu_common.h; no property below depends on its value. */
  const KERN_EXPRESSION_MAGIC: nat := 0x4b657870
  const U32_LIMIT: nat := 0x1_0000_0000

  /**
   * The trailer magic of a node (codegen.c:907-909): the 16-bit codes,
   * widened to 32 bits and shifted left by 6 and 14, xored into the magic
   * constant; the shifts of 16-bit values stay inside 32 bits.
   */
  function Magic(exptype: nat, opcode: nat): (r: nat)
    ensures r < U32_LIMIT
  {
    var et := (exptype % 0x10000) * 64;
    var op := (opcode % 0x10000) * 16384;
    Xor3(KERN_EXPRESSION_MAGIC, et, op, 32) % U32_LIMIT
  }

  /** The bitwise exclusive or of the low `w` bits of `a`, `b` and `c`. */
  function Xor3(a: nat, b: nat, c: nat, w: nat): nat
  {
    if w == 0 then 0 else (a + b + c) % 2 + 2 * Xor3(a / 2, b / 2, c / 2, w - 1)
  }

  /** A node header: the length word, then the fields that do not depend on it. */
  function HeaderBytes(len: nat, exptype: nat, opcode: nat, flags: nat, nargs: nat, argsOffset: nat): (r: seq<byte>)
    ensures |r| == HeaderSize
  {
    LE32(len) + HeaderFields(exptype, opcode, flags, nargs, argsOffset)
  }

  function HeaderFields(exptype: nat, opcode: nat, flags: nat, nargs: nat, argsOffset: nat): (r: seq<byte>)
    ensures |r| == HeaderSize - 4
  {
    LE16(exptype) + LE16(opcode) + LE32(flags) + LE32(nargs) + LE32(argsOffset) + Zeros(4)
  }

  /**
   * How a node uses `args_offset`: `Leaf` nodes leave it zero (Const, Param,
   * Var); a `Listing` sets it past a payload list but appends no children
   * (LoadVars); a `Parent` pads its payload to `args_offset` and appends its
   * children from there.
   */
  datatype Layout = Leaf | Listing | Parent

  datatype KNode = KNode(exptype: nat, opcode: nat, flags: nat, layout: Layout,
                         payload: seq<byte>, args: seq<KNode>)

  function ArgsOffset(n: KNode): (r: nat)
    ensures n.layout != Leaf ==> HeaderSize + |n.payload| <= r < HeaderSize + |n.payload| + 8
    ensures n.layout == Leaf ==> r == 0
  {
    if n.layout == Leaf then 0 else MaxAlign(HeaderSize + |n.payload|)
  }

  /** The encoded children of a node, in order. */
  function ChildBytes(n: KNode): (r: seq<seq<byte>>)
    decreases n, 0
    ensures |r| == |n.args|
  {
    seq(|n.args|, i requires 0 <= i < |n.args| => Encode(n.args[i]))
  }

  /** Everything between the header and the trailer padding. */
  function Body(n: KNode): (r: seq<byte>)
    decreases n, 1
  {
    if n.layout == Parent then
      n.payload + Zeros(ArgsOffset(n) - HeaderSize - |n.payload|)
        + Pack(ChildBytes(n), ArgsOffset(n))
    else
      n.payload
  }

  /** Where the trailer magic goes: the end of the body, rounded up to a 4-byte boundary. */
  function TrailerAt(n: KNode): (r: nat)
    decreases n, 2
  {
    IntAlign(HeaderSize + |Body(n)|)
  }

  /** The bytes of one node, as if it were emitted at an 8-byte aligned position. */
  function Encode(n: KNode): (r: seq<byte>)
    decreases n, 3
    ensures |r| >= HeaderSize + 4
  {
    var body := Body(n);
    var fin := TrailerAt(n);
    var hdr := HeaderBytes(fin + 4, n.exptype, n.opcode, n.flags, |n.args|, ArgsOffset(n));
    hdr + body + Zeros(fin - HeaderSize - |body|) + LE32(Magic(n.exptype, n.opcode))
  }

  /** Encoded children appended one after another, each after zero padding to an 8-byte boundary; `cur` is the position reached so far. */
  function Pack(blobs: seq<seq<byte>>, cur: nat): (r: seq<byte>)
  {
    if |blobs| == 0 then []
    else
      var start := MaxAlign(cur);
      Zeros(start - cur) + blobs[0] + Pack(blobs[1..], start + |blobs[0]|)
  }

  /** A node whose every field fits the width the header gives it. */
  ghost predicate WellFormed(n: KNode)
    decreases n
  {
    && n.exptype < 0x10000 && n.opcode < 0x10000 && n.flags < U32_LIMIT
    && (n.layout != Parent ==> |n.args| == 0) && |n.args| < U32_LIMIT
    && |Encode(n)| < U32_LIMIT
    && forall i | 0 <= i < |n.args| :: WellFormed(n.args[i])
  }

  /** What a reader recovers from a node: its header fields, the payload region up to the arguments (or up to the trailer), and its children. */
  datatype DNode = DNode(exptype: nat, opcode: nat, flags: nat, argsOffset: nat,
                         region: seq<byte>, args: seq<DNode>)

  /** Reads back the node that occupies exactly `b`, checking its length word and trailer magic. */
  function Decode(b: seq<byte>): (r: Option<DNode>)
    decreases |b|, 1, 0
  {
    if |b| < HeaderSize + 4 || Get32(b, 0) != |b| then None
    else
      var et, op, fl := Get16(b, 4), Get16(b, 6), Get32(b, 8);
      var nr, ao := Get32(b, 12), Get32(b, 16);
      var tail := |b| - 4;
      if Get32(b, tail) != Magic(et, op) then None
      else if nr == 0 then
        Some(DNode(et, op, fl, ao, b[HeaderSize..tail], []))
      else if ao < HeaderSize || ao > tail then None
      else
        match DecodeArgs(b, ao, nr)
        case None => None
        case Some((kids, end)) =>
          if IntAlign(end) != tail then None
          else Some(DNode(et, op, fl, ao, b[HeaderSize..ao], kids))
  }

  /** Reads `k` children of the node in `b`, the first at the 8-byte boundary at or after `cur`. */
  function DecodeArgs(b: seq<byte>, cur: nat, k: nat): (r: Option<(seq<DNode>, nat)>)
    decreases |b|, 0, k
    ensures r.Some? ==> |r.value.0| == k
  {
    if k == 0 then Some(([], cur))
    else
      match DecodeChild(b, MaxAlign(cur), k)
      case None => None
      case Some((kid, next)) =>
        match DecodeArgs(b, next, k - 1)
        case None => None
        case Some((rest, end)) => Some(([kid] + rest, end))
  }

  /** Reads the child that starts at `start`, sized by its own length word; `k` only bounds the recursion. */
  function DecodeChild(b: seq<byte>, start: nat, k: nat): (r: Option<(DNode, nat)>)
    requires k > 0
    decreases |b|, 0, k - 1
  {
    if start + 4 > |b| then None
    else
      var next := start + Get32(b, start);
      if next + 4 > |b| then None
      else
        match Decode(b[start..next])
        case None => None
        case Some(kid) => Some((kid, next))
  }

  /** Where the payload region ends: at the arguments for a `Parent`, otherwise at the trailer padding. */
  function RegionEnd(n: KNode): (r: nat)
    ensures r >= HeaderSize + |n.payload|
  {
    if n.layout == Parent then ArgsOffset(n) else IntAlign(HeaderSize + |n.payload|)
  }

  /** The reader's view of a node: the payload with the padding that follows it, children likewise. */
  function View(n: KNode): (r: DNode)
    decreases n
  {
    DNode(n.exptype, n.opcode, n.flags, ArgsOffset(n),
          n.payload + Zeros(RegionEnd(n) - HeaderSize - |n.payload|),
          seq(|n.args|, i requires 0 <= i < |n.args| => View(n.args[i])))
  }

  /** Each header field sits at its fixed offset. */
  lemma HeaderSlices(len: nat, et: nat, op: nat, fl: nat, nr: nat, ao: nat)
    ensures var h := HeaderBytes(len, et, op, fl, nr, ao);
      && h[0..4] == LE32(len) && h[4..6] == LE16(et) && h[6..8] == LE16(op)
      && h[8..12] == LE32(fl) && h[12..16] == LE32(nr) && h[16..20] == LE32(ao)
  {
    Slices6(LE32(len), LE16(et), LE16(op), LE32(fl), LE32(nr), LE32(ao), Zeros(4));
  }

  /** The parts of `a + (b + c + d + e + f + g)` at the offsets their lengths give. */
  lemma Slices6(a: seq<byte>, b: seq<byte>, c: seq<byte>, d: seq<byte>, e: seq<byte>, f: seq<byte>, g: seq<byte>)
    requires |a| == 4 && |b| == 2 && |c| == 2 && |d| == 4 && |e| == 4 && |f| == 4
    ensures var h := a + (b + c + d + e + f + g);
      && h[0..4] == a && h[4..6] == b && h[6..8] == c
      && h[8..12] == d && h[12..16] == e && h[16..20] == f
  {
    var t := b + c + d + e + f + g;
    var h := a + t;
    assert h[4..] == t;
    assert t[0..2] == b;
    assert t[2..4] == c;
    assert t[4..8] == d;
    assert t[8..12] == e;
    assert t[12..16] == f;
    SubSlice(h, 4, t[..16], 0, 2);
    SubSlice(h, 4, t[..16], 2, 4);
    SubSlice(h, 4, t[..16], 4, 8);
    SubSlice(h, 4, t[..16], 8, 12);
    SubSlice(h, 4, t[..16], 12, 16);
  }

  lemma EncodeUnfold(n: KNode)
    ensures Encode(n) == HeaderBytes(TrailerAt(n) + 4, n.exptype, n.opcode, n.flags, |n.args|, ArgsOffset(n))
      + Body(n) + Zeros(TrailerAt(n) - HeaderSize - |Body(n)|) + LE32(Magic(n.exptype, n.opcode))
  {
  }

  lemma EncodeLength(n: KNode)
    ensures |Encode(n)| == TrailerAt(n) + 4
  {
    EncodeUnfold(n);
  }

  /** The header, the body, the padding and the trailer of an encoded node, where a reader finds them. */
  lemma EncodeParts(n: KNode)
    ensures var e := Encode(n); var body := Body(n); var fin := TrailerAt(n);
      && |e| == fin + 4
      && e[..HeaderSize] == HeaderBytes(fin + 4, n.exptype, n.opcode, n.flags, |n.args|, ArgsOffset(n))
      && e[HeaderSize..HeaderSize + |body|] == body
      && e[HeaderSize + |body|..fin] == Zeros(fin - HeaderSize - |body|)
      && e[fin..] == LE32(Magic(n.exptype, n.opcode))
  {
    var e, body, fin := Encode(n), Body(n), TrailerAt(n);
    var hdr := HeaderBytes(fin + 4, n.exptype, n.opcode, n.flags, |n.args|, ArgsOffset(n));
    var pad, tr := Zeros(fin - HeaderSize - |body|), LE32(Magic(n.exptype, n.opcode));
    EncodeUnfold(n);
    assert e == hdr + body + pad + tr;
    Parts4(e, hdr, body, pad, tr);
  }

  /** Reading the header and trailer of any buffer laid out as a node whose trailer sits at `fin`. */
  lemma ReadHeader(e: seq<byte>, fin: nat, et: nat, op: nat, fl: nat, nr: nat, ao: nat)
    requires |e| == fin + 4 && fin >= HeaderSize && fin + 4 < U32_LIMIT
    requires et < 0x10000 && op < 0x10000 && fl < U32_LIMIT && nr < U32_LIMIT && ao < U32_LIMIT
    requires e[..HeaderSize] == HeaderBytes(fin + 4, et, op, fl, nr, ao)
    requires e[fin..] == LE32(Magic(et, op))
    ensures Get32(e, 0) == |e| && Get16(e, 4) == et && Get16(e, 6) == op
    ensures Get32(e, 8) == fl && Get32(e, 12) == nr && Get32(e, 16) == ao
    ensures Get32(e, fin) == Magic(et, op)
  {
    var h := HeaderBytes(fin + 4, et, op, fl, nr, ao);
    HeaderSlices(fin + 4, et, op, fl, nr, ao);
    SubSlice(e, 0, h, 0, 4);
    Get32LE32(e, 0, fin + 4);
    SubSlice(e, 0, h, 4, 6);
    Get16LE16(e, 4, et);
    SubSlice(e, 0, h, 6, 8);
    Get16LE16(e, 6, op);
    SubSlice(e, 0, h, 8, 12);
    Get32LE32(e, 8, fl);
    SubSlice(e, 0, h, 12, 16);
    Get32LE32(e, 12, nr);
    SubSlice(e, 0, h, 16, 20);
    Get32LE32(e, 16, ao);
    assert e[fin..fin + 4] == e[fin..];
    Get32LE32(e, fin, Magic(et, op));
  }

  /** The arguments never start past the trailer. */
  lemma ArgsOffsetBound(n: KNode)
    ensures ArgsOffset(n) <= TrailerAt(n) + 4
  {
    if n.layout == Parent {
      assert |Body(n)| >= ArgsOffset(n) - HeaderSize;
    } else if n.layout == Listing {
      MaxAlignNearIntAlign(HeaderSize + |n.payload|);
    }
  }

  /** A well-formed node's header reads back as the values it was written with. */
  lemma EncodeHeader(n: KNode)
    requires WellFormed(n)
    ensures var e := Encode(n);
      && |e| == TrailerAt(n) + 4
      && Get32(e, 0) == |e|
      && Get16(e, 4) == n.exptype && Get16(e, 6) == n.opcode && Get32(e, 8) == n.flags
      && Get32(e, 12) == |n.args| && Get32(e, 16) == ArgsOffset(n)
      && Get32(e, TrailerAt(n)) == Magic(n.exptype, n.opcode)
  {
    var e, fin, ao := Encode(n), TrailerAt(n), ArgsOffset(n);
    EncodeParts(n);
    ArgsOffsetBound(n);
    assert fin >= HeaderSize && |e| < U32_LIMIT;
    assert e[..HeaderSize] == HeaderBytes(fin + 4, n.exptype, n.opcode, n.flags, |n.args|, ao);
    ReadHeader(e, fin, n.exptype, n.opcode, n.flags, |n.args|, ao);
  }

  /** The body of a node with no children followed by its padding is what the reader's view promises. */
  lemma LeafRegion(n: KNode)
    requires |n.args| == 0
    ensures Body(n) + Zeros(TrailerAt(n) - HeaderSize - |Body(n)|) == View(n).region
  {
    if n.layout == Parent {
      var ao := ArgsOffset(n);
      MaxAlignNearIntAlign(HeaderSize + |n.payload|);
      assert Pack(ChildBytes(n), ao) == [];
      ZerosAdd(ao - HeaderSize - |n.payload|, 0);
    } else {
      ZerosAdd(RegionEnd(n) - HeaderSize - |n.payload|, 0);
    }
  }

  /** Reading a node without children, given what its header reads as. */
  lemma DecodeLeafStep(b: seq<byte>, fin: nat, et: nat, op: nat, fl: nat, ao: nat)
    requires |b| == fin + 4 && fin >= HeaderSize && Get32(b, 0) == |b|
    requires Get16(b, 4) == et && Get16(b, 6) == op && Get32(b, 8) == fl
    requires Get32(b, 12) == 0 && Get32(b, 16) == ao
    requires Get32(b, fin) == Magic(et, op)
    ensures Decode(b) == Some(DNode(et, op, fl, ao, b[HeaderSize..fin], []))
  {
  }

  /**
   * The reader inverts the encoder: decoding the bytes of a well-formed
   * node recovers its header fields, its payload (with the padding that
   * follows it) and, recursively, every child.
   */
  lemma {:induction false} DecodeEncode(n: KNode)
    requires WellFormed(n)
    ensures Decode(Encode(n)) == Some(View(n))
    decreases n, 2
  {
    if |n.args| == 0 {
      DecodeEncodeLeaf(n);
    } else {
      DecodeEncodeParent(n);
    }
  }

  lemma DecodeEncodeLeaf(n: KNode)
    requires WellFormed(n) && |n.args| == 0
    ensures Decode(Encode(n)) == Some(View(n))
  {
    var e := Encode(n);
    var body := Body(n);
    var fin := TrailerAt(n);
    EncodeHeader(n);
    EncodeParts(n);
    Join2(e, HeaderSize, HeaderSize + |body|, fin, body, Zeros(fin - HeaderSize - |body|));
    LeafRegion(n);
    DecodeLeafStep(e, fin, n.exptype, n.opcode, n.flags, ArgsOffset(n));
    assert View(n).args == [];
  }

  /** The body of a `Parent`: its payload region, then its packed children. */
  lemma BodyOfParent(n: KNode)
    requires n.layout == Parent
    ensures Body(n) == View(n).region + Pack(ChildBytes(n), ArgsOffset(n))
    ensures HeaderSize + |View(n).region| == ArgsOffset(n)
  {
  }

  /** Where the children of a `Parent` sit inside its bytes. */
  lemma ParentParts(n: KNode)
    requires n.layout == Parent
    ensures var e := Encode(n); var ao := ArgsOffset(n); var ea := Pack(ChildBytes(n), ao);
      && ao + |ea| == HeaderSize + |Body(n)|
      && e[ao..HeaderSize + |Body(n)|] == ea
      && e[HeaderSize..ao] == View(n).region
  {
    var e := Encode(n);
    EncodeParts(n);
    BodyOfParent(n);
    Window2(e, HeaderSize, HeaderSize + |Body(n)|, Body(n), View(n).region, Pack(ChildBytes(n), ArgsOffset(n)), ArgsOffset(n));
  }

  /** Reading a node with children, given what its header and children read as. */
  lemma DecodeParentStep(b: seq<byte>, fin: nat, et: nat, op: nat, fl: nat, nr: nat, ao: nat,
                         kids: seq<DNode>, end: nat)
    requires |b| == fin + 4 && fin >= HeaderSize && Get32(b, 0) == |b|
    requires Get16(b, 4) == et && Get16(b, 6) == op && Get32(b, 8) == fl
    requires Get32(b, 12) == nr && Get32(b, 16) == ao && nr > 0
    requires Get32(b, fin) == Magic(et, op)
    requires HeaderSize <= ao <= fin
    requires DecodeArgs(b, ao, nr) == Some((kids, end)) && IntAlign(end) == fin
    ensures Decode(b) == Some(DNode(et, op, fl, ao, b[HeaderSize..ao], kids))
  {
  }

  /** Every child of a well-formed node decodes to its view. */
  lemma {:induction false} ChildrenDecode(n: KNode)
    requires WellFormed(n)
    ensures AllDecode(ChildBytes(n), View(n).args)
    decreases n, 0
  {
    var blobs, kids := ChildBytes(n), View(n).args;
    forall i | 0 <= i < |blobs|
      ensures Decode(blobs[i]) == Some(kids[i])
    {
      DecodeEncode(n.args[i]);
    }
    AllDecodeOf(blobs, kids);
  }

  lemma {:induction false} DecodeEncodeParent(n: KNode)
    requires WellFormed(n) && |n.args| > 0
    ensures Decode(Encode(n)) == Some(View(n))
    decreases n, 1
  {
    var e := Encode(n);
    var ao := ArgsOffset(n);
    var blobs := ChildBytes(n);
    var kids := View(n).args;
    var end := HeaderSize + |Body(n)|;
    EncodeHeader(n);
    ParentParts(n);
    ChildrenDecode(n);
    assert end + 4 <= |e| by {
      assert TrailerAt(n) == IntAlign(end);
    }
    PackDecode(blobs, kids, ao, e, end);
    DecodeParentStep(e, TrailerAt(n), n.exptype, n.opcode, n.flags, |blobs|, ao, kids, end);
  }

  /** Reading the child at `start`, given what its bytes decode to. */
  lemma DecodeChildStep(b: seq<byte>, start: nat, next: nat, k: nat, kid: DNode)
    requires k > 0 && start + 4 <= next && next + 4 <= |b|
    requires next == start + Get32(b, start)
    requires Decode(b[start..next]) == Some(kid)
    ensures DecodeChild(b, start, k) == Some((kid, next))
  {
  }

  /** One step of reading children: the first child, then the rest from where it ends. */
  lemma DecodeArgsCons(b: seq<byte>, cur: nat, k: nat, k1: nat, next: nat,
                       kid: DNode, rest: seq<DNode>, end: nat)
    requires k == k1 + 1
    requires DecodeChild(b, MaxAlign(cur), k) == Some((kid, next))
    requires DecodeArgs(b, next, k1) == Some((rest, end))
    ensures DecodeArgs(b, cur, k) == Some(([kid] + rest, end))
  {
  }

  /** A buffer that holds a node's bytes at `start` has that node's length word there. */
  lemma LengthWordAt(b: seq<byte>, start: nat, next: nat, blob: seq<byte>)
    requires next == start + |blob| && next <= |b| && b[start..next] == blob
    requires Decode(blob).Some?
    ensures |blob| >= HeaderSize + 4 && next == start + Get32(b, start)
  {
    SubSlice(b, start, blob, 0, 4);
  }

  /** Each blob decodes to the node at the same index. */
  ghost predicate AllDecode(blobs: seq<seq<byte>>, kids: seq<DNode>)
  {
    |blobs| == |kids| && (|blobs| > 0 ==> Decode(blobs[0]) == Some(kids[0]) && AllDecode(blobs[1..], kids[1..]))
  }

  lemma {:induction false} AllDecodeOf(blobs: seq<seq<byte>>, kids: seq<DNode>)
    requires |kids| == |blobs|
    requires forall i | 0 <= i < |blobs| :: Decode(blobs[i]) == Some(kids[i])
    ensures AllDecode(blobs, kids)
    decreases blobs
  {
    if |blobs| > 0 {
      var b1, k1 := blobs[1..], kids[1..];
      forall i | 0 <= i < |b1| ensures Decode(b1[i]) == Some(k1[i]) {
        assert b1[i] == blobs[i + 1] && k1[i] == kids[i + 1];
      }
      AllDecodeOf(b1, k1);
    }
  }

  lemma PackCons(blobs: seq<seq<byte>>, cur: nat, start: nat, next: nat)
    requires |blobs| > 0 && start == MaxAlign(cur) && next == start + |blobs[0]|
    ensures Pack(blobs, cur) == Zeros(start - cur) + blobs[0] + Pack(blobs[1..], next)
  {
  }

  /** The first packed blob and the rest, where packing put them inside `b[cur..end]`. */
  lemma PackStep(blobs: seq<seq<byte>>, cur: nat, b: seq<byte>, end: nat, start: nat, next: nat)
    requires |blobs| > 0 && start == MaxAlign(cur) && next == start + |blobs[0]|
    requires end == cur + |Pack(blobs, cur)| && end <= |b| && b[cur..end] == Pack(blobs, cur)
    ensures end == next + |Pack(blobs[1..], next)|
    ensures b[start..next] == blobs[0] && b[next..end] == Pack(blobs[1..], next)
  {
    PackCons(blobs, cur, start, next);
    Window3(b, cur, end, Pack(blobs, cur), Zeros(start - cur), blobs[0], Pack(blobs[1..], next), start, next);
  }

  /** Packed nodes decode one after another from where packing put them. */
  lemma {:induction false} PackDecode(blobs: seq<seq<byte>>, kids: seq<DNode>, cur: nat, b: seq<byte>, end: nat)
    requires AllDecode(blobs, kids)
    requires end == cur + |Pack(blobs, cur)| && end + 4 <= |b|
    requires b[cur..end] == Pack(blobs, cur)
    ensures DecodeArgs(b, cur, |blobs|) == Some((kids, end))
    decreases blobs
  {
    if |blobs| > 0 {
      var start := MaxAlign(cur);
      var e0 := blobs[0];
      var next := start + |e0|;
      PackStep(blobs, cur, b, end, start, next);
      LengthWordAt(b, start, next, e0);
      PackDecode(blobs[1..], kids[1..], next, b, end);
      DecodeChildStep(b, start, next, |blobs|, kids[0]);
      DecodeArgsCons(b, cur, |blobs|, |blobs[1..]|, next, kids[0], kids[1..], end);
      assert kids == [kids[0]] + kids[1..];
    }
  }

  /** The value a 32-bit unsigned field keeps of `v`. */
  function Trunc32(v: nat): (r: nat)
    ensures r < U32_LIMIT && (v < U32_LIMIT ==> r == v)
  {
    v % U32_LIMIT
  }

  /** `b` with the 32-bit word at `off` replaced by `v`. */
  function Put32(b: seq<byte>, off: nat, v: nat): (r: seq<byte>)
    requires off + 4 <= |b|
    ensures |r| == |b| && forall k | 0 <= k < |b| && (k < off || off + 4 <= k) :: r[k] == b[k]
    ensures v < U32_LIMIT ==> Get32(r, off) == v
  {
    var r := b[..off] + LE32(v) + b[off + 4..];
    assert v < U32_LIMIT ==> Get32(r, off) == v by {
      assert r[off..off + 4] == LE32(v);
      if v < U32_LIMIT { Get32LE32(r, off, v); }
    }
    r
  }

  /**
   * Closing the node whose header starts at `head` (codegen.c:897-912): pad
   * the buffer with zeros to a 4-byte boundary, append the magic computed
   * from the result type and opcode already in the header, and back-patch
   * the header's `len` with the distance from `head` to the new end.
   */
  function CloseNode(buf: seq<byte>, head: nat): (r: seq<byte>)
    requires head + HeaderSize <= |buf|
    ensures |r| == IntAlign(|buf|) + 4
  {
    CloseWith(buf, head, Magic(Get16(buf, head + 4), Get16(buf, head + 6)))
  }

  /** The closing step with the trailer word `mg` given. */
  function CloseWith(buf: seq<byte>, head: nat, mg: nat): (r: seq<byte>)
    requires head + 4 <= |buf|
    ensures |r| == IntAlign(|buf|) + 4
  {
    var padded := buf + Zeros(IntAlign(|buf|) - |buf|);
    var full := padded + LE32(mg);
    Put32(full, head, Trunc32(|full| - head))
  }

  /**
   * What closing leaves where: the bytes before the head and after its
   * length word are kept, the length word covers everything from the head
   * to the new end, and the new end holds the magic of the header's codes.
   */
  lemma CloseNodeFrame(buf: seq<byte>, head: nat)
    requires head + HeaderSize <= |buf|
    ensures var r := CloseNode(buf, head);
      && (forall k | 0 <= k < |buf| && (k < head || head + 4 <= k) :: r[k] == buf[k])
      && (|r| - head < U32_LIMIT ==> Get32(r, head) == |r| - head)
      && r[IntAlign(|buf|)..] == LE32(Magic(Get16(buf, head + 4), Get16(buf, head + 6)))
  {
    var fin, mg := IntAlign(|buf|), Magic(Get16(buf, head + 4), Get16(buf, head + 6));
    CloseWithUnfold(buf, head, fin, mg);
    PatchAppended(buf, fin - |buf|, LE32(mg), head, Trunc32(fin + 4 - head));
  }

  /** Patching a word inside `buf` after padding and appending `m` keeps the rest of `buf` and all of `m`. */
  lemma PatchAppended(buf: seq<byte>, pad: nat, m: seq<byte>, head: nat, v: nat)
    requires head + 4 <= |buf| && |m| == 4
    ensures var r := Put32(buf + Zeros(pad) + m, head, v);
      && (forall k | 0 <= k < |buf| && (k < head || head + 4 <= k) :: r[k] == buf[k])
      && (v < U32_LIMIT ==> Get32(r, head) == v)
      && r[|buf| + pad..] == m
  {
    var full := buf + Zeros(pad) + m;
    var r := Put32(full, head, v);
    forall k | |buf| + pad <= k < |full| ensures r[k] == m[k - |buf| - pad] {
      assert r[k] == full[k];
    }
  }

  /** The header with its length word replaced. */
  lemma HeaderLen(len: nat, et: nat, op: nat, fl: nat, nr: nat, ao: nat)
    ensures HeaderBytes(len, et, op, fl, nr, ao) == LE32(len) + HeaderBytes(0, et, op, fl, nr, ao)[4..]
  {
    assert HeaderBytes(0, et, op, fl, nr, ao)[4..] == HeaderFields(et, op, fl, nr, ao);
  }

  lemma CloseWithUnfold(buf: seq<byte>, head: nat, fin: nat, mg: nat)
    requires head + 4 <= |buf| && fin == IntAlign(|buf|)
    ensures CloseWith(buf, head, mg) == Put32(buf + Zeros(fin - |buf|) + LE32(mg), head, Trunc32(fin + 4 - head))
  {
    var full := buf + Zeros(fin - |buf|) + LE32(mg);
    assert |full| - head == fin + 4 - head;
  }

  /** Patching the first word of `h + rest` only touches `h`. */
  lemma PatchFront(h: seq<byte>, rest: seq<byte>, v: nat)
    requires |h| >= 4
    ensures Put32(h + rest, 0, v) == LE32(v) + h[4..] + rest
  {
    assert (h + rest)[4..] == h[4..] + rest;
  }

  /** A header written with a zero length still reads back its codes. */
  lemma ZeroHeaderCodes(body: seq<byte>, et: nat, op: nat, fl: nat, nr: nat, ao: nat)
    requires et < 0x10000 && op < 0x10000
    ensures var buf := HeaderBytes(0, et, op, fl, nr, ao) + body;
      Get16(buf, 4) == et && Get16(buf, 6) == op
  {
    var h0 := HeaderBytes(0, et, op, fl, nr, ao);
    var buf := h0 + body;
    HeaderSlices(0, et, op, fl, nr, ao);
    SubSlice(buf, 0, h0, 4, 6);
    Get16LE16(buf, 4, et);
    SubSlice(buf, 0, h0, 6, 8);
    Get16LE16(buf, 6, op);
  }

  /** Back-patching the first word of `h0 + body + z + m` swaps the word and keeps the rest. */
  lemma PatchedFront(h0: seq<byte>, body: seq<byte>, z: seq<byte>, m: seq<byte>, len: nat)
    requires |h0| >= 4
    ensures Put32(h0 + body + z + m, 0, len) == LE32(len) + h0[4..] + body + z + m
  {
    Assoc4(h0, body, z, m);
    PatchFront(h0, body + z + m, len);
    Assoc4(LE32(len) + h0[4..], body, z, m);
  }

  /** Closing a buffer that holds a header with a zero length followed by `body`. */
  lemma CloseHeaderBody(body: seq<byte>, fin: nat, et: nat, op: nat, fl: nat, nr: nat, ao: nat)
    requires et < 0x10000 && op < 0x10000
    requires fin == IntAlign(HeaderSize + |body|) && fin + 4 < U32_LIMIT
    ensures CloseNode(HeaderBytes(0, et, op, fl, nr, ao) + body, 0)
         == HeaderBytes(fin + 4, et, op, fl, nr, ao) + body + Zeros(fin - HeaderSize - |body|) + LE32(Magic(et, op))
  {
    ZeroHeaderCodes(body, et, op, fl, nr, ao);
    CloseWithHeaderBody(body, fin, et, op, fl, nr, ao, Magic(et, op));
  }

  /** CloseHeaderBody for any trailer word `mg`. */
  lemma CloseWithHeaderBody(body: seq<byte>, fin: nat, et: nat, op: nat, fl: nat, nr: nat, ao: nat, mg: nat)
    requires fin == IntAlign(HeaderSize + |body|) && fin + 4 < U32_LIMIT
    ensures CloseWith(HeaderBytes(0, et, op, fl, nr, ao) + body, 0, mg)
         == HeaderBytes(fin + 4, et, op, fl, nr, ao) + body + Zeros(fin - HeaderSize - |body|) + LE32(mg)
  {
    HeaderLen(fin + 4, et, op, fl, nr, ao);
    CloseWithFront(HeaderBytes(0, et, op, fl, nr, ao), body, fin, mg);
  }

  /** Closing `h0 + body` at 0 writes the length over the first word of `h0`, then pads and appends `mg`. */
  lemma CloseWithFront(h0: seq<byte>, body: seq<byte>, fin: nat, mg: nat)
    requires |h0| == HeaderSize && fin == IntAlign(HeaderSize + |body|) && fin + 4 < U32_LIMIT
    ensures CloseWith(h0 + body, 0, mg) == LE32(fin + 4) + h0[4..] + body + Zeros(fin - HeaderSize - |body|) + LE32(mg)
  {
    var buf := h0 + body;
    var z := Zeros(fin - HeaderSize - |body|);
    CloseWithUnfold(buf, 0, fin, mg);
    assert fin - |buf| == fin - HeaderSize - |body|;
    assert CloseWith(buf, 0, mg) == Put32(h0 + body + z + LE32(mg), 0, fin + 4);
    PatchedFront(h0, body, z, LE32(mg), fin + 4);
  }

  /**
   * Emitting a node's header with a zero length, then its body, then
   * closing it yields exactly the node's encoding: the closing step is what
   * makes the length word and trailer right.
   */
  lemma CloseNodeEncodes(n: KNode)
    requires n.exptype < 0x10000 && n.opcode < 0x10000 && |Encode(n)| < U32_LIMIT
    ensures CloseNode(HeaderBytes(0, n.exptype, n.opcode, n.flags, |n.args|, ArgsOffset(n)) + Body(n), 0) == Encode(n)
  {
    var body, fin, ao := Body(n), TrailerAt(n), ArgsOffset(n);
    EncodeLength(n);
    EncodeUnfold(n);
    CloseHeaderBodyIs(Encode(n), body, fin, n.exptype, n.opcode, n.flags, |n.args|, ao);
  }

  /** CloseHeaderBody, stated about a buffer `e` known to hold the closed layout. */
  lemma CloseHeaderBodyIs(e: seq<byte>, body: seq<byte>, fin: nat, et: nat, op: nat, fl: nat, nr: nat, ao: nat)
    requires et < 0x10000 && op < 0x10000
    requires fin == IntAlign(HeaderSize + |body|) && fin + 4 < U32_LIMIT
    requires e == HeaderBytes(fin + 4, et, op, fl, nr, ao) + body + Zeros(fin - HeaderSize - |body|) + LE32(Magic(et, op))
    ensures CloseNode(HeaderBytes(0, et, op, fl, nr, ao) + body, 0) == e
  {
    CloseHeaderBody(body, fin, et, op, fl, nr, ao);
  }

  /** Two well-formed nodes with the same bytes look the same to every reader. */
  lemma EncodeInjective(n1: KNode, n2: KNode)
    requires WellFormed(n1) && WellFormed(n2) && Encode(n1) == Encode(n2)
    ensures View(n1) == View(n2)
  {
    DecodeEncode(n1);
    DecodeEncode(n2);
  }
}
