/**
 * The inner buffer of a GpuJoin depth (src/gpujoin.c:6199-6389): a
 * kern_data_store (KDS) whose row index points, in 8-byte units, into a
 * block of tuples kept at the tail of the buffer; growing and shrinking the
 * buffer moves that block and rewrites the row index; the hash format adds
 * per-slot chains over the hash items.
 *
 * The tail is kept as the bytes it holds, so "the row index still points
 * at the same tuple" is a statement about positions inside the tail.
 */
module InnerKds {
  import opened Wrappers
  import opened Align

  const TWO_32: int := 0x1_0000_0000
  /** gpujoin_expand_inner_kds never lets one KDS grow past 16GB. */
  const KDS_MAX_LENGTH: nat := 0x4_0000_0000
  /** gpujoin_compaction_inner_kds closes a hole only when it exceeds 32KB. */
  const COMPACTION_THRESHOLD: nat := 32 * 1024

  datatype JoinType = JoinInner | JoinLeft | JoinRight | JoinFull

  /** __kds_packed and __kds_unpack: offsets are stored in 8-byte units. */
  function Packed(x: nat): nat { x / 8 }
  function Unpack(p: nat): nat { p * 8 }

  /**
   * `length` is the size of the KDS, `usage` the size of the tuple block
   * at its tail (both in bytes), `rowIndex` the packed offsets of the rows
   * from the start of the KDS, `tail` the bytes of the tuple block.
   */
  datatype Kds = Kds(length: nat, usage: nat, rowIndex: seq<nat>, tail: seq<byte>)

  predicate WellFormed(k: Kds)
  {
    && |k.tail| == k.usage <= k.length
    && k.length % 8 == 0 && k.usage % 8 == 0
    && (|k.rowIndex| == 0 ==> k.usage == 0)
    && forall i | 0 <= i < |k.rowIndex| ::
         k.rowIndex[i] < TWO_32 && k.length - k.usage <= Unpack(k.rowIndex[i]) < k.length
  }

  /** Where row `i` starts inside the tuple block. */
  function RowAt(k: Kds, i: nat): int
    requires i < |k.rowIndex|
  {
    Unpack(k.rowIndex[i]) - (k.length - k.usage)
  }

  /** Two buffers hold the same rows: same block of tuples, same row positions inside it. */
  predicate SameRows(a: Kds, b: Kds)
  {
    && a.usage == b.usage && a.tail == b.tail
    && |a.rowIndex| == |b.rowIndex|
    && forall i | 0 <= i < |a.rowIndex| :: RowAt(a, i) == RowAt(b, i)
  }

  function Min(a: nat, b: nat): nat { if a < b then a else b }

  lemma PackedShift(p: nat, shift: nat)
    requires shift % 8 == 0
    ensures Unpack(p + Packed(shift)) == Unpack(p) + shift
    ensures shift <= Unpack(p) ==> Packed(shift) <= p && Unpack(p - Packed(shift)) == Unpack(p) - shift
  {
  }

  /** A BLCKSZ boundary minus an 8-byte boundary is an 8-byte boundary. */
  lemma BlockMinusAligned(n: nat, off: nat)
    requires off % 8 == 0 && off <= BlockAlign(n)
    ensures (BlockAlign(n) - off) % 8 == 0
  {
    var q := AlignQuot(BLCKSZ, n);
    assert BlockAlign(n) == 8 * (1024 * q);
  }

  /** The new length of an expanded KDS is 8-aligned, capped, and larger than the old one. */
  lemma ExpandedLength(length: nat, mapLength: nat, kdsOffset: nat)
    requires length % 8 == 0 && length < TWO_32
    requires kdsOffset % 8 == 0 && kdsOffset + length <= mapLength
    ensures kdsOffset <= BlockAlign(3 * mapLength / 2)
    ensures var n := Min(BlockAlign(3 * mapLength / 2) - kdsOffset, KDS_MAX_LENGTH);
      n % 8 == 0 && length <= n <= KDS_MAX_LENGTH && (mapLength >= 2 ==> length < n)
  {
    BlockMinusAligned(3 * mapLength / 2, kdsOffset);
  }

  /** One row index entry advanced by the growth of its KDS still points into the moved tuple block. */
  lemma RowMovedUp(p: nat, oldLength: nat, usage: nat, newLength: nat)
    requires p < TWO_32 && usage <= oldLength && oldLength - usage <= Unpack(p) < oldLength
    requires oldLength % 8 == 0 && newLength % 8 == 0 && oldLength <= newLength <= KDS_MAX_LENGTH
    ensures var q := (p + Packed(newLength - oldLength)) % TWO_32;
      && q == p + Packed(newLength - oldLength)
      && newLength - usage <= Unpack(q) < newLength
      && Unpack(q) - (newLength - usage) == Unpack(p) - (oldLength - usage)
  {
    PackedShift(p, newLength - oldLength);
  }

  /** One row index entry moved back by a compaction still points into the moved tuple block. */
  lemma RowMovedDown(p: nat, oldLength: nat, usage: nat, newLength: nat)
    requires p < TWO_32 && usage <= newLength <= oldLength && oldLength - usage <= Unpack(p) < oldLength
    requires (oldLength - newLength) % 8 == 0
    ensures var q := (p - Packed(oldLength - newLength)) % TWO_32;
      && q == p - Packed(oldLength - newLength)
      && newLength - usage <= Unpack(q) < newLength
      && Unpack(q) - (newLength - usage) == Unpack(p) - (oldLength - usage)
  {
    PackedShift(p, oldLength - newLength);
  }

  /** The row index update loops, in `cl_uint` arithmetic. */
  method AddToRows(rows: seq<nat>, d: nat) returns (r: seq<nat>)
    ensures |r| == |rows|
    ensures forall j | 0 <= j < |r| :: r[j] == (rows[j] + d) % TWO_32
  {
    r := rows;
    var i := 0;
    while i < |r|
      invariant 0 <= i <= |r| == |rows|
      invariant forall j | 0 <= j < i :: r[j] == (rows[j] + d) % TWO_32
      invariant forall j | i <= j < |r| :: r[j] == rows[j]
    {
      r := r[i := (r[i] + d) % TWO_32];
      i := i + 1;
    }
  }

  method SubFromRows(rows: seq<nat>, d: nat) returns (r: seq<nat>)
    ensures |r| == |rows|
    ensures forall j | 0 <= j < |r| :: r[j] == (rows[j] - d) % TWO_32
  {
    r := rows;
    var i := 0;
    while i < |r|
      invariant 0 <= i <= |r| == |rows|
      invariant forall j | 0 <= j < i :: r[j] == (rows[j] - d) % TWO_32
      invariant forall j | i <= j < |r| :: r[j] == rows[j]
    {
      r := r[i := (r[i] - d) % TWO_32];
      i := i + 1;
    }
  }

  /**
   * gpujoin_expand_inner_kds: the shared segment is resized to one and a
   * half times its mapped length, rounded up to BLCKSZ; the KDS takes what
   * follows its offset (at most 16GB), the tuple block moves to the new end
   * and every row index entry is advanced by the distance it moved, in
   * 32-bit unsigned arithmetic. A KDS of 4GB or more is refused.
   * Answers the new KDS and the new segment length.
   */
  method Expand(k: Kds, mapLength: nat, kdsOffset: nat) returns (r: Result<(Kds, nat)>)
    requires WellFormed(k)
    requires kdsOffset % 8 == 0 && kdsOffset + k.length <= mapLength
    ensures r.Err? <==> k.length >= TWO_32
    ensures r.Ok? ==>
      && r.value.1 == BlockAlign(3 * mapLength / 2)
      && r.value.0.length == Min(r.value.1 - kdsOffset, KDS_MAX_LENGTH)
      && WellFormed(r.value.0) && SameRows(k, r.value.0)
      && k.length <= r.value.0.length
      && (mapLength >= 2 ==> k.length < r.value.0.length)
  {
    if k.length >= TWO_32 {
      return Err("GpuJoin: inner hash table larger than 4GB is not supported right now");
    }
    var newDsmlen := BlockAlign(3 * mapLength / 2);
    ExpandedLength(k.length, mapLength, kdsOffset);
    var kdsLength := Min(newDsmlen - kdsOffset, KDS_MAX_LENGTH);
    var shift := kdsLength - k.length;
    var rows := k.rowIndex;
    if |k.rowIndex| > 0 {
      rows := AddToRows(rows, Packed(shift));
    }
    var k2 := Kds(kdsLength, k.usage, rows, k.tail);
    forall i | 0 <= i < |rows|
      ensures rows[i] < TWO_32 && kdsLength - k.usage <= Unpack(rows[i]) < kdsLength
      ensures RowAt(k2, i) == RowAt(k, i)
    {
      RowMovedUp(k.rowIndex[i], k.length, k.usage, kdsLength);
    }
    r := Ok((k2, newDsmlen));
  }

  /**
   * gpujoin_compaction_inner_kds: when the hole between the head of the
   * KDS (`headSz` bytes: header, row index and hash slots) and the tuple
   * block exceeds 32KB, the block moves down to the head and the row index
   * moves back by the same distance.
   */
  method Compact(k: Kds, headSz: nat) returns (k2: Kds)
    requires WellFormed(k)
    requires headSz % 8 == 0 && headSz + k.usage <= k.length
    ensures WellFormed(k2) && SameRows(k, k2)
    ensures headSz + k2.usage <= k2.length <= k.length
    ensures k2.length - (headSz + k2.usage) <= COMPACTION_THRESHOLD || k2.length == k.length
    ensures k2.length < k.length ==> k2.length == headSz + k2.usage
    ensures k.length - (headSz + k.usage) > COMPACTION_THRESHOLD ==> k2.length == headSz + k2.usage
  {
    var shift := k.length - (headSz + k.usage);
    if shift <= COMPACTION_THRESHOLD {
      return k;
    }
    k2 := MoveDown(k, headSz);
  }

  /** The move of gpujoin_compaction_inner_kds: the tuple block now follows the head directly. */
  method MoveDown(k: Kds, headSz: nat) returns (k2: Kds)
    requires WellFormed(k)
    requires headSz % 8 == 0 && headSz + k.usage <= k.length
    ensures WellFormed(k2) && SameRows(k, k2) && k2.length == headSz + k2.usage
  {
    var shift := k.length - (headSz + k.usage);
    var rows := SubFromRows(k.rowIndex, Packed(shift));
    k2 := Kds(headSz + k.usage, k.usage, rows, k.tail);
    forall i | 0 <= i < |rows|
      ensures rows[i] < TWO_32 && k2.length - k.usage <= Unpack(rows[i]) < k2.length
      ensures RowAt(k2, i) == RowAt(k, i)
    {
      RowMovedDown(k.rowIndex[i], k.length, k.usage, k2.length);
    }
  }

  /**
   * The tail of gpujoin_inner_heap_preload: after compaction a row-format
   * inner buffer longer than UINT_MAX is refused.
   */
  method FinishHeap(k: Kds, headSz: nat) returns (r: Result<Kds>)
    requires WellFormed(k)
    requires headSz % 8 == 0 && headSz + k.usage <= k.length
    ensures r.Ok? ==> WellFormed(r.value) && SameRows(k, r.value) && r.value.length < TWO_32
    ensures k.length < TWO_32 ==> r.Ok?
    ensures r.Err? ==> headSz + k.usage >= TWO_32 || k.length - (headSz + k.usage) <= COMPACTION_THRESHOLD
  {
    var k2 := Compact(k, headSz);
    if k2.length > TWO_32 - 1 {
      return Err("GpuJoin: inner heap table larger than 4GB is not supported right now");
    }
    r := Ok(k2);
  }

  // ---------------------------------------------------------------------
  // Hash value of the join keys
  // ---------------------------------------------------------------------

  /** One evaluated join key: its type and datum, or None when it is NULL. */
  datatype KeyValue = KeyValue(typ: nat, datum: nat)

  /** The per-type hash function of the device type catalog, folded into a CRC-32 state. */
  type HashFn = (nat, bv32, nat) -> bv32

  function Mix(key: Option<KeyValue>, crc: bv32, h: HashFn): bv32
  {
    match key
    case None => crc
    case Some(kv) => h(kv.typ, crc, kv.datum)
  }

  function Fold(keys: seq<Option<KeyValue>>, crc: bv32, h: HashFn): bv32
    decreases |keys|
  {
    if |keys| == 0 then crc else Fold(keys[1..], Mix(keys[0], crc, h), h)
  }

  function NonNull(keys: seq<Option<KeyValue>>): (r: seq<Option<KeyValue>>)
    ensures forall i | 0 <= i < |r| :: r[i].Some?
    ensures |r| <= |keys|
  {
    if |keys| == 0 then []
    else if keys[0].None? then NonNull(keys[1..])
    else [keys[0]] + NonNull(keys[1..])
  }

  const CRC_INIT: bv32 := 0xFFFF_FFFF

  /**
   * get_tuple_hashvalue: the legacy CRC-32 state starts at all ones, each
   * non-NULL key is mixed in by its type's hash function, and the state is
   * inverted at the end; the flag reports that every key was NULL.
   */
  function HashKeys(keys: seq<Option<KeyValue>>, h: HashFn): (r: (bv32, bool))
    ensures r.1 ==> r.0 == 0
  {
    var allNull := forall i | 0 <= i < |keys| :: keys[i].None?;
    if allNull then FoldAllNull(keys, CRC_INIT, h); (Fold(keys, CRC_INIT, h) ^ CRC_INIT, allNull)
    else (Fold(keys, CRC_INIT, h) ^ CRC_INIT, allNull)
  }

  lemma {:induction false} FoldAllNull(keys: seq<Option<KeyValue>>, crc: bv32, h: HashFn)
    requires forall i | 0 <= i < |keys| :: keys[i].None?
    ensures Fold(keys, crc, h) == crc
    decreases |keys|
  {
    if |keys| > 0 {
      assert keys[0].None?;
      FoldAllNull(keys[1..], crc, h);
    }
  }

  lemma {:induction false} FoldNonNull(keys: seq<Option<KeyValue>>, crc: bv32, h: HashFn)
    ensures Fold(keys, crc, h) == Fold(NonNull(keys), crc, h)
    decreases |keys|
  {
    if |keys| > 0 {
      FoldNonNull(keys[1..], Mix(keys[0], crc, h), h);
      if keys[0].Some? {
        assert ([keys[0]] + NonNull(keys[1..]))[1..] == NonNull(keys[1..]);
      }
    }
  }

  /** NULL keys do not contribute to the hash: only the non-NULL keys, in order, decide it. */
  lemma HashIgnoresNulls(keys: seq<Option<KeyValue>>, h: HashFn)
    ensures HashKeys(keys, h).0 == HashKeys(NonNull(keys), h).0
  {
    FoldNonNull(keys, CRC_INIT, h);
    NonNullIdem(keys);
  }

  lemma {:induction false} NonNullIdem(keys: seq<Option<KeyValue>>)
    ensures NonNull(NonNull(keys)) == NonNull(keys)
    decreases |keys|
  {
    if |keys| > 0 {
      NonNullIdem(keys[1..]);
      if keys[0].Some? {
        var r := [keys[0]] + NonNull(keys[1..]);
        assert r[1..] == NonNull(keys[1..]);
      }
    }
  }

  /**
   * The filter of gpujoin_inner_hash_preload: an inner row whose join keys
   * are all NULL can never match, and is kept only when the join has to
   * return unmatched inner rows (RIGHT and FULL).
   */
  predicate KeepInnerRow(allNull: bool, jt: JoinType)
  {
    !(allNull && (jt == JoinInner || jt == JoinLeft))
  }

  /** An inner row loaded into the hash table: its position in the inner scan and its hash. */
  datatype HashItem = HashItem(source: nat, hash: bv32)

  /** The positions, among the first `n` inner rows, of the rows the filter keeps. */
  function KeptRows(rows: seq<seq<Option<KeyValue>>>, jt: JoinType, h: HashFn, n: nat): (r: seq<nat>)
    requires n <= |rows|
    ensures forall k | 0 <= k < |r| :: r[k] < n
  {
    if n == 0 then []
    else KeptRows(rows, jt, h, n - 1) + (if KeepInnerRow(HashKeys(rows[n - 1], h).1, jt) then [n - 1] else [])
  }

  lemma {:induction false} KeptRowsMembers(rows: seq<seq<Option<KeyValue>>>, jt: JoinType, h: HashFn, n: nat, i: nat)
    requires n <= |rows|
    ensures i in KeptRows(rows, jt, h, n) <==> i < n && KeepInnerRow(HashKeys(rows[i], h).1, jt)
    decreases n
  {
    if n > 0 {
      KeptRowsMembers(rows, jt, h, n - 1, i);
    }
  }

  /**
   * The scan loop of gpujoin_inner_hash_preload: every inner row is hashed
   * and the rows that survive the filter become hash items, in scan order.
   */
  method PreloadRows(rows: seq<seq<Option<KeyValue>>>, jt: JoinType, h: HashFn) returns (items: seq<HashItem>)
    ensures |items| == |KeptRows(rows, jt, h, |rows|)|
    ensures forall k | 0 <= k < |items| ::
      items[k] == HashItem(KeptRows(rows, jt, h, |rows|)[k], HashKeys(rows[KeptRows(rows, jt, h, |rows|)[k]], h).0)
  {
    items := [];
    var i := 0;
    while i < |rows|
      invariant 0 <= i <= |rows|
      invariant |items| == |KeptRows(rows, jt, h, i)|
      invariant forall k | 0 <= k < |items| ::
        KeptRows(rows, jt, h, i)[k] < i &&
        items[k] == HashItem(KeptRows(rows, jt, h, i)[k], HashKeys(rows[KeptRows(rows, jt, h, i)[k]], h).0)
    {
      var hk := HashKeys(rows[i], h);
      if KeepInnerRow(hk.1, jt) {
        items := items + [HashItem(i, hk.0)];
      }
      i := i + 1;
    }
  }

  // ---------------------------------------------------------------------
  // Hash chains
  // ---------------------------------------------------------------------

  /*
   * A hash slot or `next` link holds the packed offset of a hash item, or
   * zero for the end of the chain. Item offsets are distinct and non-zero,
   * so the model writes item `i` as `i + 1`.
   */

  /** Links only point backwards: the chain from any item ends. */
  predicate LinksBackward(next: seq<nat>)
  {
    forall i | 0 <= i < |next| :: next[i] <= i
  }

  /** The items reached from pointer `p` by following `next`. */
  function Chain(next: seq<nat>, p: nat): seq<nat>
    requires LinksBackward(next) && p <= |next|
    decreases p
  {
    if p == 0 then [] else [p - 1] + Chain(next, next[p - 1])
  }

  /** The items among the first `n` whose hash falls in slot `j`, newest first. */
  function Bucket(hashes: seq<bv32>, nslots: nat, j: nat, n: nat): (b: seq<nat>)
    requires nslots > 0 && n <= |hashes|
  {
    if n == 0 then []
    else if hashes[n - 1] as nat % nslots == j then [n - 1] + Bucket(hashes, nslots, j, n - 1)
    else Bucket(hashes, nslots, j, n - 1)
  }

  lemma {:induction false} ChainAppend(next: seq<nat>, x: nat, p: nat)
    requires LinksBackward(next) && x <= |next| && p <= |next|
    ensures LinksBackward(next + [x])
    ensures Chain(next + [x], p) == Chain(next, p)
    decreases p
  {
    assert LinksBackward(next + [x]) by {
      forall i | 0 <= i < |next + [x]| ensures (next + [x])[i] <= i {
        if i < |next| { assert (next + [x])[i] == next[i]; }
      }
    }
    if p > 0 {
      assert (next + [x])[p - 1] == next[p - 1];
      ChainAppend(next, x, next[p - 1]);
    }
  }

  /**
   * The construction loop of gpujoin_inner_hash_preload: for each item in
   * row order, its `next` link takes the current head of its slot
   * (hash modulo the slot count) and the slot then points at the item.
   */
  method BuildChains(hashes: seq<bv32>, nslots: nat) returns (slots: seq<nat>, next: seq<nat>)
    requires nslots > 0
    ensures |slots| == nslots && |next| == |hashes|
    ensures LinksBackward(next)
    ensures forall j | 0 <= j < nslots :: slots[j] <= |next|
    ensures forall j | 0 <= j < nslots :: Chain(next, slots[j]) == Bucket(hashes, nslots, j, |hashes|)
  {
    slots := seq(nslots, _ => 0);
    next := [];
    var i := 0;
    while i < |hashes|
      invariant 0 <= i <= |hashes| && |next| == i && |slots| == nslots
      invariant LinksBackward(next)
      invariant forall j | 0 <= j < nslots :: slots[j] <= i
      invariant forall j | 0 <= j < nslots :: Chain(next, slots[j]) == Bucket(hashes, nslots, j, i)
    {
      var j0 := hashes[i] as nat % nslots;
      var next' := next + [slots[j0]];
      forall j | 0 <= j < nslots
        ensures LinksBackward(next')
        ensures Chain(next', slots[j]) == Chain(next, slots[j])
      {
        ChainAppend(next, slots[j0], slots[j]);
      }
      assert Chain(next', i + 1) == [i] + Chain(next, slots[j0]);
      next := next';
      slots := slots[j0 := i + 1];
      i := i + 1;
    }
  }

  lemma {:induction false} BucketMembers(hashes: seq<bv32>, nslots: nat, j: nat, n: nat, i: nat)
    requires nslots > 0 && n <= |hashes|
    ensures i in Bucket(hashes, nslots, j, n) <==> i < n && hashes[i] as nat % nslots == j
    decreases n
  {
    if n > 0 {
      BucketMembers(hashes, nslots, j, n - 1, i);
    }
  }

  lemma {:induction false} BucketDescending(hashes: seq<bv32>, nslots: nat, j: nat, n: nat)
    requires nslots > 0 && n <= |hashes|
    ensures forall a, b | 0 <= a < b < |Bucket(hashes, nslots, j, n)| ::
      Bucket(hashes, nslots, j, n)[a] > Bucket(hashes, nslots, j, n)[b]
    decreases n
  {
    if n > 0 {
      BucketDescending(hashes, nslots, j, n - 1);
      var t := Bucket(hashes, nslots, j, n - 1);
      forall b | 0 <= b < |t| ensures t[b] < n - 1 {
        BucketMembers(hashes, nslots, j, n - 1, t[b]);
      }
    }
  }

  /**
   * Walking the chain of the slot a hash value selects finds every item
   * with that hash value, newest first, and nothing from other slots.
   */
  lemma ChainFindsAll(hashes: seq<bv32>, nslots: nat, slots: seq<nat>, next: seq<nat>, hv: bv32)
    requires nslots > 0 && |slots| == nslots && |next| == |hashes| && LinksBackward(next)
    requires forall j | 0 <= j < nslots :: slots[j] <= |next|
    requires forall j | 0 <= j < nslots :: Chain(next, slots[j]) == Bucket(hashes, nslots, j, |hashes|)
    ensures var c := Chain(next, slots[hv as nat % nslots]);
      && (forall i | 0 <= i < |hashes| && hashes[i] == hv :: i in c)
      && (forall i | i in c :: i < |hashes| && hashes[i] as nat % nslots == hv as nat % nslots)
      && (forall a, b | 0 <= a < b < |c| :: c[a] > c[b])
  {
    var j := hv as nat % nslots;
    forall i | 0 <= i < |hashes| ensures hashes[i] as nat % nslots == j ==> i in Chain(next, slots[j]) {
      BucketMembers(hashes, nslots, j, |hashes|, i);
    }
    forall i | i in Chain(next, slots[j]) ensures i < |hashes| && hashes[i] as nat % nslots == j {
      BucketMembers(hashes, nslots, j, |hashes|, i);
    }
    BucketDescending(hashes, nslots, j, |hashes|);
  }
}
