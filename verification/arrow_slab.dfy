/**
 * The slab allocator behind the shared-memory Arrow metadata cache
 * (next/arrow_fdw.c:62-128, 212-420). Shared memory is cut into 128kB
 * blocks; a block in use is carved into equal units of one kind, either
 * field caches or record-batch caches. Every unit carries a magic word
 * (FREE or ACTIVE) and its block counts its ACTIVE units in `n_actives`.
 * Free units of each kind wait on a free list; when the last unit of a
 * block is released, all its units leave the free list and the block goes
 * back to `free_blocks`.
 *
 * The model keeps the allocator's bookkeeping: which blocks are carved,
 * the magic of every unit, the counters and the three free lists. The
 * copied metadata fields of a unit are not modelled. A cache tree to be
 * released is given as a `Tree` value naming its units.
 */
module ArrowSlab {
  import opened Wrappers

  const ARROW_METADATA_BLOCKSZ: nat := 128 * 1024
  /** offsetof(arrowMetadataCacheBlock, data): a list node and two 32-bit counters. */
  const BLOCK_HEADER: nat := 24
  const FREE_MAGIC: bv32 := 0xdeadbeaf
  const ACTIVE_MAGIC: bv32 := 0xcafebabe

  datatype Kind = FieldCache | MetaCache

  /** A unit: the block that owns it and its position in the block. */
  datatype UnitId = UnitId(block: nat, slot: nat)

  /** A carved block: the kind and MAXALIGN'ed size of its units, and its active count. */
  datatype Block = Block(kind: Kind, unitsz: nat, nActives: int)

  datatype Slabs = Slabs(
    blocks: map<nat, Block>,
    freeBlocks: seq<nat>,
    magic: map<UnitId, bv32>,
    freeFields: seq<UnitId>,
    freeCaches: seq<UnitId>)

  /** How many units the carving loop fits after the block header. */
  function Slots(unitsz: nat): nat
  {
    if unitsz == 0 then 0 else (ARROW_METADATA_BLOCKSZ - BLOCK_HEADER) / unitsz
  }

  function FreeList(s: Slabs, k: Kind): seq<UnitId>
  {
    if k == FieldCache then s.freeFields else s.freeCaches
  }

  function WithFreeList(s: Slabs, k: Kind, l: seq<UnitId>): (r: Slabs)
    ensures FreeList(r, k) == l
  {
    if k == FieldCache then s.(freeFields := l) else s.(freeCaches := l)
  }

  /** A unit that lies inside a carved block. */
  predicate InBlock(s: Slabs, u: UnitId)
  {
    u.block in s.blocks && u.slot < Slots(s.blocks[u.block].unitsz)
  }

  predicate HasMagic(s: Slabs, u: UnitId, m: bv32)
  {
    InBlock(s, u) && u in s.magic && s.magic[u] == m
  }

  /** The slots of a carved block whose unit is ACTIVE. */
  function ActiveSlots(s: Slabs, b: nat): set<nat>
    requires b in s.blocks
  {
    set k | 0 <= k < Slots(s.blocks[b].unitsz) && HasMagic(s, UnitId(b, k), ACTIVE_MAGIC)
  }

  /** Every ACTIVE unit of the cache. */
  function Active(s: Slabs): set<UnitId>
  {
    set u | u in s.magic && HasMagic(s, u, ACTIVE_MAGIC)
  }

  predicate Distinct<T(==)>(l: seq<T>)
  {
    forall i, j | 0 <= i < j < |l| :: l[i] != l[j]
  }

  /**
   * The allocator's invariant: the free blocks are distinct and none is
   * carved; each carved block counts exactly its ACTIVE units; each free list
   * holds, once each, exactly the FREE units of the carved blocks of its kind.
   */
  ghost predicate Inv(s: Slabs)
  {
    BlocksOk(s) && CountsOk(s) && FreeListOk(s, FieldCache) && FreeListOk(s, MetaCache)
  }

  ghost predicate BlocksOk(s: Slabs)
  {
    && Distinct(s.freeBlocks)
    && (forall i | 0 <= i < |s.freeBlocks| :: s.freeBlocks[i] !in s.blocks)
    && (forall b | b in s.blocks :: s.blocks[b].unitsz > 0)
  }

  ghost predicate CountsOk(s: Slabs)
  {
    forall b | b in s.blocks :: s.blocks[b].nActives == |ActiveSlots(s, b)|
  }

  ghost predicate FreeListOk(s: Slabs, k: Kind)
  {
    && Distinct(FreeList(s, k))
    && forall u: UnitId ::
         u in FreeList(s, k) <==> HasMagic(s, u, FREE_MAGIC) && s.blocks[u.block].kind == k
  }

  function Other(k: Kind): Kind
  {
    if k == FieldCache then MetaCache else FieldCache
  }

  /** Shared memory at startup: every block free, nothing carved. */
  function Initial(nblocks: nat): (s: Slabs)
    ensures Inv(s)
  {
    Slabs(map[], seq(nblocks, i => i), map[], [], [])
  }

  // ---------------------------------------------------------------------
  // Frame reasoning shared by the operations
  // ---------------------------------------------------------------------

  /** Unit `v` lies in the same kind of block, with the same magic, in `s` and `r`. */
  ghost predicate Same(s: Slabs, r: Slabs, v: UnitId)
  {
    && (InBlock(s, v) <==> InBlock(r, v))
    && (InBlock(s, v) ==>
          && s.blocks[v.block].kind == r.blocks[v.block].kind
          && (v in s.magic <==> v in r.magic)
          && (v in s.magic ==> s.magic[v] == r.magic[v]))
  }

  lemma SameSlots(s: Slabs, r: Slabs, c: nat)
    requires c in s.blocks && c in r.blocks && s.blocks[c].unitsz == r.blocks[c].unitsz
    requires forall k: nat :: Same(s, r, UnitId(c, k))
    ensures ActiveSlots(r, c) == ActiveSlots(s, c)
  {
    forall k ensures k in ActiveSlots(r, c) <==> k in ActiveSlots(s, c) {
      if 0 <= k {
        assert Same(s, r, UnitId(c, k));
      }
    }
  }

  /**
   * The shape of a one-unit change: the same carved blocks with the same
   * units, one block's counter moved by `delta`, one unit's magic set to `m`.
   */
  ghost predicate Flip(s: Slabs, r: Slabs, u: UnitId, m: bv32, delta: int)
  {
    && u.block in s.blocks
    && r.blocks == s.blocks[u.block := s.blocks[u.block].(nActives := s.blocks[u.block].nActives + delta)]
    && r.magic == s.magic[u := m]
    && r.freeBlocks == s.freeBlocks
  }

  lemma FlipFrame(s: Slabs, r: Slabs, u: UnitId, m: bv32, delta: int)
    requires Flip(s, r, u, m, delta)
    ensures forall v: UnitId | v != u :: Same(s, r, v)
    ensures InBlock(r, u) == InBlock(s, u)
    ensures InBlock(r, u) ==> HasMagic(r, u, m)
    ensures forall c | c in r.blocks && c != u.block :: ActiveSlots(r, c) == ActiveSlots(s, c)
    ensures BlocksOk(s) ==> BlocksOk(r)
  {
    forall c | c in r.blocks && c != u.block
      ensures ActiveSlots(r, c) == ActiveSlots(s, c)
    {
      SameSlots(s, r, c);
    }
  }

  lemma FlipSlots(s: Slabs, r: Slabs, u: UnitId, m: bv32, delta: int)
    requires Flip(s, r, u, m, delta) && InBlock(s, u) && u in s.magic
    ensures m == ACTIVE_MAGIC && s.magic[u] != ACTIVE_MAGIC ==>
      ActiveSlots(r, u.block) == ActiveSlots(s, u.block) + {u.slot} && u.slot !in ActiveSlots(s, u.block)
    ensures m != ACTIVE_MAGIC && s.magic[u] == ACTIVE_MAGIC ==>
      ActiveSlots(r, u.block) == ActiveSlots(s, u.block) - {u.slot} && u.slot in ActiveSlots(s, u.block)
  {
    FlipFrame(s, r, u, m, delta);
    var b := u.block;
    forall k ensures k in ActiveSlots(r, b) <==> (k in ActiveSlots(s, b) && k != u.slot) || (k == u.slot && m == ACTIVE_MAGIC) {
      if 0 <= k && k != u.slot {
        assert Same(s, r, UnitId(b, k));
      }
    }
  }

  // ---------------------------------------------------------------------
  // Allocation
  // ---------------------------------------------------------------------

  /** The units of block `b` in carving order. */
  function UnitsOf(b: nat, n: nat): (l: seq<UnitId>)
    ensures |l| == n && forall i | 0 <= i < n :: l[i] == UnitId(b, i)
    ensures forall v :: v in l <==> v.block == b && v.slot < n
  {
    var l := seq(n, i requires 0 <= i < n => UnitId(b, i));
    assert forall v: UnitId | v.block == b && v.slot < n :: l[v.slot] == v;
    l
  }

  function SetFree(m: map<UnitId, bv32>, b: nat, n: nat): (r: map<UnitId, bv32>)
    ensures forall u | u in m :: u in r
    ensures forall u | u in r :: u in m || u.block == b
    ensures forall k | 0 <= k < n :: UnitId(b, k) in r && r[UnitId(b, k)] == FREE_MAGIC
    ensures forall u | u in m && !(u.block == b && u.slot < n) :: r[u] == m[u]
  {
    map u | u in m.Keys + set k | 0 <= k < n :: UnitId(b, k) ::
      if u.block == b && u.slot < n then FREE_MAGIC else m[u]
  }

  /** The shape of carving block `b` into units of `unitsz` bytes for kind `k`. */
  ghost predicate CarveShape(s: Slabs, r: Slabs, k: Kind, b: nat, unitsz: nat)
  {
    && |s.freeBlocks| > 0 && b == s.freeBlocks[0] && unitsz > 0
    && r.blocks == s.blocks[b := Block(k, unitsz, 0)]
    && r.freeBlocks == s.freeBlocks[1..]
    && r.magic == SetFree(s.magic, b, Slots(unitsz))
    && FreeList(r, k) == UnitsOf(b, Slots(unitsz))
    && FreeList(r, Other(k)) == FreeList(s, Other(k))
  }

  lemma CarveFrame(s: Slabs, r: Slabs, k: Kind, b: nat, unitsz: nat)
    requires BlocksOk(s) && CarveShape(s, r, k, b, unitsz)
    ensures BlocksOk(r)
    ensures b !in s.blocks
    ensures forall v: UnitId | v.block != b :: Same(s, r, v)
    ensures forall v: UnitId | v.block == b :: !InBlock(s, v) && !HasMagic(r, v, ACTIVE_MAGIC)
    ensures forall v: UnitId | v.block == b :: HasMagic(r, v, FREE_MAGIC) <==> v.slot < Slots(unitsz)
  {
    assert s.freeBlocks[0] !in s.blocks;
    forall i | 0 <= i < |r.freeBlocks| ensures r.freeBlocks[i] !in r.blocks {
      assert r.freeBlocks[i] == s.freeBlocks[i + 1];
    }
  }

  lemma CarvePreserves(s: Slabs, r: Slabs, k: Kind, b: nat, unitsz: nat)
    requires Inv(s) && |FreeList(s, k)| == 0 && CarveShape(s, r, k, b, unitsz)
    ensures Inv(r) && Active(r) == Active(s)
  {
    CarveFrame(s, r, k, b, unitsz);
    forall c | c in r.blocks
      ensures r.blocks[c].nActives == |ActiveSlots(r, c)|
    {
      if c == b {
        assert ActiveSlots(r, b) == {};
      } else {
        SameSlots(s, r, c);
      }
    }
    assert FreeListOk(r, k) by {
      forall v: UnitId
        ensures v in FreeList(r, k) <==> HasMagic(r, v, FREE_MAGIC) && r.blocks[v.block].kind == k
      {
        if v.block != b {
          assert Same(s, r, v);
          assert v !in FreeList(s, k);
        }
      }
    }
    assert FreeListOk(r, Other(k)) by {
      forall v: UnitId
        ensures v in FreeList(r, Other(k)) <==> HasMagic(r, v, FREE_MAGIC) && r.blocks[v.block].kind == Other(k)
      {
        if v.block != b {
          assert Same(s, r, v);
        } else {
          assert v !in FreeList(s, Other(k));
        }
      }
    }
    forall v ensures v in Active(r) <==> v in Active(s) {
      if v.block != b {
        assert Same(s, r, v);
      }
    }
  }

  /**
   * Take the head of `free_blocks`, reset its header, and push each of its
   * units, marked FREE, on the tail of the kind's free list.
   */
  function Carve(s: Slabs, k: Kind, unitsz: nat): (r: Slabs)
    requires Inv(s) && |s.freeBlocks| > 0 && |FreeList(s, k)| == 0
    requires 0 < unitsz <= ARROW_METADATA_BLOCKSZ - BLOCK_HEADER
    ensures Inv(r)
    ensures |FreeList(r, k)| > 0
    ensures Active(r) == Active(s)
  {
    var b := s.freeBlocks[0];
    var n := Slots(unitsz);
    var r := WithFreeList(
      s.(blocks := s.blocks[b := Block(k, unitsz, 0)],
         freeBlocks := s.freeBlocks[1..],
         magic := SetFree(s.magic, b, n)),
      k, UnitsOf(b, n));
    assert n >= 1;
    assert FreeList(r, Other(k)) == FreeList(s, Other(k));
    CarvePreserves(s, r, k, b, unitsz);
    r
  }

  lemma ActivatePreserves(s: Slabs, r: Slabs, k: Kind, u: UnitId)
    requires Inv(s) && |FreeList(s, k)| > 0 && u == FreeList(s, k)[0]
    requires Flip(s, r, u, ACTIVE_MAGIC, 1)
    requires FreeList(r, k) == FreeList(s, k)[1..] && FreeList(r, Other(k)) == FreeList(s, Other(k))
    ensures Inv(r) && Active(r) == Active(s) + {u} && u !in Active(s)
  {
    assert u in FreeList(s, k);
    assert HasMagic(s, u, FREE_MAGIC);
    FlipFrame(s, r, u, ACTIVE_MAGIC, 1);
    FlipSlots(s, r, u, ACTIVE_MAGIC, 1);
    assert u !in FreeList(r, k) by {
      forall i | 0 <= i < |FreeList(r, k)| ensures FreeList(r, k)[i] != u {
        assert FreeList(r, k)[i] == FreeList(s, k)[i + 1];
      }
    }
    assert FreeListOk(r, k) by {
      forall v: UnitId
        ensures v in FreeList(r, k) <==> HasMagic(r, v, FREE_MAGIC) && r.blocks[v.block].kind == k
      {
        if v != u {
          assert Same(s, r, v);
          assert v in FreeList(r, k) <==> v in FreeList(s, k);
        }
      }
    }
    assert FreeListOk(r, Other(k)) by {
      assert u !in FreeList(s, Other(k));
      forall v: UnitId
        ensures v in FreeList(r, Other(k)) <==> HasMagic(r, v, FREE_MAGIC) && r.blocks[v.block].kind == Other(k)
      {
        if v != u {
          assert Same(s, r, v);
        }
      }
    }
    forall v ensures v in Active(r) <==> v in Active(s) || v == u {
      if v != u {
        assert Same(s, r, v);
      }
    }
  }

  /** Pop the head of the kind's free list, count it in its block and mark it ACTIVE. */
  function Activate(s: Slabs, k: Kind): (r: (Slabs, UnitId))
    requires Inv(s) && |FreeList(s, k)| > 0
    ensures Inv(r.0)
    ensures Active(r.0) == Active(s) + {r.1} && r.1 !in Active(s)
    ensures r.0.blocks[r.1.block].kind == k
  {
    var u := FreeList(s, k)[0];
    assert u in FreeList(s, k);
    var blk := s.blocks[u.block];
    var r := WithFreeList(
      s.(blocks := s.blocks[u.block := blk.(nActives := blk.nActives + 1)],
         magic := s.magic[u := ACTIVE_MAGIC]),
      k, FreeList(s, k)[1..]);
    assert FreeList(r, Other(k)) == FreeList(s, Other(k));
    ActivatePreserves(s, r, k, u);
    (r, u)
  }

  /** What an allocation gives back: a unit, NULL, or a crash of the backend. */
  datatype Outcome = Got(unit: UnitId) | NoSpace | NullDeref

  /**
   * `__allocMetadataFieldCache` and, with `fixed`, `__allocMetadataCache`:
   * carve a free block if the kind's free list is empty, then activate the
   * head of the list. Reclaiming old caches by their LRU age is not modelled:
   * with no free block the allocation returns NULL, as when nothing can be
   * reclaimed. As written, the record-batch variant zeroes its own local
   * pointer instead of the unit's list fields and then stores the magic
   * through it: the backend dereferences NULL.
   */
  function Alloc(s: Slabs, k: Kind, unitsz: nat, fixed: bool): (r: (Slabs, Outcome))
    requires Inv(s) && 0 < unitsz <= ARROW_METADATA_BLOCKSZ - BLOCK_HEADER
    ensures Inv(r.0)
    ensures r.1.Got? ==> Active(r.0) == Active(s) + {r.1.unit} && r.1.unit !in Active(s)
    ensures r.1.Got? ==> r.0.blocks[r.1.unit.block].kind == k
    ensures r.1.NoSpace? <==> |FreeList(s, k)| == 0 && |s.freeBlocks| == 0
    ensures r.1.NoSpace? ==> r.0 == s
    ensures r.1.NullDeref? <==> k == MetaCache && !fixed && !r.1.NoSpace?
  {
    if |FreeList(s, k)| == 0 && |s.freeBlocks| == 0 then (s, NoSpace)
    else
      var s1 := if |FreeList(s, k)| == 0 then Carve(s, k, unitsz) else s;
      var a := Activate(s1, k);
      if k == MetaCache && !fixed then (a.0, NullDeref) else (a.0, Got(a.1))
  }

  // ---------------------------------------------------------------------
  // Release
  // ---------------------------------------------------------------------

  /** Every unit of block `b` taken off a free list. */
  function DropBlock(l: seq<UnitId>, b: nat): (r: seq<UnitId>)
    ensures forall u :: u in r <==> u in l && u.block != b
    ensures Distinct(l) ==> Distinct(r)
  {
    if |l| == 0 then []
    else
      var rest := DropBlock(l[1..], b);
      var r := if l[0].block == b then rest else [l[0]] + rest;
      assert forall u :: u in l <==> u == l[0] || u in l[1..];
      r
  }

  lemma DeactivatePreserves(s: Slabs, r: Slabs, k: Kind, u: UnitId)
    requires Inv(s) && HasMagic(s, u, ACTIVE_MAGIC) && k == s.blocks[u.block].kind
    requires Flip(s, r, u, FREE_MAGIC, -1)
    requires FreeList(r, k) == FreeList(s, k) + [u] && FreeList(r, Other(k)) == FreeList(s, Other(k))
    ensures Inv(r) && Active(r) == Active(s) - {u}
  {
    FlipFrame(s, r, u, FREE_MAGIC, -1);
    FlipSlots(s, r, u, FREE_MAGIC, -1);
    assert u !in FreeList(s, k) && u !in FreeList(s, Other(k));
    assert FreeListOk(r, k) by {
      forall v: UnitId
        ensures v in FreeList(r, k) <==> HasMagic(r, v, FREE_MAGIC) && r.blocks[v.block].kind == k
      {
        if v != u {
          assert Same(s, r, v);
          assert v in FreeList(r, k) <==> v in FreeList(s, k);
        }
      }
    }
    assert FreeListOk(r, Other(k)) by {
      forall v: UnitId
        ensures v in FreeList(r, Other(k)) <==> HasMagic(r, v, FREE_MAGIC) && r.blocks[v.block].kind == Other(k)
      {
        if v != u {
          assert Same(s, r, v);
        }
      }
    }
    forall v ensures v in Active(r) <==> v in Active(s) && v != u {
      if v != u {
        assert Same(s, r, v);
      }
    }
  }

  /** The shape of returning the emptied block `b` of kind `k` to `free_blocks`. */
  ghost predicate ReturnShape(s: Slabs, r: Slabs, k: Kind, b: nat)
  {
    && b in s.blocks && s.blocks[b].kind == k
    && r.blocks == s.blocks - {b}
    && r.freeBlocks == s.freeBlocks + [b]
    && r.magic == s.magic
    && FreeList(r, k) == DropBlock(FreeList(s, k), b)
    && FreeList(r, Other(k)) == FreeList(s, Other(k))
  }

  lemma ReturnFrame(s: Slabs, r: Slabs, k: Kind, b: nat)
    requires BlocksOk(s) && ReturnShape(s, r, k, b) && ActiveSlots(s, b) == {}
    ensures BlocksOk(r)
    ensures forall v: UnitId | v.block != b :: Same(s, r, v)
    ensures forall v: UnitId | v.block == b :: !InBlock(r, v) && !HasMagic(s, v, ACTIVE_MAGIC)
  {
    forall v: UnitId | v.block == b && InBlock(s, v) ensures !HasMagic(s, v, ACTIVE_MAGIC) {
      assert v.slot !in ActiveSlots(s, b);
    }
    assert b !in s.freeBlocks;
  }

  lemma ReturnPreserves(s: Slabs, r: Slabs, k: Kind, b: nat)
    requires Inv(s) && ReturnShape(s, r, k, b) && s.blocks[b].nActives == 0
    ensures Inv(r) && Active(r) == Active(s)
  {
    ReturnFrame(s, r, k, b);
    forall c | c in r.blocks
      ensures r.blocks[c].nActives == |ActiveSlots(r, c)|
    {
      SameSlots(s, r, c);
    }
    assert FreeListOk(r, k) by {
      forall v: UnitId
        ensures v in FreeList(r, k) <==> HasMagic(r, v, FREE_MAGIC) && r.blocks[v.block].kind == k
      {
        if v.block != b {
          assert Same(s, r, v);
        }
      }
    }
    assert FreeListOk(r, Other(k)) by {
      forall v: UnitId
        ensures v in FreeList(r, Other(k)) <==> HasMagic(r, v, FREE_MAGIC) && r.blocks[v.block].kind == Other(k)
      {
        if v.block != b {
          assert Same(s, r, v);
        } else {
          assert v !in FreeList(s, Other(k));
        }
      }
    }
    forall v ensures v in Active(r) <==> v in Active(s) {
      if v.block != b {
        assert Same(s, r, v);
      }
    }
  }

  /**
   * Mark one ACTIVE unit FREE, push it on its free list and uncount it; when
   * its block has no ACTIVE unit left, take all the block's units off the
   * free list and push the block on `free_blocks`.
   */
  method ReleaseOne(s: Slabs, u: UnitId) returns (r: Slabs)
    requires Inv(s) && HasMagic(s, u, ACTIVE_MAGIC)
    ensures Inv(r)
    ensures Active(r) == Active(s) - {u}
    ensures u.block in r.blocks <==> s.blocks[u.block].nActives > 1
    ensures u.block !in r.blocks ==> r.freeBlocks == s.freeBlocks + [u.block]
  {
    var b := u.block;
    var blk := s.blocks[b];
    var k := blk.kind;
    var s1 := WithFreeList(
      s.(blocks := s.blocks[b := blk.(nActives := blk.nActives - 1)],
         magic := s.magic[u := FREE_MAGIC]),
      k, FreeList(s, k) + [u]);
    assert FreeList(s1, Other(k)) == FreeList(s, Other(k));
    DeactivatePreserves(s, s1, k, u);
    if blk.nActives - 1 == 0 {
      r := WithFreeList(s1.(blocks := s1.blocks - {b}, freeBlocks := s1.freeBlocks + [b]),
                        k, DropBlock(FreeList(s1, k), b));
      assert FreeList(r, Other(k)) == FreeList(s1, Other(k));
      ReturnPreserves(s1, r, k, b);
    } else {
      r := s1;
    }
  }

  /** A field cache and the sub-field caches on its `children` list, in list order. */
  datatype Tree = Tree(unit: UnitId, kids: seq<Tree>)

  function TreeUnits(t: Tree): set<UnitId>
    decreases t, 1
  {
    KidsUnits(t.kids) + {t.unit}
  }

  function KidsUnits(ts: seq<Tree>): set<UnitId>
    decreases ts, 0
  {
    if |ts| == 0 then {} else TreeUnits(ts[0]) + KidsUnits(ts[1..])
  }

  /**
   * The units of the trees are pairwise different: no unit is linked
   * twice. (A unit sits on at most one list through its one `chain` node.)
   */
  predicate TreeDisjoint(t: Tree)
    decreases t, 1
  {
    t.unit !in KidsUnits(t.kids) && KidsDisjoint(t.kids)
  }

  predicate KidsDisjoint(ts: seq<Tree>)
    decreases ts, 0
  {
    |ts| > 0 ==> TreeDisjoint(ts[0]) && TreeUnits(ts[0]) !! KidsUnits(ts[1..]) && KidsDisjoint(ts[1..])
  }

  /** Releasing `x` and then `y` from `a` releases their union. */
  lemma Peel<T>(a: set<T>, x: set<T>, y: set<T>)
    requires x + y <= a && x !! y
    ensures y <= a - x && (a - x) - y == a - (x + y)
  {
  }

  /**
   * `__releaseMetadataFieldCache`: release the children first, popping
   * them from the head of the list, then the unit itself. Every unit of
   * the tree must be ACTIVE, as the source asserts.
   */
  method ReleaseField(s: Slabs, t: Tree) returns (r: Slabs)
    requires Inv(s) && TreeDisjoint(t) && TreeUnits(t) <= Active(s)
    ensures Inv(r)
    ensures Active(r) == Active(s) - TreeUnits(t)
    decreases t, 1
  {
    Peel(Active(s), KidsUnits(t.kids), {t.unit});
    var s1 := ReleaseKids(s, t.kids);
    r := ReleaseOne(s1, t.unit);
  }

  method ReleaseKids(s: Slabs, ts: seq<Tree>) returns (r: Slabs)
    requires Inv(s) && KidsDisjoint(ts) && KidsUnits(ts) <= Active(s)
    ensures Inv(r)
    ensures Active(r) == Active(s) - KidsUnits(ts)
    decreases ts, 0
  {
    if |ts| == 0 {
      r := s;
    } else {
      Peel(Active(s), TreeUnits(ts[0]), KidsUnits(ts[1..]));
      var s1 := ReleaseField(s, ts[0]);
      r := ReleaseKids(s1, ts[1..]);
    }
  }

  /** A record-batch cache: its unit and its field caches. */
  datatype CacheEntry = CacheEntry(unit: UnitId, fields: seq<Tree>)

  function ChainUnits(c: seq<CacheEntry>): set<UnitId>
  {
    if |c| == 0 then {} else KidsUnits(c[0].fields) + {c[0].unit} + ChainUnits(c[1..])
  }

  predicate ChainDisjoint(c: seq<CacheEntry>)
  {
    |c| > 0 ==>
      && c[0].unit !in KidsUnits(c[0].fields) && KidsDisjoint(c[0].fields)
      && (KidsUnits(c[0].fields) + {c[0].unit}) !! ChainUnits(c[1..])
      && ChainDisjoint(c[1..])
  }

  /**
   * `__releaseMetadataCache`: walk the `next` chain of record-batch caches;
   * for each, release its field caches and then the cache itself.
   */
  method ReleaseCache(s: Slabs, c: seq<CacheEntry>) returns (r: Slabs)
    requires Inv(s) && ChainDisjoint(c) && ChainUnits(c) <= Active(s)
    ensures Inv(r)
    ensures Active(r) == Active(s) - ChainUnits(c)
    decreases c
  {
    if |c| == 0 {
      r := s;
    } else {
      var head := KidsUnits(c[0].fields) + {c[0].unit};
      Peel(Active(s), head, ChainUnits(c[1..]));
      var s1 := ReleaseEntry(s, c[0]);
      r := ReleaseCache(s1, c[1..]);
    }
  }

  /** One record-batch cache of the chain: its field caches, then itself. */
  method ReleaseEntry(s: Slabs, e: CacheEntry) returns (r: Slabs)
    requires Inv(s) && e.unit !in KidsUnits(e.fields) && KidsDisjoint(e.fields)
    requires KidsUnits(e.fields) + {e.unit} <= Active(s)
    ensures Inv(r)
    ensures Active(r) == Active(s) - (KidsUnits(e.fields) + {e.unit})
  {
    Peel(Active(s), KidsUnits(e.fields), {e.unit});
    var s1 := ReleaseKids(s, e.fields);
    r := ReleaseOne(s1, e.unit);
  }

  // ---------------------------------------------------------------------
  // The record-batch cache allocation as written
  // ---------------------------------------------------------------------

  /**
   * From a fresh cache with one free block, the record-batch cache
   * allocation as written crashes, while the corrected one hands out the
   * first unit of the block.
   */
  lemma AllocCacheCounterexample(unitsz: nat)
    requires 0 < unitsz <= ARROW_METADATA_BLOCKSZ - BLOCK_HEADER
    ensures Alloc(Initial(1), MetaCache, unitsz, false).1 == NullDeref
    ensures Alloc(Initial(1), MetaCache, unitsz, true).1.Got?
  {
  }
}
