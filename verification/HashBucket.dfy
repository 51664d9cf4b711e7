/**
 The 64 pools of HashBucket (memory/memoryPool.cc:109-126, include/memory/memoryPool.h:51-86)
 side by side in one memory: useMemory and freeMemory for requests of up to 512 bytes,
 interleaved with the owners' own writes.
 */
module HashBucket {
  import opened PadPointer
  import opened SlabPool

  // owned: every address handed out and not yet freed, with the size asked for.
  datatype Bucket = Bucket(pools: seq<Pool>, mem: Memory, ledgers: seq<Ledger>, owned: map<nat, nat>)

  // initMemoryPool().
  function InitMemoryPool(mem: Memory): Bucket {
    Bucket(seq(MEMORY_POOL_NUM, i requires 0 <= i < MEMORY_POOL_NUM => Init(SlotSize(i))), mem, seq(MEMORY_POOL_NUM, _ => EMPTY), map[])
  }

  predicate Small(size: nat) { 0 < size <= MAX_SLOT_SIZE }

  predicate Shape(k: Bucket) {
    |k.pools| == |k.ledgers| == MEMORY_POOL_NUM &&
    forall i :: 0 <= i < MEMORY_POOL_NUM ==> k.pools[i].slotSize == SlotSize(i)
  }

  function Index(size: nat): (i: nat)
    requires Small(size)
    ensures i < MEMORY_POOL_NUM && SlotSize(i) >= size && forall j :: 0 <= j < i ==> SlotSize(j) < size
  {
    PoolIndex(size)
  }

  datatype Action = Use(size: nat, b: nat) | Free(ptr: nat) | Write(a: nat, w: nat)

  // What operator new returns overlaps no block of any pool.
  ghost predicate Unused(k: Bucket, b: nat)
    requires Shape(k)
  {
    forall i :: 0 <= i < MEMORY_POOL_NUM ==> Separate(b, k.ledgers[i].blocks)
  }

  // Owners write within what they were given.
  ghost predicate Owned(k: Bucket, a: nat) {
    a % WORD == 0 && exists p :: p in k.owned && Small(k.owned[p]) && p <= a < p + SlotSize(Index(k.owned[p]))
  }

  ghost predicate Enabled(k: Bucket, a: Action) {
    Shape(k) &&
    match a
    case Use(size, b) => Small(size) && Unused(k, b)
    case Free(ptr) => ptr in k.owned && Small(k.owned[ptr])
    case Write(addr, w) => Owned(k, addr)
  }

  ghost function UseMemory(k: Bucket, size: nat, b: nat): (Bucket, nat)
    requires Shape(k) && Small(size) && Unused(k, b)
  {
    var i := Index(size);
    var p, g := k.pools[i], k.ledgers[i];
    var r := Allocate(p, k.mem, b);
    (Bucket(k.pools[i := r.pool], r.mem, k.ledgers[i := AllocateLedger(p, g, b)], k.owned[r.ptr := size]), r.ptr)
  }

  ghost function FreeMemory(k: Bucket, ptr: nat, size: nat): Bucket
    requires Shape(k) && Small(size)
  {
    var i := Index(size);
    var (q, mem) := Deallocate(k.pools[i], k.mem, ptr);
    Bucket(k.pools[i := q], mem, k.ledgers[i := if ptr == 0 then k.ledgers[i] else DeallocateLedger(k.ledgers[i], ptr)], k.owned - {ptr})
  }

  ghost function Next(k: Bucket, a: Action): Bucket
    requires Enabled(k, a)
  {
    match a
    case Use(size, b) => UseMemory(k, size, b).0
    case Free(ptr) => FreeMemory(k, ptr, k.owned[ptr])
    case Write(addr, w) => k.(mem := k.mem[addr := w])
  }

  ghost predicate Reaches(k: Bucket, actions: seq<Action>, t: Bucket)
    decreases |actions|
  {
    if actions == [] then t == k
    else Enabled(k, actions[0]) && Reaches(Next(k, actions[0]), actions[1..], t)
  }

  // ---------------------------------------------------------------- the invariant

  ghost predicate Foreign(a: Ledger, b: Ledger) {
    forall i, j :: 0 <= i < |a.blocks| && 0 <= j < |b.blocks| ==> Apart(a.blocks[i], b.blocks[j], BLOCK_SIZE)
  }

  ghost predicate PoolsRight(k: Bucket)
    requires Shape(k)
  {
    && (forall i :: 0 <= i < MEMORY_POOL_NUM ==> Inv(k.pools[i], k.mem, k.ledgers[i]))
    && forall i, j :: 0 <= i < MEMORY_POOL_NUM && 0 <= j < MEMORY_POOL_NUM && i != j ==> Foreign(k.ledgers[i], k.ledgers[j])
  }

  ghost predicate OwnersRight(k: Bucket)
    requires Shape(k)
  {
    forall p :: p in k.owned ==> Small(k.owned[p]) && Live(k.ledgers[Index(k.owned[p])], p)
  }

  // And every slot in use has an owner, who asked for a size of that pool.
  ghost predicate AllOwned(k: Bucket)
    requires Shape(k)
  {
    forall i, s :: 0 <= i < MEMORY_POOL_NUM && Live(k.ledgers[i], s) ==>
      s in k.owned && Small(k.owned[s]) && Index(k.owned[s]) == i
  }

  ghost predicate BucketInv(k: Bucket) { Shape(k) && PoolsRight(k) && OwnersRight(k) && AllOwned(k) }

  // A write outside all of a pool's blocks leaves it alone.
  lemma Elsewhere(p: Pool, mem: Memory, g: Ledger, a: nat, w: nat)
    requires Inv(p, mem, g) && forall i :: 0 <= i < |g.blocks| ==> a < g.blocks[i] || g.blocks[i] + BLOCK_SIZE <= a
    requires a % WORD == 0
    ensures Inv(p, mem[a := w], g)
  {
    hide Inv;
    WriteKeeps(p, mem, g, a, w);
  }

  // A live slot of one pool lies outside all blocks of another.
  lemma LiveElsewhere(p: Pool, mem: Memory, g: Ledger, other: Ledger, s: nat, a: nat, i: nat)
    requires Inv(p, mem, g) && Foreign(g, other) && s in g.carved && s <= a < s + p.slotSize && i < |other.blocks|
    ensures a < other.blocks[i] || other.blocks[i] + BLOCK_SIZE <= a
  {
    hide Chain, TailRight, FreeRight, Aligned;
    var j :| 0 <= j < |g.blocks| && Inside(s, p.slotSize, g.blocks[j]);
    assert Apart(g.blocks[j], other.blocks[i], BLOCK_SIZE);
  }

  // The one word a pool's step writes is outside the blocks of every other pool.
  lemma OtherPoolUse(k: Bucket, size: nat, b: nat, j: nat)
    requires BucketInv(k) && Small(size) && Unused(k, b) && j < MEMORY_POOL_NUM && j != Index(size)
    ensures var t := UseMemory(k, size, b).0; Inv(t.pools[j], t.mem, t.ledgers[j])
  {
    hide Inv, OwnersRight, AllocateLedger, Live;
    var i := Index(size);
    var p := k.pools[i];
    assert Inv(k.pools[j], k.mem, k.ledgers[j]);
    assert Separate(b, k.ledgers[j].blocks);
    var t := UseMemory(k, size, b).0;
    assert t.mem == if p.freeList == 0 && p.curSlot >= p.lastSlot then k.mem[b := p.firstBlock] else k.mem;
    Elsewhere(k.pools[j], k.mem, k.ledgers[j], b, p.firstBlock);
  }

  lemma BlocksGrow(p: Pool, g: Ledger, b: nat, other: Ledger)
    requires Class(p) && Foreign(g, other) && Foreign(other, g) && Separate(b, other.blocks)
    ensures Foreign(AllocateLedger(p, g, b), other) && Foreign(other, AllocateLedger(p, g, b))
  {}

  lemma UsePoolsRight(k: Bucket, size: nat, b: nat)
    requires BucketInv(k) && Small(size) && Unused(k, b)
    ensures var (t, ptr) := UseMemory(k, size, b);
      Shape(t) && PoolsRight(t) && Live(t.ledgers[Index(size)], ptr) && !Live(k.ledgers[Index(size)], ptr)
  {
    hide Inv, OwnersRight, Foreign, Live, Separate, AllocateLedger, Allocate;
    var n := Index(size);
    var t := UseMemory(k, size, b).0;
    assert Inv(k.pools[n], k.mem, k.ledgers[n]);
    assert Separate(b, k.ledgers[n].blocks);
    InvClass(k.pools[n], k.mem, k.ledgers[n]);
    AllocateKeeps(k.pools[n], k.mem, k.ledgers[n], b);
    forall j | 0 <= j < MEMORY_POOL_NUM ensures Inv(t.pools[j], t.mem, t.ledgers[j]) {
      if j != n { OtherPoolUse(k, size, b, j); }
    }
    forall j | 0 <= j < MEMORY_POOL_NUM && j != n
      ensures Foreign(t.ledgers[n], t.ledgers[j]) && Foreign(t.ledgers[j], t.ledgers[n])
    {
      assert Separate(b, k.ledgers[j].blocks);
      BlocksGrow(k.pools[n], k.ledgers[n], b, k.ledgers[j]);
    }
  }

  // Slots of two different pools never meet.
  lemma PoolsApart(k: Bucket, i: nat, j: nat, x: nat, y: nat)
    requires Shape(k) && PoolsRight(k) && i < MEMORY_POOL_NUM && j < MEMORY_POOL_NUM && i != j
    requires x in k.ledgers[i].carved && y in k.ledgers[j].carved
    ensures x + SlotSize(i) <= y || y + SlotSize(j) <= x
  {
    hide Chain, TailRight, FreeRight, Aligned;
    assert Inv(k.pools[i], k.mem, k.ledgers[i]) && Inv(k.pools[j], k.mem, k.ledgers[j]);
    assert Foreign(k.ledgers[i], k.ledgers[j]);
    var a :| 0 <= a < |k.ledgers[i].blocks| && Inside(x, SlotSize(i), k.ledgers[i].blocks[a]);
    var b :| 0 <= b < |k.ledgers[j].blocks| && Inside(y, SlotSize(j), k.ledgers[j].blocks[b]);
    assert Apart(k.ledgers[i].blocks[a], k.ledgers[j].blocks[b], BLOCK_SIZE);
  }

  lemma StillLive(p: Pool, g: Ledger, b: nat, s: nat)
    requires Class(p) && GoodBlock(b) && Live(g, s)
    ensures Live(AllocateLedger(p, g, b), s)
  {}

  lemma ShapeClass(k: Bucket, i: nat)
    requires Shape(k) && i < MEMORY_POOL_NUM
    ensures Class(k.pools[i])
  {}

  lemma UseOwners(k: Bucket, size: nat, b: nat)
    requires BucketInv(k) && Small(size) && Unused(k, b)
    ensures var t := UseMemory(k, size, b).0; Shape(t) && AllOwned(t)
  {
    hide PoolsRight, OwnersRight, Live, AllocateLedger, Allocate, Inv, Separate;
    var n := Index(size);
    var (t, ptr) := UseMemory(k, size, b);
    UsePoolsRight(k, size, b);
    assert Inv(k.pools[n], k.mem, k.ledgers[n]) && Separate(b, k.ledgers[n].blocks) by { PoolRight(k, n); }
    forall i, s: nat | 0 <= i < MEMORY_POOL_NUM && Live(t.ledgers[i], s)
      ensures s in t.owned && Small(t.owned[s]) && Index(t.owned[s]) == i
    {
      if i == n { AllocateHands(k.pools[n], k.mem, k.ledgers[n], b, s); }
      if s == ptr { PtrFromPool(k, size, b, i); }
    }
  }

  lemma PoolRight(k: Bucket, n: nat)
    requires Shape(k) && PoolsRight(k) && n < MEMORY_POOL_NUM
    ensures Inv(k.pools[n], k.mem, k.ledgers[n])
  {}

  // The address handed out is in use in its own pool only.
  lemma PtrFromPool(k: Bucket, size: nat, b: nat, i: nat)
    requires BucketInv(k) && Small(size) && Unused(k, b) && i < MEMORY_POOL_NUM
    ensures var (t, ptr) := UseMemory(k, size, b); |t.ledgers| == MEMORY_POOL_NUM && (Live(t.ledgers[i], ptr) ==> i == Index(size))
  {
    hide PoolsRight, OwnersRight, AllOwned, Live, AllocateLedger, Allocate;
    UsePoolsRight(k, size, b);
    var (t, ptr) := UseMemory(k, size, b);
    var n := Index(size);
    if Live(t.ledgers[i], ptr) && i != n {
      PtrIsIn(t.ledgers[i], ptr);
      PtrIsIn(t.ledgers[n], ptr);
      PoolsApart(t, n, i, ptr, ptr);
    }
  }

  lemma UseKeeps(k: Bucket, size: nat, b: nat)
    requires BucketInv(k) && Small(size) && Unused(k, b)
    ensures var (t, ptr) := UseMemory(k, size, b);
      BucketInv(t) && ptr !in k.owned && t.owned == k.owned[ptr := size]
  {
    hide PoolsRight, Live, AllocateLedger, Allocate, AllOwned;
    UseOwners(k, size, b);
    var n := Index(size);
    var (t, ptr) := UseMemory(k, size, b);
    UsePoolsRight(k, size, b);
    assert Separate(b, k.ledgers[n].blocks);
    assert ptr !in k.owned by {
      if ptr in k.owned {
        var m := Index(k.owned[ptr]);
        assert m != n;
        assert Live(t.ledgers[m], ptr);
        PtrIsIn(t.ledgers[m], ptr);
        PtrIsIn(t.ledgers[n], ptr);
        PoolsApart(t, n, m, ptr, ptr);
      }
    }
    forall p | p in t.owned ensures Small(t.owned[p]) && Live(t.ledgers[Index(t.owned[p])], p) {
      if p != ptr {
        assert Live(k.ledgers[Index(k.owned[p])], p);
        if Index(k.owned[p]) == n {
          ShapeClass(k, n);
          StillLive(k.pools[n], k.ledgers[n], b, p);
        }
      }
    }
  }

  lemma PtrIsIn(g: Ledger, s: nat)
    requires Live(g, s)
    ensures s in g.carved
  {}

  lemma FreePools(k: Bucket, ptr: nat, j: nat)
    requires BucketInv(k) && ptr in k.owned && j < MEMORY_POOL_NUM
    ensures Small(k.owned[ptr])
    ensures var t := FreeMemory(k, ptr, k.owned[ptr]); Inv(t.pools[j], t.mem, t.ledgers[j]) && ptr != 0
  {
    hide Inv, Foreign;
    var i := Index(k.owned[ptr]);
    assert Inv(k.pools[i], k.mem, k.ledgers[i]) && Inv(k.pools[j], k.mem, k.ledgers[j]);
    NotNull(k.pools[i], k.mem, k.ledgers[i], ptr);
    if i == j {
      DeallocateKeeps(k.pools[i], k.mem, k.ledgers[i], ptr);
    } else {
      assert Foreign(k.ledgers[i], k.ledgers[j]);
      forall n | 0 <= n < |k.ledgers[j].blocks|
        ensures ptr < k.ledgers[j].blocks[n] || k.ledgers[j].blocks[n] + BLOCK_SIZE <= ptr
      {
        LiveElsewhere(k.pools[i], k.mem, k.ledgers[i], k.ledgers[j], ptr, ptr, n);
      }
      Elsewhere(k.pools[j], k.mem, k.ledgers[j], ptr, k.pools[i].freeList);
    }
  }

  lemma NotNull(p: Pool, mem: Memory, g: Ledger, s: nat)
    requires Inv(p, mem, g) && s in g.carved
    ensures s % WORD == 0 && p.slotSize > 0 && s != 0
  {
    hide Chain, TailRight, FreeRight;
    assert Housed(s, p.slotSize, g.blocks);
  }

  lemma FreeOwners(k: Bucket, ptr: nat)
    requires BucketInv(k) && ptr in k.owned && ptr != 0
    ensures Small(k.owned[ptr]) && Shape(FreeMemory(k, ptr, k.owned[ptr])) && AllOwned(FreeMemory(k, ptr, k.owned[ptr]))
  {
    hide PoolsRight, Live, DeallocateLedger;
    var n := Index(k.owned[ptr]);
    assert Live(k.ledgers[n], ptr);
    DeallocateHands(k.ledgers[n], ptr);
  }

  lemma FreeKeeps(k: Bucket, ptr: nat)
    requires BucketInv(k) && ptr in k.owned
    ensures Small(k.owned[ptr]) && BucketInv(FreeMemory(k, ptr, k.owned[ptr]))
  {
    hide Inv, AllOwned;
    var n := Index(k.owned[ptr]);
    var t := FreeMemory(k, ptr, k.owned[ptr]);
    forall j | 0 <= j < MEMORY_POOL_NUM ensures Inv(t.pools[j], t.mem, t.ledgers[j]) {
      FreePools(k, ptr, j);
    }
    FreePools(k, ptr, n);
    FreeOwners(k, ptr);
    forall i, j | 0 <= i < MEMORY_POOL_NUM && 0 <= j < MEMORY_POOL_NUM && i != j ensures Foreign(t.ledgers[i], t.ledgers[j]) {
      assert Foreign(k.ledgers[i], k.ledgers[j]);
    }
    forall p | p in t.owned ensures Small(t.owned[p]) && Live(t.ledgers[Index(t.owned[p])], p) {
      assert Live(k.ledgers[Index(k.owned[p])], p);
    }
  }

  lemma WriteBucket(k: Bucket, a: nat, w: nat)
    requires BucketInv(k) && Owned(k, a)
    ensures BucketInv(k.(mem := k.mem[a := w]))
  {
    hide Inv, Foreign;
    var p: nat :| p in k.owned && Small(k.owned[p]) && p <= a < p + SlotSize(Index(k.owned[p]));
    var n := Index(k.owned[p]);
    forall j | 0 <= j < MEMORY_POOL_NUM ensures Inv(k.pools[j], k.mem[a := w], k.ledgers[j]) {
      assert Inv(k.pools[j], k.mem, k.ledgers[j]) && Inv(k.pools[n], k.mem, k.ledgers[n]);
      if j == n {
        assert Live(k.ledgers[n], p);
        WriteKeeps(k.pools[n], k.mem, k.ledgers[n], a, w);
      } else {
        assert Foreign(k.ledgers[n], k.ledgers[j]);
        forall m | 0 <= m < |k.ledgers[j].blocks|
          ensures a < k.ledgers[j].blocks[m] || k.ledgers[j].blocks[m] + BLOCK_SIZE <= a
        {
          LiveElsewhere(k.pools[n], k.mem, k.ledgers[n], k.ledgers[j], p, a, m);
        }
        Elsewhere(k.pools[j], k.mem, k.ledgers[j], a, w);
      }
    }
  }

  lemma NextKeeps(k: Bucket, a: Action)
    requires BucketInv(k) && Enabled(k, a)
    ensures BucketInv(Next(k, a))
  {
    hide BucketInv, UseMemory, FreeMemory, Owned, Unused;
    match a
    case Use(size, b) => UseKeeps(k, size, b);
    case Free(ptr) => FreeKeeps(k, ptr);
    case Write(addr, w) => WriteBucket(k, addr, w);
  }

  lemma {:induction false} ReachesKeeps(k: Bucket, actions: seq<Action>, t: Bucket)
    requires BucketInv(k) && Reaches(k, actions, t)
    ensures BucketInv(t)
    decreases |actions|
  {
    hide BucketInv, Enabled, Next;
    if actions != [] {
      NextKeeps(k, actions[0]);
      ReachesKeeps(Next(k, actions[0]), actions[1..], t);
    }
  }

  lemma InitBucketInv(mem: Memory)
    ensures BucketInv(InitMemoryPool(mem))
  {
    hide Inv;
    forall i | 0 <= i < MEMORY_POOL_NUM ensures Inv(Init(SlotSize(i)), mem, EMPTY) {
      InitInv(SlotSize(i), mem);
    }
  }

  // In every run of requests, frees and writes over all 64 pools, a piece in use lies in one
  // block of its pool, past the block's link, and is as large as its owner asked for; and no
  // two pieces in use overlap.
  lemma NoOverlap(mem: Memory, actions: seq<Action>, t: Bucket, p: nat)
    requires Reaches(InitMemoryPool(mem), actions, t) && p in t.owned
    ensures p % WORD == 0 && p != 0 && Small(t.owned[p]) && |t.ledgers| == MEMORY_POOL_NUM
    ensures Housed(p, t.owned[p], t.ledgers[Index(t.owned[p])].blocks)
    ensures forall q :: q in t.owned && q != p ==> p + t.owned[p] <= q || q + t.owned[q] <= p
  {
    hide Inv, Foreign, Housed, AllOwned;
    InitBucketInv(mem);
    ReachesKeeps(InitMemoryPool(mem), actions, t);
    var i := Index(t.owned[p]);
    assert Live(t.ledgers[i], p);
    assert Inv(t.pools[i], t.mem, t.ledgers[i]);
    NotNull(t.pools[i], t.mem, t.ledgers[i], p);
    InOneBlock(t.pools[i], t.mem, t.ledgers[i], p, t.owned[p]);
    forall q | q in t.owned && q != p ensures p + t.owned[p] <= q || q + t.owned[q] <= p {
      var j := Index(t.owned[q]);
      assert Live(t.ledgers[j], q);
      if i == j {
        SamePoolApart(t.pools[i], t.mem, t.ledgers[i], p, q);
      } else {
        PoolsApart(t, i, j, p, q);
      }
    }
  }

  lemma InOneBlock(p: Pool, mem: Memory, g: Ledger, s: nat, n: nat)
    requires Inv(p, mem, g) && s in g.carved && n <= p.slotSize
    ensures Housed(s, n, g.blocks)
  {
    hide Chain, TailRight, FreeRight, Aligned, Tiled;
    var i :| 0 <= i < |g.blocks| && Inside(s, p.slotSize, g.blocks[i]);
    assert Inside(s, n, g.blocks[i]);
  }

  // Nothing leaks: every place for a slot in any block of any pool belongs to an owner who
  // asked for that pool's size, is on that pool's free list, or is still to be carved.
  lemma NothingLost(mem: Memory, actions: seq<Action>, t: Bucket, n: nat, i: nat, k: nat)
    requires Reaches(InitMemoryPool(mem), actions, t) && n < MEMORY_POOL_NUM
    requires |t.ledgers| == MEMORY_POOL_NUM && i < |t.ledgers[n].blocks|
    ensures Shape(t) && GoodBlock(t.ledgers[n].blocks[i])
    ensures var g, b := t.ledgers[n], t.ledgers[n].blocks[i];
      var x := SlotAt(b, SlotSize(n), k);
      x + SlotSize(n) <= b + BLOCK_SIZE ==>
        || (x in t.owned && Small(t.owned[x]) && Index(t.owned[x]) == n)
        || x in g.free
        || (i == 0 && x >= t.pools[n].curSlot)
  {
    hide Inv, Foreign, SlotAt, Index;
    InitBucketInv(mem);
    ReachesKeeps(InitMemoryPool(mem), actions, t);
    assert Inv(t.pools[n], t.mem, t.ledgers[n]);
    PlaceUsed(t.pools[n], t.mem, t.ledgers[n], i, k);
  }

  lemma PlaceUsed(p: Pool, mem: Memory, g: Ledger, i: nat, k: nat)
    requires Inv(p, mem, g) && i < |g.blocks|
    ensures GoodBlock(g.blocks[i]) && Class(p)
    ensures var x := SlotAt(g.blocks[i], p.slotSize, k);
      x + p.slotSize <= g.blocks[i] + BLOCK_SIZE ==> Live(g, x) || x in g.free || (i == 0 && x >= p.curSlot)
  {
    hide Chain, CarvedRight, TailRight, SlotAt, Aligned;
    if i == 0 && k >= g.count { SlotNext(g.blocks[0], p.slotSize, g.count, k); }
  }

  lemma SamePoolApart(p: Pool, mem: Memory, g: Ledger, s: nat, t: nat)
    requires Inv(p, mem, g) && s in g.carved && t in g.carved && s != t
    ensures Apart(s, t, p.slotSize)
  {
    hide Chain, TailRight, FreeRight, Aligned, Housed;
  }
}
