/**
 MemoryPool of memory/memoryPool.cc over an explicit heap of 8-byte words: blocks
 chained through their first word, slots carved from the newest block, and a free
 list threaded through the first word of the slots on it. Calls are sequential.
 */
module SlabPool {
  import opened PadPointer

  const BLOCK_SIZE := 4096
  const WORD := 8

  // Address of a word to its content. A word nobody wrote yet reads as anything the map says.
  type Memory = map<nat, nat>

  function Read(mem: Memory, a: nat): nat {
    if a in mem then mem[a] else 0
  }

  // 0 is the null pointer.
  datatype Pool = Pool(slotSize: nat, firstBlock: nat, curSlot: nat, freeList: nat, lastSlot: nat)

  predicate Class(p: Pool) { p.slotSize % WORD == 0 && 0 < p.slotSize <= MAX_SLOT_SIZE }

  function Init(size: nat): Pool { Pool(size, 0, 0, 0, 0) }

  // What operator new may return for a block: aligned, not null, and not wrapping around.
  predicate GoodBlock(b: nat) { 0 < b && b % WORD == 0 && b + BLOCK_SIZE <= SIZE_T }

  function NewBlock(p: Pool, b: nat): Pool
    requires Class(p) && GoodBlock(b)
  {
    var body := b + WORD;
    p.(firstBlock := b, curSlot := body + Pad(body, p.slotSize),
       lastSlot := b + BLOCK_SIZE - p.slotSize + 1, freeList := 0)
  }

  datatype Allocated = Allocated(pool: Pool, mem: Memory, ptr: nat)

  // allocate(), b being what operator new returns if it is called.
  function Allocate(p: Pool, mem: Memory, b: nat): Allocated
    requires Class(p) && GoodBlock(b)
  {
    if p.freeList != 0 then Allocated(p.(freeList := Read(mem, p.freeList)), mem, p.freeList)
    else
      var full := p.curSlot >= p.lastSlot;
      var q := if full then NewBlock(p, b) else p;
      var mem' := if full then mem[b := p.firstBlock] else mem;
      Allocated(q.(curSlot := q.curSlot + p.slotSize / WORD * WORD), mem', q.curSlot)
  }

  // deallocate(), which ignores null.
  function Deallocate(p: Pool, mem: Memory, ptr: nat): (Pool, Memory) {
    if ptr == 0 then (p, mem) else (p.(freeList := ptr), mem[ptr := p.freeList])
  }

  // ---------------------------------------------------------------- what the words mean

  // Bookkeeping that explains a state: blocks newest first, every slot ever carved, the free
  // list, and how many slots of the newest block are carved.
  datatype Ledger = Ledger(blocks: seq<nat>, carved: set<nat>, free: seq<nat>, count: nat)

  const EMPTY := Ledger([], {}, [], 0)

  // nodes are linked from head through their first words, ending in null.
  predicate Chain(mem: Memory, head: nat, nodes: seq<nat>)
    decreases |nodes|
  {
    if nodes == [] then head == 0
    else head == nodes[0] && head != 0 && Chain(mem, Read(mem, head), nodes[1..])
  }

  predicate Apart(a: nat, b: nat, size: nat) { a + size <= b || b + size <= a }

  predicate Inside(s: nat, size: nat, b: nat) { b + WORD <= s && s + size <= b + BLOCK_SIZE }

  ghost predicate BlocksRight(blocks: seq<nat>) {
    && (forall i :: 0 <= i < |blocks| ==> GoodBlock(blocks[i]))
    && forall i, j :: 0 <= i < j < |blocks| ==> Apart(blocks[i], blocks[j], BLOCK_SIZE)
  }

  ghost predicate Housed(s: nat, size: nat, blocks: seq<nat>) {
    exists i :: 0 <= i < |blocks| && Inside(s, size, blocks[i])
  }

  predicate Aligned(s: nat, size: nat)
    requires size > 0
  {
    s % WORD == 0 && (SIZE_T % size == 0 ==> s % size == 0)
  }

  ghost predicate CarvedRight(carved: set<nat>, size: nat, blocks: seq<nat>)
    requires size > 0
  {
    && (forall s :: s in carved ==> Aligned(s, size) && Housed(s, size, blocks))
    && forall s, t :: s in carved && t in carved && s != t ==> Apart(s, t, size)
  }

  // The uncarved tail of the newest block, and where it starts and ends.
  ghost predicate TailRight(p: Pool, g: Ledger)
    requires p.slotSize > 0
  {
    if g.blocks == [] then p.curSlot == p.lastSlot == 0
    else
      var b := g.blocks[0];
      && p.lastSlot == b + BLOCK_SIZE - p.slotSize + 1
      && b + WORD <= p.curSlot <= b + BLOCK_SIZE && Aligned(p.curSlot, p.slotSize)
      && forall s :: s in g.carved ==> s + p.slotSize <= p.curSlot || b + BLOCK_SIZE <= s
  }

  ghost predicate FreeRight(g: Ledger) {
    && (forall i :: 0 <= i < |g.free| ==> g.free[i] in g.carved)
    && forall i, j :: 0 <= i < j < |g.free| ==> g.free[i] != g.free[j]
  }

  // Where the k-th slot of block b is.
  function SlotAt(b: nat, size: nat, k: nat): nat
    requires GoodBlock(b) && 0 < size < SIZE_T
  {
    b + WORD + Pad(b + WORD, size) + k * size
  }

  // The k-th slot fits block i, and lies before the uncarved tail if that is the newest.
  predicate Opened(size: nat, g: Ledger, i: nat, k: nat)
    requires 0 < size < SIZE_T && i < |g.blocks| && GoodBlock(g.blocks[i])
  {
    SlotAt(g.blocks[i], size, k) + size <= g.blocks[i] + BLOCK_SIZE && (i == 0 ==> k < g.count)
  }

  // Carving skips nothing: every place for a slot was carved, up to curSlot in the newest block.
  ghost predicate Tiled(p: Pool, g: Ledger)
    requires Class(p) && forall i :: 0 <= i < |g.blocks| ==> GoodBlock(g.blocks[i])
  {
    && (g.blocks != [] ==> p.curSlot == SlotAt(g.blocks[0], p.slotSize, g.count))
    && forall i, k: nat :: 0 <= i < |g.blocks| && Opened(p.slotSize, g, i, k) ==> SlotAt(g.blocks[i], p.slotSize, k) in g.carved
  }

  ghost predicate Inv(p: Pool, mem: Memory, g: Ledger) {
    && Class(p)
    && BlocksRight(g.blocks) && Chain(mem, p.firstBlock, g.blocks)
    && CarvedRight(g.carved, p.slotSize, g.blocks) && TailRight(p, g)
    && FreeRight(g) && Chain(mem, p.freeList, g.free) && Tiled(p, g)
  }

  // Carved and not on the free list: in some owner's hands.
  predicate Live(g: Ledger, s: nat) { s in g.carved && s !in g.free }

  // ---------------------------------------------------------------- steps

  function AllocateLedger(p: Pool, g: Ledger, b: nat): Ledger
    requires Class(p) && GoodBlock(b)
  {
    if p.freeList != 0 then (if g.free == [] then g else g.(free := g.free[1..]))
    else if p.curSlot >= p.lastSlot then Ledger([b] + g.blocks, g.carved + {NewBlock(p, b).curSlot}, g.free, 1)
    else g.(carved := g.carved + {p.curSlot}, count := g.count + 1)
  }

  function DeallocateLedger(g: Ledger, ptr: nat): Ledger {
    g.(free := [ptr] + g.free)
  }

  // A word an owner may write: in a live slot, or in none of the pool's blocks.
  ghost predicate Writable(p: Pool, g: Ledger, a: nat) {
    a % WORD == 0 &&
    ((exists s: nat :: Live(g, s) && s <= a < s + p.slotSize) ||
     forall i :: 0 <= i < |g.blocks| ==> a < g.blocks[i] || g.blocks[i] + BLOCK_SIZE <= a)
  }

  lemma {:induction false} ChainFrame(mem: Memory, head: nat, nodes: seq<nat>, a: nat, w: nat)
    requires Chain(mem, head, nodes) && forall i :: 0 <= i < |nodes| ==> nodes[i] != a
    ensures Chain(mem[a := w], head, nodes)
    decreases |nodes|
  {
    if nodes != [] {
      assert forall i :: 0 <= i < |nodes[1..]| ==> nodes[1..][i] == nodes[i + 1];
      ChainFrame(mem, Read(mem, head), nodes[1..], a, w);
    }
  }

  lemma BlocksApart(blocks: seq<nat>, i: nat, j: nat)
    requires BlocksRight(blocks) && i < |blocks| && j < |blocks|
    ensures i != j ==> Apart(blocks[i], blocks[j], BLOCK_SIZE) && blocks[i] != blocks[j]
  {}

  // A slot's first word is no block's first word.
  lemma SlotIsNoHeader(s: nat, size: nat, blocks: seq<nat>, j: nat)
    requires BlocksRight(blocks) && Housed(s, size, blocks) && j < |blocks| && size > 0
    ensures s != blocks[j] && s != 0
  {
    var i :| 0 <= i < |blocks| && Inside(s, size, blocks[i]);
    BlocksApart(blocks, i, j);
  }

  lemma DeallocateKeeps(p: Pool, mem: Memory, g: Ledger, ptr: nat)
    requires Inv(p, mem, g) && Live(g, ptr)
    ensures var (q, mem') := Deallocate(p, mem, ptr); Inv(q, mem', DeallocateLedger(g, ptr))
  {
    forall i | 0 <= i < |g.blocks| ensures g.blocks[i] != ptr {
      SlotIsNoHeader(ptr, p.slotSize, g.blocks, i);
    }
    ChainFrame(mem, p.firstBlock, g.blocks, ptr, p.freeList);
    ChainFrame(mem, p.freeList, g.free, ptr, p.freeList);
    assert ([ptr] + g.free)[1..] == g.free;
  }

  lemma AlignedNext(s: nat, size: nat)
    requires size > 0 && size % WORD == 0 && Aligned(s, size)
    ensures Aligned(s + size, size) && size / WORD * WORD == size
  {
    if SIZE_T % size == 0 { ModShift(s, 1, size); }
  }

  lemma SumOfWords(a: nat, b: nat)
    requires a % WORD == 0 && b % WORD == 0
    ensures (a + b) % WORD == 0
  {}

  lemma NewBlockAligned(b: nat, size: nat)
    requires GoodBlock(b) && 0 < size <= MAX_SLOT_SIZE && size % WORD == 0
    ensures Aligned(b + WORD + Pad(b + WORD, size), size)
  {
    hide Pad;
    var body := b + WORD;
    assert body % 8 == 0;
    var pad := Pad(body, size);
    assert pad % 8 == 0 by { PadKeepsWords(body, size); }
    SumOfWords(body, pad);
    assert SIZE_T % size == 0 ==> (body + pad) % size == 0 by { PadAlignsIff(body, size); }
  }

  ghost predicate Separate(b: nat, blocks: seq<nat>) {
    GoodBlock(b) && forall i :: 0 <= i < |blocks| ==> Apart(b, blocks[i], BLOCK_SIZE)
  }

  // A pool whose tail is used up and whose free list is empty takes a new block.
  lemma NewBlockKeeps(p: Pool, mem: Memory, g: Ledger, b: nat)
    requires Inv(p, mem, g) && p.freeList == 0 && p.curSlot >= p.lastSlot && Separate(b, g.blocks)
    ensures var q := NewBlock(p, b);
      Inv(q, mem[b := p.firstBlock], Ledger([b] + g.blocks, g.carved, g.free, 0)) && q.curSlot < q.lastSlot
  {
    hide Aligned, Pad, Tiled;
    var q, blocks := NewBlock(p, b), [b] + g.blocks;
    NewBlockTiles(p, mem, g, b);
    NewBlockAligned(b, p.slotSize);
    ChainFrame(mem, p.firstBlock, g.blocks, b, p.firstBlock);
    assert blocks[1..] == g.blocks;
    assert g.free == [];
    forall s | s in g.carved
      ensures Housed(s, p.slotSize, blocks) && (s + p.slotSize <= q.curSlot || b + BLOCK_SIZE <= s)
    {
      var i :| 0 <= i < |g.blocks| && Inside(s, p.slotSize, g.blocks[i]);
      assert blocks[i + 1] == g.blocks[i];
      assert Apart(b, g.blocks[i], BLOCK_SIZE);
    }
  }

  lemma SlotNext(b: nat, size: nat, j: nat, k: nat)
    requires GoodBlock(b) && 0 < size < SIZE_T && j <= k
    ensures SlotAt(b, size, k + 1) == SlotAt(b, size, k) + size
    ensures SlotAt(b, size, j) <= SlotAt(b, size, k)
  {
    hide Pad;
    assert (k + 1) * size == k * size + size;
    assert k * size == j * size + (k - j) * size;
  }

  lemma CarveTiles(p: Pool, mem: Memory, g: Ledger)
    requires Inv(p, mem, g) && p.curSlot < p.lastSlot
    ensures Tiled(p.(curSlot := p.curSlot + p.slotSize), g.(carved := g.carved + {p.curSlot}, count := g.count + 1))
  {
    hide SlotAt, CarvedRight, FreeRight, Chain;
    SlotNext(g.blocks[0], p.slotSize, g.count, g.count);
  }

  // A block is given up only when no further slot fits it, so all its places are carved.
  lemma NewBlockTiles(p: Pool, mem: Memory, g: Ledger, b: nat)
    requires Inv(p, mem, g) && p.curSlot >= p.lastSlot && GoodBlock(b)
    ensures Tiled(NewBlock(p, b), Ledger([b] + g.blocks, g.carved, g.free, 0))
  {
    hide CarvedRight, FreeRight, Chain, SlotAt, Pad;
    var blocks := [b] + g.blocks;
    assert forall i :: 0 <= i < |g.blocks| ==> blocks[i + 1] == g.blocks[i];
    SlotFirst(b, p.slotSize);
    forall i, k: nat | 0 <= i < |blocks| && SlotAt(blocks[i], p.slotSize, k) + p.slotSize <= blocks[i] + BLOCK_SIZE && i > 0
      ensures SlotAt(blocks[i], p.slotSize, k) in g.carved
    {
      if i == 1 && k >= g.count { SlotNext(g.blocks[0], p.slotSize, g.count, k); }
      assert blocks[i] == g.blocks[i - 1];
    }
  }

  lemma SlotFirst(b: nat, size: nat)
    requires GoodBlock(b) && 0 < size < SIZE_T
    ensures SlotAt(b, size, 0) == b + WORD + Pad(b + WORD, size)
  {}

  // Carving the next slot of the tail.
  lemma CarveKeeps(p: Pool, mem: Memory, g: Ledger)
    requires Inv(p, mem, g) && p.curSlot < p.lastSlot
    ensures var g' := g.(carved := g.carved + {p.curSlot}, count := g.count + 1);
      Inv(p.(curSlot := p.curSlot + p.slotSize / WORD * WORD), mem, g') && Live(g', p.curSlot) && !Live(g, p.curSlot)
  {
    hide Aligned, Chain, Tiled;
    var s := p.curSlot;
    AlignedNext(s, p.slotSize);
    CarveTiles(p, mem, g);
    assert s !in g.carved;
    assert Inside(s, p.slotSize, g.blocks[0]);
    forall i | 0 <= i < |g.free| ensures g.free[i] != s {}
  }

  lemma ReuseKeeps(p: Pool, mem: Memory, g: Ledger)
    requires Inv(p, mem, g) && p.freeList != 0
    ensures g.free != [] && g.free[0] == p.freeList
    ensures var g' := g.(free := g.free[1..]);
      Inv(p.(freeList := Read(mem, p.freeList)), mem, g') && Live(g', p.freeList) && !Live(g, p.freeList)
  {
    hide CarvedRight, BlocksRight, SlotAt;
    forall i | 0 <= i < |g.free[1..]| ensures g.free[1..][i] == g.free[i + 1] {}
  }

  // allocate() hands out a slot that nobody had.
  lemma AllocateKeeps(p: Pool, mem: Memory, g: Ledger, b: nat)
    requires Inv(p, mem, g) && Separate(b, g.blocks)
    ensures var a, g' := Allocate(p, mem, b), AllocateLedger(p, g, b);
      Inv(a.pool, a.mem, g') && Live(g', a.ptr) && !Live(g, a.ptr) && a.pool.slotSize == p.slotSize
  {
    hide Inv, NewBlock;
    assert Class(p) by { InvClass(p, mem, g); }
    if p.freeList != 0 {
      ReuseKeeps(p, mem, g);
    } else if p.curSlot >= p.lastSlot {
      NewBlockKeeps(p, mem, g, b);
      NewBlockFields(p, b);
      CarveKeeps(NewBlock(p, b), mem[b := p.firstBlock], Ledger([b] + g.blocks, g.carved, g.free, 0));
    } else {
      CarveKeeps(p, mem, g);
    }
  }

  lemma InvClass(p: Pool, mem: Memory, g: Ledger)
    requires Inv(p, mem, g)
    ensures Class(p)
  {}

  lemma NewBlockFields(p: Pool, b: nat)
    requires Class(p) && GoodBlock(b)
    ensures NewBlock(p, b).slotSize == p.slotSize
  {}

  // Nothing an owner writes reaches a link of the pool.
  lemma WriteKeeps(p: Pool, mem: Memory, g: Ledger, a: nat, w: nat)
    requires Inv(p, mem, g) && Writable(p, g, a)
    ensures Inv(p, mem[a := w], g)
  {
    hide Chain, Aligned, Tiled;
    forall i | 0 <= i < |g.blocks| ensures g.blocks[i] != a {
      WritableIsNoHeader(p, mem, g, a, i);
    }
    forall i | 0 <= i < |g.free| ensures g.free[i] != a {
      WritableIsNotFree(p, mem, g, a, i);
    }
    ChainFrame(mem, p.firstBlock, g.blocks, a, w);
    ChainFrame(mem, p.freeList, g.free, a, w);
  }

  lemma WritableIsNoHeader(p: Pool, mem: Memory, g: Ledger, a: nat, j: nat)
    requires Inv(p, mem, g) && Writable(p, g, a) && j < |g.blocks|
    ensures g.blocks[j] != a
  {
    hide Chain, Aligned, TailRight, FreeRight, Tiled;
    if s: nat :| Live(g, s) && s <= a < s + p.slotSize {
      var i :| 0 <= i < |g.blocks| && Inside(s, p.slotSize, g.blocks[i]);
      BlocksApart(g.blocks, i, j);
    }
  }

  lemma WritableIsNotFree(p: Pool, mem: Memory, g: Ledger, a: nat, j: nat)
    requires Inv(p, mem, g) && Writable(p, g, a) && j < |g.free|
    ensures g.free[j] != a
  {
    hide Chain, Aligned, TailRight, Tiled;
    var t := g.free[j];
    if s: nat :| Live(g, s) && s <= a < s + p.slotSize {
      assert s != t && Apart(s, t, p.slotSize);
    } else {
      assert Housed(t, p.slotSize, g.blocks);
    }
  }

  // No call of the pool touches a live slot's bytes, but for the first word of the slot being freed.
  lemma AllocateLeavesData(p: Pool, mem: Memory, g: Ledger, b: nat, s: nat, a: nat)
    requires Inv(p, mem, g) && Separate(b, g.blocks) && Live(g, s) && s <= a < s + p.slotSize
    ensures Read(Allocate(p, mem, b).mem, a) == Read(mem, a)
  {
    hide Chain, Aligned, TailRight, FreeRight, Tiled;
    var i :| 0 <= i < |g.blocks| && Inside(s, p.slotSize, g.blocks[i]);
    assert Apart(b, g.blocks[i], BLOCK_SIZE);
  }

  lemma DeallocateLeavesData(p: Pool, mem: Memory, g: Ledger, ptr: nat, s: nat, a: nat)
    requires Inv(p, mem, g) && Live(g, ptr) && Live(g, s) && s != ptr && s <= a < s + p.slotSize
    ensures Read(Deallocate(p, mem, ptr).1, a) == Read(mem, a)
  {
    hide Chain, Aligned, TailRight, FreeRight, Tiled;
    assert Apart(s, ptr, p.slotSize);
  }

  // ---------------------------------------------------------------- all runs

  // held: the addresses handed out and not given back.
  datatype State = State(pool: Pool, mem: Memory, ledger: Ledger, held: set<nat>)

  function Begin(size: nat, mem: Memory): State { State(Init(size), mem, EMPTY, {}) }

  datatype Action = Alloc(b: nat) | Free(ptr: nat) | Write(a: nat, w: nat)

  // Owners give back what they hold, and write there or outside the pool.
  ghost predicate Enabled(s: State, a: Action) {
    match a
    case Alloc(b) => Class(s.pool) && Separate(b, s.ledger.blocks)
    case Free(ptr) => ptr == 0 || ptr in s.held
    case Write(addr, w) =>
      addr % WORD == 0 &&
      ((exists x: nat :: x in s.held && x <= addr < x + s.pool.slotSize) ||
       forall i :: 0 <= i < |s.ledger.blocks| ==> addr < s.ledger.blocks[i] || s.ledger.blocks[i] + BLOCK_SIZE <= addr)
  }

  ghost function Next(s: State, a: Action): State
    requires Enabled(s, a)
  {
    match a
    case Alloc(b) =>
      var r := Allocate(s.pool, s.mem, b);
      State(r.pool, r.mem, AllocateLedger(s.pool, s.ledger, b), s.held + {r.ptr})
    case Free(ptr) =>
      var (q, mem) := Deallocate(s.pool, s.mem, ptr);
      State(q, mem, if ptr == 0 then s.ledger else DeallocateLedger(s.ledger, ptr), s.held - {ptr})
    case Write(addr, w) => s.(mem := s.mem[addr := w])
  }

  ghost predicate Reaches(s: State, actions: seq<Action>, t: State)
    decreases |actions|
  {
    if actions == [] then t == s
    else Enabled(s, actions[0]) && Reaches(Next(s, actions[0]), actions[1..], t)
  }

  // What is carved and not on the free list is exactly what is held.
  ghost predicate HeldRight(s: State) { forall x :: x in s.held <==> Live(s.ledger, x) }

  ghost predicate RunInv(s: State) { Inv(s.pool, s.mem, s.ledger) && HeldRight(s) }

  lemma LiveNotNull(p: Pool, mem: Memory, g: Ledger, x: nat)
    requires Inv(p, mem, g) && x in g.carved
    ensures x != 0
  {
    hide Chain, Aligned, TailRight, FreeRight, Tiled;
    assert Housed(x, p.slotSize, g.blocks);
  }

  // An allocation adds the slot it returns to those in use, and nothing else changes hands.
  lemma AllocateHands(p: Pool, mem: Memory, g: Ledger, b: nat, x: nat)
    requires Inv(p, mem, g) && Separate(b, g.blocks)
    ensures Live(AllocateLedger(p, g, b), x) <==> Live(g, x) || x == Allocate(p, mem, b).ptr
  {
    hide CarvedRight, BlocksRight, TailRight, Tiled, Pad;
    AllocateKeeps(p, mem, g, b);
    if p.freeList != 0 {
      assert g.free == [g.free[0]] + g.free[1..];
    }
  }

  lemma NextKeeps(s: State, a: Action)
    requires RunInv(s) && Enabled(s, a)
    ensures RunInv(Next(s, a))
  {
    hide Inv, Separate, Live, AllocateLedger, Allocate;
    match a
    case Alloc(b) =>
      AllocateKeeps(s.pool, s.mem, s.ledger, b);
      forall x: nat ensures x in Next(s, a).held <==> Live(Next(s, a).ledger, x) {
        AllocateHands(s.pool, s.mem, s.ledger, b, x);
      }
    case Free(ptr) =>
      if ptr != 0 {
        DeallocateKeeps(s.pool, s.mem, s.ledger, ptr);
        DeallocateHands(s.ledger, ptr);
      } else {
        NullNotLive(s);
      }
    case Write(addr, w) =>
      WriteKeeps(s.pool, s.mem, s.ledger, addr, w);
  }

  lemma DeallocateHands(g: Ledger, ptr: nat)
    requires Live(g, ptr)
    ensures forall x :: Live(DeallocateLedger(g, ptr), x) <==> Live(g, x) && x != ptr
  {}

  lemma NullNotLive(s: State)
    requires RunInv(s)
    ensures 0 !in s.held
  {
    hide Inv;
    if Live(s.ledger, 0) { LiveNotNull(s.pool, s.mem, s.ledger, 0); }
  }

  lemma {:induction false} ReachesKeeps(s: State, actions: seq<Action>, t: State)
    requires RunInv(s) && Reaches(s, actions, t)
    ensures RunInv(t) && t.pool.slotSize == s.pool.slotSize
    decreases |actions|
  {
    hide RunInv, Enabled, Next;
    if actions != [] {
      NextKeeps(s, actions[0]);
      SameSize(s, actions[0]);
      ReachesKeeps(Next(s, actions[0]), actions[1..], t);
    }
  }

  lemma SameSize(s: State, a: Action)
    requires Enabled(s, a)
    ensures Next(s, a).pool.slotSize == s.pool.slotSize
  {}

  lemma RunKeeps(size: nat, mem: Memory, actions: seq<Action>, t: State)
    requires Class(Init(size)) && Reaches(Begin(size, mem), actions, t)
    ensures RunInv(t) && t.pool.slotSize == size
  {
    hide Reaches;
    InitInv(size, mem);
    ReachesKeeps(Begin(size, mem), actions, t);
  }

  lemma InitInv(size: nat, mem: Memory)
    requires Class(Init(size))
    ensures Inv(Init(size), mem, EMPTY)
  {}

  // The first request of a pool is served from a new block, past its link.
  lemma FirstAllocation(size: nat, mem: Memory, b: nat)
    requires Class(Init(size)) && GoodBlock(b)
    ensures var a, g := Allocate(Init(size), mem, b), AllocateLedger(Init(size), EMPTY, b);
      Inv(a.pool, a.mem, g) && Live(g, a.ptr) && Inside(a.ptr, size, b) && Read(a.mem, b) == 0
  {
    hide Inv, Pad;
    InitInv(size, mem);
    AllocateKeeps(Init(size), mem, EMPTY, b);
  }

  // Whatever its owners wrote and in whatever order they called: live slots, free slots and
  // the uncarved tail never overlap, and each lies in one block past its link.
  lemma NeverOverlap(size: nat, mem: Memory, actions: seq<Action>, t: State, x: nat, y: nat)
    requires Class(Init(size)) && Reaches(Begin(size, mem), actions, t)
    requires x in t.ledger.carved
    ensures t.pool.slotSize > 0 && Housed(x, t.pool.slotSize, t.ledger.blocks)
    ensures y in t.ledger.carved && x != y ==> Apart(x, y, t.pool.slotSize)
    ensures t.ledger.blocks != [] && (x + t.pool.slotSize <= t.pool.curSlot || t.ledger.blocks[0] + BLOCK_SIZE <= x)
  {
    hide Chain, Aligned, FreeRight;
    RunKeeps(size, mem, actions, t);
  }

  // The free list is exactly the carved slots nobody holds, each once, however it was overwritten meanwhile.
  lemma FreeListExact(size: nat, mem: Memory, actions: seq<Action>, t: State)
    requires Class(Init(size)) && Reaches(Begin(size, mem), actions, t)
    ensures Chain(t.mem, t.pool.freeList, t.ledger.free)
    ensures forall x :: x in t.ledger.free <==> x in t.ledger.carved && x !in t.held
    ensures forall x :: x in t.held ==> x in t.ledger.carved
    ensures forall i, j :: 0 <= i < j < |t.ledger.free| ==> t.ledger.free[i] != t.ledger.free[j]
  {
    hide Aligned, Chain, TailRight, CarvedRight, Tiled;
    RunKeeps(size, mem, actions, t);
  }

  // Nothing leaks: at any time every place for a slot in any block is held by somebody, on the
  // free list, or in the tail that is still to be carved.
  lemma NothingLost(size: nat, mem: Memory, actions: seq<Action>, t: State, i: nat, k: nat)
    requires Class(Init(size)) && Reaches(Begin(size, mem), actions, t) && i < |t.ledger.blocks|
    ensures GoodBlock(t.ledger.blocks[i])
    ensures var x := SlotAt(t.ledger.blocks[i], size, k);
      x + size <= t.ledger.blocks[i] + BLOCK_SIZE ==> x in t.held || x in t.ledger.free || (i == 0 && x >= t.pool.curSlot)
  {
    hide Aligned, Chain, TailRight, CarvedRight, SlotAt;
    RunKeeps(size, mem, actions, t);
    var x := SlotAt(t.ledger.blocks[i], size, k);
    if i == 0 && k >= t.ledger.count {
      SlotNext(t.ledger.blocks[0], size, t.ledger.count, k);
    }
  }

  // Every slot is word-aligned, and aligned to its size when that divides 2^64.
  lemma SlotAlignment(size: nat, mem: Memory, actions: seq<Action>, t: State, x: nat)
    requires Class(Init(size)) && Reaches(Begin(size, mem), actions, t) && x in t.ledger.carved
    ensures x % WORD == 0 && t.pool.slotSize > 0
    ensures SIZE_T % t.pool.slotSize == 0 ==> x % t.pool.slotSize == 0
  {
    hide Chain, TailRight, FreeRight, BlocksRight;
    RunKeeps(size, mem, actions, t);
  }

  // The comment on padPointer promises more: alignment to the slot size, which in practice
  // only the pools whose slot size is a power of two have.
  lemma FirstSlotAlignedIff(p: Pool, b: nat)
    requires Class(p) && GoodBlock(b) && p.slotSize < b + WORD
    ensures NewBlock(p, b).curSlot % p.slotSize == 0 <==> exists j :: 0 <= j <= 64 && p.slotSize == Pow2(j)
  {
    AlignsIffPowerOfTwo(b + WORD, p.slotSize);
  }

  // A freed slot is the next one handed out.
  lemma FreeThenAllocate(p: Pool, mem: Memory, g: Ledger, ptr: nat, b: nat)
    requires Inv(p, mem, g) && Live(g, ptr) && GoodBlock(b)
    ensures var (q, mem') := Deallocate(p, mem, ptr);
      var a := Allocate(q, mem', b);
      a.ptr == ptr && a.pool == p
  {
    hide Chain, Aligned, TailRight, FreeRight, Tiled;
    assert Housed(ptr, p.slotSize, g.blocks);
  }
}

// The object, its fields, and the memory it shares with the owners of its slots.
module MemoryPool {
  import opened PadPointer
  import opened SlabPool

  class Heap {
    var words: Memory

    constructor (words: Memory)
      ensures this.words == words
    {
      this.words := words;
    }

    method Store(a: nat, w: nat)
      modifies this
      ensures words == old(words)[a := w]
    {
      words := words[a := w];
    }
  }

  class MemoryPool {
    const heap: Heap
    var slotSize: nat
    var firstBlock: nat
    var curSlot: nat
    var freeList: nat
    var lastSlot: nat
    ghost var ledger: Ledger

    function Fields(): Pool
      reads this
    {
      Pool(slotSize, firstBlock, curSlot, freeList, lastSlot)
    }

    ghost predicate Valid()
      reads this, heap
    {
      Inv(Fields(), heap.words, ledger)
    }

    constructor (heap: Heap, size: nat)
      requires Class(SlabPool.Init(size))
      ensures Valid() && this.heap == heap && Fields() == SlabPool.Init(size) && ledger == EMPTY
    {
      this.heap := heap;
      slotSize, firstBlock, curSlot, freeList, lastSlot := size, 0, 0, 0, 0;
      ledger := EMPTY;
      new;
      InitInv(size, heap.words);
    }

    // b is what operator new returns, should it be called.
    method Allocate(b: nat) returns (ptr: nat)
      requires Valid() && Separate(b, ledger.blocks)
      modifies this, heap
      ensures Valid() && ledger == AllocateLedger(old(Fields()), old(ledger), b)
      ensures Allocated(Fields(), heap.words, ptr) == SlabPool.Allocate(old(Fields()), old(heap.words), b)
      ensures Live(ledger, ptr) && !Live(old(ledger), ptr)
    {
      hide Inv;
      InvClass(Fields(), heap.words, ledger);
      AllocateKeeps(Fields(), heap.words, ledger, b);
      ledger := AllocateLedger(Fields(), ledger, b);
      if freeList != 0 {
        ptr := freeList;
        freeList := Read(heap.words, freeList);
        return;
      }
      if curSlot >= lastSlot {
        AllocateNewBlock(b);
      }
      ptr := curSlot;
      curSlot := curSlot + slotSize / WORD * WORD;
    }

    method AllocateNewBlock(b: nat)
      requires Class(Fields()) && GoodBlock(b)
      modifies this`firstBlock, this`curSlot, this`lastSlot, this`freeList, heap
      ensures Fields() == NewBlock(old(Fields()), b) && heap.words == old(heap.words)[b := old(firstBlock)]
    {
      heap.Store(b, firstBlock);
      firstBlock := b;
      var body := b + WORD;
      var paddingSize := Pad(body, slotSize);
      curSlot := body + paddingSize;
      lastSlot := b + BLOCK_SIZE - slotSize + 1;
      freeList := 0;
    }

    method Deallocate(ptr: nat)
      requires Valid() && (ptr == 0 || Live(ledger, ptr))
      modifies this`freeList, this`ledger, heap
      ensures Valid() && ledger == if ptr == 0 then old(ledger) else DeallocateLedger(old(ledger), ptr)
      ensures (Fields(), heap.words) == SlabPool.Deallocate(old(Fields()), old(heap.words), ptr)
    {
      hide Inv;
      if ptr != 0 {
        DeallocateKeeps(Fields(), heap.words, ledger, ptr);
        ledger := DeallocateLedger(ledger, ptr);
        heap.Store(ptr, freeList);
        freeList := ptr;
      }
    }

    // The destructor's walk: the addresses given back to operator delete, in order.
    method Destroy() returns (freed: seq<nat>)
      requires Valid()
      ensures freed == ledger.blocks
      ensures forall i, j :: 0 <= i < j < |freed| ==> freed[i] != freed[j]
    {
      hide BlocksRight, CarvedRight, TailRight, FreeRight;
      var cur := firstBlock;
      freed := [];
      ghost var left := ledger.blocks;
      while cur != 0
        invariant Chain(heap.words, cur, left) && freed + left == ledger.blocks
        decreases |left|
      {
        assert left == [left[0]] + left[1..];
        var next := Read(heap.words, cur);
        freed := freed + [cur];
        cur := next;
        left := left[1..];
      }
      forall i, j | 0 <= i < j < |freed| ensures freed[i] != freed[j] {
        BlocksApart(ledger.blocks, i, j);
      }
    }
  }
}
