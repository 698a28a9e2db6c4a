/** The free-list allocator of rtsp-server/net/MemoryManager.h and
    rtsp-server/net/MemoryManager.cpp. */
module MemoryPool {
  const BLOCK_HEADER := 24

  /** The header in front of every block; `start` is where it lies in the memory of its
      pool and `capacity` how many bytes follow it. */
  class MemoryBlock {
    var block_id: nat
    var pool: MemoryPool?
    var next: MemoryBlock?
    const start: nat
    const capacity: nat

    constructor (start: nat, capacity: nat)
      ensures block_id == 0 && pool == null && next == null && this.start == start && this.capacity == capacity
    {
      block_id := 0;
      pool, next := null, null;
      this.start, this.capacity := start, capacity;
    }
  }

  /** Where block k of a pool begins in the pool's memory. */
  function BlockStart(k: nat, size: nat): nat {
    k * (size + BLOCK_HEADER)
  }

  /** `list` is the chain that starts at head and ends in null. */
  ghost predicate Chain(head: MemoryBlock?, list: seq<MemoryBlock>)
    reads list
  {
    && head == (if list == [] then null else list[0])
    && (forall i {:trigger list[i].next} :: 0 <= i < |list| ==>
          list[i].next == if i + 1 < |list| then list[i + 1] else null)
  }

  /** A chain that runs into a ring never ends: `ring` are the blocks from head on,
      and the last one points back to one of them. */
  lemma {:induction false} RingHasNoEnd(head: MemoryBlock?, list: seq<MemoryBlock>, ring: seq<MemoryBlock>, k: nat)
    requires ring != [] && head == ring[0]
    requires forall b :: b in ring ==> b.next != null && b.next in ring
    requires Chain(head, list) && k < |list|
    ensures list[k] in ring
  {
    if k > 0 {
      RingHasNoEnd(head, list, ring, k - 1);
      assert list[k - 1].next == list[k];
    }
  }

  lemma NoChainThroughRing(head: MemoryBlock?, list: seq<MemoryBlock>, ring: seq<MemoryBlock>)
    requires ring != [] && head == ring[0]
    requires forall b :: b in ring ==> b.next != null && b.next in ring
    ensures !Chain(head, list)
  {
    if Chain(head, list) {
      ChainEnds(head, list);
      RingHasNoEnd(head, list, ring, |list| - 1);
    }
  }

  lemma ChainEnds(head: MemoryBlock?, list: seq<MemoryBlock>)
    requires Chain(head, list) && list != []
    ensures list[|list| - 1].next == null
  {
  }

  /** The pointers after a block of the free list was put in front of it again. */
  lemma FreedTwiceIsRing(block: MemoryBlock, was: seq<MemoryBlock>, i: nat)
    requires i < |was| && was[i] == block && block.next == was[0]
    requires forall j {:trigger was[j].next} :: 0 <= j < i ==> was[j].next == was[j + 1]
    ensures forall list :: !Chain(block, list)
  {
    hide Chain;
    var ring := [block] + was[..i];
    forall b | b in ring
      ensures b.next != null && b.next in ring
    {
      if b == block {
        assert 0 < i ==> was[0] == ring[1];
      } else {
        var j :| 0 <= j < i && was[j] == b;
        assert b.next == was[j + 1];
        assert j + 1 < i ==> was[j + 1] == ring[j + 2];
      }
    }
    forall list: seq<MemoryBlock>
      ensures !Chain(block, list)
    {
      NoChainThroughRing(block, list, ring);
    }
  }

  ghost predicate Distinct(list: seq<MemoryBlock>) {
    forall i, j :: 0 <= i < j < |list| ==> list[i] != list[j]
  }

  class MemoryPool {
    var block_size: nat
    var num_blocks: nat
    var head: MemoryBlock?
    /** The blocks carved out of the memory, by position. */
    ghost var blocks: seq<MemoryBlock>
    /** The free list, first block first. */
    ghost var free: seq<MemoryBlock>

    /** The free list is a chain without repetition through blocks of this pool. */
    ghost predicate Valid()
      reads this, blocks, free
    {
      && |blocks| == num_blocks && Distinct(blocks)
      && (forall i :: 0 <= i < |blocks| ==>
            && blocks[i].pool == this && blocks[i].block_id == i + 1
            && blocks[i].start == BlockStart(i, block_size) && blocks[i].capacity == block_size)
      && Chain(head, free) && Distinct(free)
      && (forall b :: b in free ==> b in blocks)
    }

    /** Blocks handed out and not yet freed. */
    ghost function Outstanding(): set<MemoryBlock>
      reads this
    {
      (set b | b in blocks) - (set b | b in free)
    }

    constructor ()
      ensures Valid() && blocks == [] && free == [] && block_size == 0
    {
      block_size, num_blocks := 0, 0;
      head := null;
      blocks, free := [], [];
    }

    /** The default constructor followed by `Init`. */
    constructor WithBlocks(size: nat, n: nat)
      requires n >= 1
      ensures Valid() && |blocks| == n && free == blocks && Outstanding() == {} && block_size == size
    {
      block_size, num_blocks := 0, 0;
      head := null;
      blocks, free := [], [];
      new;
      Init(size, n);
    }

    /** Carves n blocks and chains them; a second call does nothing. */
    method Init(size: nat, n: nat)
      requires Valid() && n >= 1
      modifies this
      ensures Valid()
      ensures old(blocks) == [] ==>
                |blocks| == n && free == blocks && fresh(set b | b in blocks) && block_size == size && Outstanding() == {}
      ensures old(blocks) != [] ==>
                blocks == old(blocks) && free == old(free) && block_size == old(block_size) && head == old(head)
    {
      if num_blocks > 0 {
        return;
      }
      block_size := size;
      num_blocks := n;
      hide BlockStart;
      FirstStart(size);
      var first := new MemoryBlock(0, size);
      first.block_id := 1;
      first.pool := this;
      head := first;
      ghost var carved := [first];
      var current := first;
      var k := 1;
      while k < n
        invariant 1 <= k <= n && |carved| == k && carved[k - 1] == current && carved[0] == head == first
        invariant block_size == size && num_blocks == n
        invariant forall i :: 0 <= i < k ==> fresh(carved[i])
        invariant Distinct(carved)
        invariant forall i :: 0 <= i < k ==>
                    && carved[i].pool == this && carved[i].block_id == i + 1
                    && carved[i].start == BlockStart(i, size) && carved[i].capacity == size
        invariant forall i {:trigger carved[i].next} :: 0 <= i < k ==>
                    carved[i].next == if i + 1 < k then carved[i + 1] else null
      {
        var next := new MemoryBlock(BlockStart(k, size), size);
        next.block_id := k + 1;
        next.pool := this;
        current.next := next;
        current := next;
        carved := carved + [next];
        k := k + 1;
      }
      blocks, free := carved, carved;
    }

    /** Hands out the first free block, and null exactly when all are taken. */
    method Alloc() returns (block: MemoryBlock?)
      requires Valid()
      modifies this`head, this`free
      ensures Valid() && blocks == old(blocks)
      ensures block == null <==> old(free) == []
      ensures block == null ==> free == []
      ensures block != null ==>
                && block in blocks && block !in old(Outstanding()) && block.capacity == block_size
                && [block] + free == old(free) && Outstanding() == old(Outstanding()) + {block}
    {
      if head != null {
        block := head;
        assert free[0].next == if 1 < |free| then free[1] else null;
        head := head.next;
        free := free[1..];
        assert old(free) == [block] + free;
        assert forall i :: 0 <= i < |free| ==> free[i] == old(free)[i + 1];
        return block;
      }
      return null;
    }

    /** Takes a block back. The free list stays a chain without repetition if and
        only if the block was outstanding. Otherwise the pointers from head on form a
        ring: no chain of blocks starts there and ends. */
    method Free(block: MemoryBlock)
      requires Valid() && block in blocks
      modifies this`head, this`free, block`next
      ensures blocks == old(blocks) && free == [block] + old(free)
      ensures Valid() <==> block in old(Outstanding())
      ensures block !in old(Outstanding()) ==> forall list :: !Chain(head, list)
      ensures Outstanding() == old(Outstanding()) - {block}
    {
      ghost var was := free;
      if block.block_id != 0 {
        block.next := head;
        head := block;
        free := [block] + free;
      }
      if block !in old(Outstanding()) {
        var i :| 0 <= i < |was| && was[i] == block;
        assert free[0] == free[i + 1];
        FreedTwiceIsRing(block, was, i);
      }
    }
  }

  // ---------------------------------------------------------------------------
  // Layout
  // ---------------------------------------------------------------------------

  lemma FirstStart(size: nat)
    ensures BlockStart(0, size) == 0
  {
  }

  /** Any two blocks of a pool, headers included, lie one behind the other, and all lie
      inside the memory that was allocated for the pool. */
  lemma BlocksAreDisjoint(pool: MemoryPool, a: MemoryBlock, b: MemoryBlock)
    requires pool.Valid() && a in pool.blocks && b in pool.blocks && a != b
    ensures a.start + BLOCK_HEADER + a.capacity <= b.start || b.start + BLOCK_HEADER + b.capacity <= a.start
    ensures a.start + BLOCK_HEADER + a.capacity <= pool.num_blocks * (pool.block_size + BLOCK_HEADER)
  {
    hide Chain, Distinct;
    var j :| 0 <= j < |pool.blocks| && pool.blocks[j] == a;
    var k :| 0 <= k < |pool.blocks| && pool.blocks[k] == b;
    var w := pool.block_size + BLOCK_HEADER;
    Multiples(j + 1, pool.num_blocks, w);
    if j < k {
      Multiples(j + 1, k, w);
    } else {
      Multiples(k + 1, j, w);
    }
  }

  lemma {:induction false} Multiples(j: nat, k: nat, w: nat)
    requires j <= k
    ensures (j - 1) * w + w == j * w <= k * w
    decreases k - j
  {
    if j < k {
      Multiples(j, k - 1, w);
    }
  }

  // ---------------------------------------------------------------------------
  // The manager
  // ---------------------------------------------------------------------------

  class MemoryManager {
    const small: MemoryPool
    const middle: MemoryPool
    const large: MemoryPool
    /** Blocks from the system allocator that are still in use. */
    ghost var system: set<MemoryBlock>

    ghost predicate Valid()
      reads this, small, middle, large, small.blocks, middle.blocks, large.blocks
      reads small.free, middle.free, large.free, system
    {
      && small != middle && small != large && middle != large
      && small.Valid() && middle.Valid() && large.Valid()
      && forall b :: b in system ==> b.pool == null
    }

    /** Everything handed out and not yet freed. */
    ghost function Outstanding(): set<MemoryBlock>
      reads this, small, middle, large
    {
      small.Outstanding() + middle.Outstanding() + large.Outstanding() + system
    }

    constructor ()
      ensures Valid() && Outstanding() == {}
      ensures |small.blocks| == 50 && |middle.blocks| == 10 && |large.blocks| == 5
      ensures small.block_size == 4096 && middle.block_size == 40960 && large.block_size == 102400
      ensures fresh(small) && fresh(middle) && fresh(large)
    {
      hide MemoryPool.Valid, MemoryPool.Outstanding;
      small := new MemoryPool.WithBlocks(4096, 50);
      middle := new MemoryPool.WithBlocks(40960, 10);
      large := new MemoryPool.WithBlocks(102400, 5);
      system := {};
    }

    /** The first pool whose blocks are big enough. */
    function PoolFor(size: nat): (p: MemoryPool?)
      reads small`block_size, middle`block_size, large`block_size
    {
      if size <= small.block_size then small
      else if size <= middle.block_size then middle
      else if size <= large.block_size then large
      else null
    }

    /** The first pool whose blocks are big enough is asked, and only that one; if
        it is empty, or the request is too big for all, the system allocator is. */
    method Alloc(size: nat) returns (block: MemoryBlock)
      requires Valid()
      modifies this, small`head, small`free, middle`head, middle`free, large`head, large`free
      ensures Valid()
      ensures block.capacity >= size && block !in old(Outstanding())
      ensures Outstanding() == old(Outstanding()) + {block}
      ensures old(PoolFor(size) != null && PoolFor(size).free != []) ==>
                block == old(PoolFor(size).free[0]) && old(PoolFor(size)).free == old(PoolFor(size).free[1..])
                && system == old(system)
      ensures old(PoolFor(size) == null || PoolFor(size).free == []) ==>
                fresh(block) && block.capacity == size && system == old(system) + {block}
      ensures forall p :: p in {small, middle, large} && p != old(PoolFor(size)) ==> p.free == old(p.free)
    {
      hide MemoryPool.Valid, MemoryPool.Outstanding;
      var memory_pools := [small, middle, large];
      var i := 0;
      while i < 3 && size > memory_pools[i].block_size
        invariant 0 <= i <= 3 && (i > 0 ==> size > small.block_size)
        invariant (i > 1 ==> size > middle.block_size) && (i > 2 ==> size > large.block_size)
      {
        i := i + 1;
      }
      assert PoolFor(size) == if i < 3 then memory_pools[i] else null;
      if i < 3 {
        var p := AllocFrom(memory_pools[i]);
        if p != null {
          return p;
        }
      }
      block := AllocFromSystem(size);
    }

    method AllocFrom(pool: MemoryPool) returns (block: MemoryBlock?)
      requires Valid() && pool in {small, middle, large}
      modifies pool`head, pool`free
      ensures Valid()
      ensures block == null ==> Outstanding() == old(Outstanding()) && old(pool.free) == pool.free == []
      ensures block != null ==> block.capacity == pool.block_size && block !in old(Outstanding())
                                && old(pool.free) != [] && block == old(pool.free[0]) && pool.free == old(pool.free[1..])
                                && Outstanding() == old(Outstanding()) + {block}
    {
      hide Distinct, Chain;
      ghost var free := pool.free;
      block := pool.Alloc();
      if block != null {
        assert free[0] == block && free[1..] == pool.free;
      }
    }

    method AllocFromSystem(size: nat) returns (block: MemoryBlock)
      requires Valid()
      modifies this`system
      ensures Valid() && block !in old(Outstanding()) && block.capacity == size
      ensures fresh(block) && system == old(system) + {block}
      ensures Outstanding() == old(Outstanding()) + {block}
    {
      hide MemoryPool.Valid;
      block := new MemoryBlock(0, size);
      system := system + {block};
    }

    /** An outstanding block is in use in the pool it points to and nowhere else. */
    lemma OwnPool(block: MemoryBlock)
      requires Valid() && block in Outstanding()
      ensures block.pool == null <==> block in system
      ensures block in small.Outstanding() <==> block.pool == small
      ensures block in middle.Outstanding() <==> block.pool == middle
      ensures block in large.Outstanding() <==> block.pool == large
      ensures block.pool != null ==>
                && block.pool in {small, middle, large} && block in block.pool.blocks && block.block_id > 0
    {
      hide Distinct, Chain;
    }

    /** A block goes back to the pool it came from, and to no other. */
    method Free(block: MemoryBlock)
      requires Valid() && block in Outstanding()
      modifies this, small`head, small`free, middle`head, middle`free, large`head, large`free, block`next
      ensures Valid() && Outstanding() == old(Outstanding()) - {block}
      ensures small.free == (if block.pool == small then [block] + old(small.free) else old(small.free))
      ensures middle.free == (if block.pool == middle then [block] + old(middle.free) else old(middle.free))
      ensures large.free == (if block.pool == large then [block] + old(large.free) else old(large.free))
      ensures system == old(system) - {block}
    {
      hide Distinct, Chain, MemoryPool.Outstanding;
      OwnPool(block);
      var pool := block.pool;
      if pool != null && block.block_id > 0 {
        assert block in pool.Outstanding();
        assert forall p :: p in {small, middle, large} && p != pool ==> block !in p.blocks;
        pool.Free(block);
      } else {
        system := system - {block};
      }
    }
  }

  /** One block freed twice: the allocator's list has no end any more. */
  method FreedTwice() returns (pool: MemoryPool)
    ensures fresh(pool) && forall list :: !Chain(pool.head, list)
  {
    pool := new MemoryPool.WithBlocks(4096, 50);
    var block := pool.Alloc();
    pool.Free(block);
    pool.Free(block);
  }
}
