/**
 * The arena allocator of arena.h as heap objects: `struct ArenaBlock` and
 * `struct Arena` become classes whose fields the operations update in
 * place, linked through real `next` references. The ghost field `chain`
 * lists the blocks reachable from `head` in link order, `cur` is the
 * position of `current` in it, and `blocks` holds the value of each of those
 * blocks, kept equal to the objects by `Valid()`. `State()` is the arena as
 * an ArenaSpec.ArenaState, and every operation is proved to move the arena
 * exactly as the matching function of ArenaSpec does.
 *
 * The operations take `Arena?` so that the NULL-arena cases of the C
 * functions are part of the model. The results of `calloc` and `malloc`
 * are inputs (see ArenaSpec).
 */
module Arenas {
  import opened Options
  import opened Align
  import S = ArenaSpec

  /** struct ArenaBlock; `base` is the address of the first byte of `data`. */
  class Block {
    var next: Block?
    const capacity: nat
    var index: nat
    const base: nat

    constructor (capacity: nat, base: nat)
      ensures this.capacity == capacity && this.base == base
      ensures index == 0 && next == null
    {
      this.capacity := capacity;
      this.base := base;
      index := 0;
      next := null;
    }
  }

  /** struct Arena. */
  class Arena {
    var head: Block?
    var current: Block?
    const defaultBlockSize: nat

    /** The blocks reachable from head, in link order; current is chain[cur]. */
    ghost var chain: seq<Block>
    ghost var cur: nat
    /** The value of every block of the chain, kept in step with the objects. */
    ghost var blocks: seq<S.BlockState>
    /** Every block this arena has linked, including those a reset-and-grow dropped. */
    ghost var Owned: set<Block>
    /** The position of every block of the chain; it makes the blocks distinct. */
    ghost var pos: map<Block, nat>

    /** head starts a NULL-terminated chain of distinct blocks and current is one of them. */
    ghost predicate Valid()
      reads this, Owned`next, Owned`index
    {
      && defaultBlockSize > 0
      && |blocks| == |chain|
      && (chain == [] ==> head == null && current == null && cur == 0)
      && (chain != [] ==> head == chain[0] && cur < |chain| && current == chain[cur])
      && (forall i :: 0 <= i < |chain| ==>
            && chain[i] in Owned && chain[i] in pos && pos[chain[i]] == i
            && blocks[i] == S.BlockState(chain[i].base, chain[i].capacity, chain[i].index))
      && (chain != [] ==> chain[|chain| - 1].next == null)
      && (forall i {:trigger chain[i].next} :: 0 <= i < |chain| - 1 ==> chain[i].next == chain[i + 1])
    }

    /** The arena as a value. */
    ghost function State(): (s: S.ArenaState)
      reads this
    {
      S.ArenaState(blocks, cur, defaultBlockSize)
    }

    /** The part of arena_init after calloc: no blocks yet. */
    constructor (defaultBlockSize: nat)
      requires defaultBlockSize > 0
      ensures Valid() && Owned == {}
      ensures head == null && current == null && this.defaultBlockSize == defaultBlockSize
      ensures State() == S.ArenaState([], 0, defaultBlockSize)
    {
      head := null;
      current := null;
      this.defaultBlockSize := defaultBlockSize;
      chain := [];
      cur := 0;
      blocks := [];
      Owned := {};
      pos := map[];
    }
  }

  /** arena_init; `callocOk` says whether calloc returned memory. */
  method Init(defaultBlockSize: nat, callocOk: bool) returns (arena: Arena?)
    ensures defaultBlockSize == 0 || !callocOk ==> arena == null
    ensures defaultBlockSize > 0 && callocOk ==>
      && arena != null && fresh(arena) && arena.Valid() && arena.Owned == {}
      && arena.head == null && arena.current == null
      && arena.defaultBlockSize == defaultBlockSize
      && arena.State() == S.ArenaState([], 0, defaultBlockSize)
  {
    if defaultBlockSize == 0 {
      return null;
    }
    if !callocOk {
      return null;
    }
    arena := new Arena(defaultBlockSize);
  }

  /** arena_alloc (arena.h:196-205): the first block becomes both head and current. */
  method AddFirstBlock(arena: Arena, capacity: nat, base: nat)
    requires arena.Valid() && arena.chain == []
    modifies arena
    ensures arena.Valid() && fresh(arena.Owned - old(arena.Owned))
    ensures |arena.chain| == 1 && arena.head == arena.current && fresh(arena.head)
    ensures arena.State() == S.ArenaState([S.BlockState(base, capacity, 0)], 0, arena.defaultBlockSize)
  {
    var block := new Block(capacity, base);
    arena.head, arena.current := block, block;
    arena.chain, arena.cur, arena.blocks := [block], 0, [S.BlockState(base, capacity, 0)];
    arena.Owned := arena.Owned + {block};
    arena.pos := map[block := 0];
  }

  /** arena_alloc (arena.h:220-226): a fresh block with capacity and base set and cursor 0. */
  method NewBlock(arena: Arena, capacity: nat, base: nat) returns (block: Block)
    requires arena.Valid()
    ensures fresh(block) && block.next == null && block.index == 0
    ensures block.capacity == capacity && block.base == base
    ensures arena.Valid() && block !in arena.Owned
  {
    block := new Block(capacity, base);
  }

  /** arena_alloc, lines 228-230: a fresh block is linked after current and becomes current. */
  method LinkFreshBlock(arena: Arena, newBlock: Block)
    requires arena.Valid() && arena.chain != []
    requires newBlock !in arena.Owned && newBlock.next == null && newBlock.index == 0
    modifies arena, arena.current`next
    ensures arena.Valid() && arena.Owned == old(arena.Owned) + {newBlock}
    ensures arena.current == newBlock && arena.head == old(arena.head)
    ensures arena.chain == old(arena.chain)[..old(arena.cur) + 1] + [newBlock]
    ensures arena.State() == S.Link(old(arena.State()), newBlock.base, newBlock.capacity)
  {
    ghost var c, vs, p := arena.chain, arena.blocks, arena.pos;
    var k := arena.cur;
    arena.current.next := newBlock;
    arena.current := newBlock;
    arena.chain := c[..k + 1] + [newBlock];
    arena.cur := k + 1;
    arena.Owned := arena.Owned + {newBlock};
    arena.pos := p[newBlock := k + 1];
    arena.blocks := vs[..k + 1] + [S.BlockState(newBlock.base, newBlock.capacity, 0)];
    forall i | 0 <= i <= k
      ensures arena.chain[i] == c[i] && arena.blocks[i] == vs[i] && c[i] != newBlock
    {
    }
    forall i | 0 <= i < k
      ensures c[i].next == c[i + 1]
    {
      assert p[c[i]] != p[c[k]];
    }
  }

  /** arena_alloc, lines 237 and 239: the cursor of current moves forward by n. */
  method Advance(arena: Arena, n: nat)
    requires arena.Valid() && arena.chain != []
    modifies arena`blocks, arena.current`index
    ensures arena.Valid()
    ensures arena.current.index == old(arena.current.index) + n
    ensures arena.State() == S.Advance(old(arena.State()), n)
  {
    arena.blocks := S.Advance(arena.State(), n).blocks;
    arena.current.index := arena.current.index + n;
  }

  /** arena_alloc, lines 237-241: pad the cursor of current, hand out that address, move past the object. */
  method BumpCurrent(arena: Arena, padding: nat, size: nat) returns (ptr: nat)
    requires arena.Valid() && arena.chain != []
    modifies arena`blocks, arena.current`index
    ensures arena.Valid()
    ensures ptr == old(arena.current.base + arena.current.index) + padding
    ensures arena.State() == S.Advance(S.Advance(old(arena.State()), padding), size)
  {
    Advance(arena, padding);
    ptr := arena.current.base + arena.current.index;
    Advance(arena, size);
  }

  /** arena_alloc, lines 220-230: a fresh block is created, linked after current and made current. */
  method Grow(arena: Arena, capacity: nat, base: nat)
    requires arena.Valid() && arena.chain != []
    modifies arena, arena.current`next
    ensures arena.Valid() && fresh(arena.Owned - old(arena.Owned))
    ensures fresh(arena.current) && arena.current.base == base && arena.head == old(arena.head)
    ensures arena.chain == old(arena.chain)[..old(arena.cur) + 1] + [arena.current]
    ensures arena.State() == S.Link(old(arena.State()), base, capacity)
  {
    var newBlock := NewBlock(arena, capacity, base);
    LinkFreshBlock(arena, newBlock);
  }

  /**
   * arena_alloc, lines 208-241, once there is a current block: pad and bump
   * the current block, or link a fresh block after it and bump that one.
   */
  method Place(arena: Arena, size: nat, alignment: nat, m: Option<nat>) returns (ptr: Option<nat>)
    requires arena.Valid() && arena.chain != [] && alignment > 0
    modifies arena, arena.Owned
    ensures arena.Valid() && fresh(arena.Owned - old(arena.Owned))
    ensures arena.State() == S.Bump(old(arena.State()), size, alignment, m).state
    ensures ptr == S.Bump(old(arena.State()), size, alignment, m).ptr
    ensures arena.head == old(arena.head)
    ensures || arena.chain == old(arena.chain)
            || arena.chain == old(arena.chain)[..old(arena.cur) + 1] + [arena.current]
    ensures arena.current != old(arena.current) ==> fresh(arena.current)
    ensures forall b :: b in old(arena.Owned) && b !in old(arena.chain) ==>
      b.index == old(b.index) && b.next == old(b.next)
  {
    ghost var s := arena.State();
    assert s.blocks[s.cur] == S.BlockState(arena.current.base, arena.current.capacity, arena.current.index);
    var currentPtr := arena.current.base + arena.current.index;
    var padding := AlignUp(currentPtr, alignment);
    if arena.current.index + padding + size > arena.current.capacity {
      var nextCapacity := if size > arena.defaultBlockSize then size else arena.defaultBlockSize;
      if m.None? {
        assert S.Bump(s, size, alignment, m) == S.Allocation(s, None);
        return None;
      }
      Grow(arena, nextCapacity, m.value);
      currentPtr := arena.current.base;
      padding := AlignUp(currentPtr, alignment);
      var p := BumpCurrent(arena, padding, size);
      ptr := Some(p);
    } else {
      var p := BumpCurrent(arena, padding, size);
      ptr := Some(p);
    }
  }

  /**
   * arena_alloc. `m1` and `m2` are the results of the first and the second
   * malloc the call makes, if it makes them.
   */
  method Alloc(arena: Arena?, size: nat, alignment: nat, m1: Option<nat>, m2: Option<nat>)
    returns (ptr: Option<nat>)
    requires arena != null ==> arena.Valid()
    modifies arena, if arena == null then {} else arena.Owned
    ensures arena == null ==> ptr == None
    ensures arena != null ==> arena.Valid() && fresh(arena.Owned - old(arena.Owned))
    ensures arena != null ==>
      && arena.State() == S.Alloc(old(arena.State()), size, alignment, m1, m2).state
      && ptr == S.Alloc(old(arena.State()), size, alignment, m1, m2).ptr
    ensures arena != null && old(arena.chain) != [] ==> arena.head == old(arena.head)
    ensures arena != null && old(arena.chain) != [] ==>
      || arena.chain == old(arena.chain)
      || arena.chain == old(arena.chain)[..old(arena.cur) + 1] + [arena.current]
    ensures arena != null && arena.current != old(arena.current) ==> fresh(arena.current)
    ensures arena != null && old(arena.chain) == [] && arena.chain != [] ==> fresh(arena.head)
    ensures arena != null ==> forall b :: b in old(arena.Owned) && b !in old(arena.chain) ==>
      b.index == old(b.index) && b.next == old(b.next)
  {
    if arena == null || size == 0 || alignment == 0 {
      return None;
    }
    if BitAnd(alignment, alignment - 1) != 0 {
      return None;
    }
    if arena.current != null {
      SplitAlloc(arena.State(), arena.State(), size, alignment, m1, m2, m1);
      ptr := Place(arena, size, alignment, m1);
      return;
    }
    if m1.None? {
      return None;
    }
    ptr := AllocFirst(arena, size, alignment, m1.value, m2);
  }

  /**
   * arena_alloc on an arena without blocks, once the arguments are valid and
   * the malloc for the first block returned `base`: the first block is
   * linked (arena.h:192-206), then the request is placed, with `m2` the result
   * of the malloc for a second block if there is one.
   */
  method AllocFirst(arena: Arena, size: nat, alignment: nat, base: nat, m2: Option<nat>) returns (ptr: Option<nat>)
    requires arena.Valid() && arena.chain == [] && S.ValidRequest(size, alignment)
    modifies arena, arena.Owned
    ensures arena.Valid() && fresh(arena.Owned - old(arena.Owned))
    ensures arena.State() == S.Alloc(old(arena.State()), size, alignment, Some(base), m2).state
    ensures ptr == S.Alloc(old(arena.State()), size, alignment, Some(base), m2).ptr
    ensures fresh(arena.head) && fresh(arena.current)
    ensures forall b :: b in old(arena.Owned) ==> b.index == old(b.index) && b.next == old(b.next)
  {
    var blockSize := if size > arena.defaultBlockSize then size else arena.defaultBlockSize;
    ghost var s0 := arena.State();
    AddFirstBlock(arena, blockSize, base);
    assert arena.chain == [arena.head];
    SplitAlloc(s0, arena.State(), size, alignment, Some(base), m2, m2);
    ptr := Place(arena, size, alignment, m2);
  }

  /** The validated part of Alloc followed by the bump on the arena that has a current block. */
  lemma SplitAlloc(s0: S.ArenaState, s1: S.ArenaState, size: nat, alignment: nat,
                   m1: Option<nat>, m2: Option<nat>, m: Option<nat>)
    requires S.WellFormed(s0) && S.WellFormed(s1) && s1.blocks != []
    requires S.ValidRequest(size, alignment)
    requires s0.blocks != [] ==> s1 == s0 && m == m1
    requires s0.blocks == [] ==>
      && m1.Some? && m == m2
      && s1 == S.ArenaState([S.BlockState(m1.value, S.BlockSizeFor(size, s0.defaultBlockSize), 0)], 0, s0.defaultBlockSize)
    ensures S.Alloc(s0, size, alignment, m1, m2) == S.Bump(s1, size, alignment, m)
  {
  }

  /** c is a NULL-terminated run of blocks linked through `next`. */
  ghost predicate Linked(c: seq<Block>)
    reads c
  {
    && (c != [] ==> c[|c| - 1].next == null)
    && (forall j {:trigger c[j].next} :: 0 <= j < |c| - 1 ==> c[j].next == c[j + 1])
  }

  /** The loop of arena_reset: every block reachable from `first` gets cursor 0. */
  method RewindChain(first: Block?, ghost c: seq<Block>, ghost owned: set<Block>)
    requires Linked(c) && first == (if c == [] then null else c[0])
    requires forall j :: 0 <= j < |c| ==> c[j] in owned
    modifies owned`index
    ensures forall j :: 0 <= j < |c| ==> c[j].index == 0
    ensures forall b :: b in owned && b !in c ==> b.index == old(b.index)
  {
    var block := first;
    ghost var i := 0;
    while block != null
      invariant 0 <= i <= |c|
      invariant block == if i < |c| then c[i] else null
      invariant forall j :: 0 <= j < i ==> c[j].index == 0
      invariant forall b :: b in owned && b !in c ==> b.index == old(b.index)
      decreases |c| - i
    {
      assert block == c[i] && block in c;
      block.index := 0;
      block := block.next;
      assert block == if i + 1 < |c| then c[i + 1] else null;
      i := i + 1;
    }
  }

  /** arena_reset: walk the chain from head setting every cursor to 0, then make head current. */
  method Reset(arena: Arena?)
    requires arena != null ==> arena.Valid()
    modifies arena, if arena == null then {} else arena.Owned`index
    ensures arena != null ==>
      && arena.Valid() && arena.Owned == old(arena.Owned)
      && arena.chain == old(arena.chain) && arena.head == old(arena.head)
      && arena.current == arena.head
      && arena.State() == S.Reset(old(arena.State()))
    ensures arena != null ==> forall b :: b in old(arena.Owned) && b !in old(arena.chain) ==> b.index == old(b.index)
  {
    if arena == null {
      return;
    }
    ResetBlocks(arena);
  }

  /** arena_reset on a non-NULL arena (arena.h:248-253). */
  method ResetBlocks(arena: Arena)
    requires arena.Valid()
    modifies arena, arena.Owned`index
    ensures arena.Valid() && arena.Owned == old(arena.Owned)
    ensures arena.chain == old(arena.chain) && arena.head == old(arena.head) && arena.current == arena.head
    ensures arena.State() == S.Reset(old(arena.State()))
    ensures forall b :: b in old(arena.Owned) && b !in old(arena.chain) ==> b.index == old(b.index)
  {
    ghost var s := arena.State();
    ghost var c := arena.chain;
    RewindChain(arena.head, c, arena.Owned);
    arena.current := arena.head;
    arena.cur := 0;
    arena.blocks := S.Reset(s).blocks;
    assert forall i :: 0 <= i < |c| ==> arena.blocks[i] == S.BlockState(c[i].base, c[i].capacity, 0);
  }

  /**
   * The chain walk of arena_free: the blocks it releases, in the order it
   * releases them. It releases exactly the blocks reachable from head, each
   * once; the release itself (free) is not modelled.
   */
  method Free(arena: Arena?) returns (released: seq<Block>)
    requires arena != null ==> arena.Valid()
    ensures arena == null ==> released == []
    ensures arena != null ==> released == arena.chain
  {
    released := [];
    if arena == null {
      return;
    }
    var block := arena.head;
    while block != null
      invariant |released| <= |arena.chain|
      invariant released == arena.chain[..|released|]
      invariant block == if |released| < |arena.chain| then arena.chain[|released|] else null
      decreases |arena.chain| - |released|
    {
      var next := block.next;
      released := released + [block];
      block := next;
    }
  }
}
