/**
 * A value model of the arena allocator of arena.h.
 *
 * A block is described by the address of its first data byte (`base`), its
 * fixed `capacity` and its write cursor `index`. An arena is described by
 * the chain of blocks reachable from `head`, in link order, the position
 * `cur` of the block that `current` points to, and `default_block_size`.
 * An empty chain stands for `head == current == NULL`.
 *
 * The result of every `malloc` that `arena_alloc` makes is an input: `None`
 * for NULL, `Some(b)` for a block whose data begins at address `b`. One call
 * may call `malloc` twice (the first block, then a second one if the first
 * cannot hold the padded request), so `Alloc` takes two such results.
 */
module ArenaSpec {
  import opened Options
  import opened Align

  datatype BlockState = BlockState(base: nat, capacity: nat, index: nat)

  datatype ArenaState = ArenaState(blocks: seq<BlockState>, cur: nat, defaultBlockSize: nat)

  /** What an allocation returns: the new arena and the pointer (None for NULL). */
  datatype Allocation = Allocation(state: ArenaState, ptr: Option<nat>)

  /** An arena that arena_init can produce and that the operations keep. */
  predicate WellFormed(s: ArenaState)
  {
    && s.defaultBlockSize > 0
    && (if s.blocks == [] then s.cur == 0 else s.cur < |s.blocks|)
  }

  /** No block's cursor is past the end of its data region. */
  predicate InBounds(s: ArenaState)
  {
    forall i :: 0 <= i < |s.blocks| ==> s.blocks[i].index <= s.blocks[i].capacity
  }

  /** A malloc result that, when it is a block, starts at a multiple of `alignment`. */
  predicate AlignedBase(m: Option<nat>, alignment: nat)
  {
    m.Some? && alignment > 0 ==> Aligned(m.value, alignment)
  }

  /** The arguments that arena_alloc accepts: a non-zero size and a power-of-two alignment. */
  predicate ValidRequest(size: nat, alignment: nat): (b: bool)
    ensures b <==> size > 0 && IsPowerOfTwo(alignment)
  {
    size != 0 && alignment != 0 && PassesPowerOfTwoTest(alignment)
  }

  /** The capacity of a block created for a request: the larger of the request and the default. */
  function BlockSizeFor(size: nat, defaultBlockSize: nat): (capacity: nat)
    ensures capacity >= size && capacity >= defaultBlockSize
    ensures capacity == size || capacity == defaultBlockSize
  {
    if size > defaultBlockSize then size else defaultBlockSize
  }

  /** arena_alloc on a non-NULL arena. */
  function Alloc(s: ArenaState, size: nat, alignment: nat, m1: Option<nat>, m2: Option<nat>): (r: Allocation)
    requires WellFormed(s)
    ensures WellFormed(r.state) && r.state.defaultBlockSize == s.defaultBlockSize
  {
    if !ValidRequest(size, alignment) then Allocation(s, None)
    else if s.blocks == [] then
      if m1.None? then Allocation(s, None)
      else
        var first := BlockState(m1.value, BlockSizeFor(size, s.defaultBlockSize), 0);
        Bump(ArenaState([first], 0, s.defaultBlockSize), size, alignment, m2)
    else Bump(s, size, alignment, m1)
  }

  /** `current->index += n`. */
  function Advance(s: ArenaState, n: nat): (r: ArenaState)
    requires WellFormed(s) && s.blocks != []
    ensures WellFormed(r) && r.blocks != [] && r.cur == s.cur && |r.blocks| == |s.blocks|
  {
    var b := s.blocks[s.cur];
    s.(blocks := s.blocks[s.cur := b.(index := b.index + n)])
  }

  /** `current->next = new_block; current = new_block;` for a fresh, empty block. */
  function Link(s: ArenaState, base: nat, capacity: nat): (r: ArenaState)
    requires WellFormed(s) && s.blocks != []
    ensures WellFormed(r) && r.blocks != [] && r.cur == s.cur + 1
  {
    ArenaState(s.blocks[..s.cur + 1] + [BlockState(base, capacity, 0)], s.cur + 1, s.defaultBlockSize)
  }

  /**
   * The part of arena_alloc after the first block exists: pad and bump the
   * current block, or link a fresh block after it and bump that one. On the
   * fresh block the padding is recomputed but not compared with its
   * capacity.
   */
  function Bump(s: ArenaState, size: nat, alignment: nat, m: Option<nat>): (r: Allocation)
    requires WellFormed(s) && s.blocks != [] && alignment > 0
    ensures WellFormed(r.state) && r.state.defaultBlockSize == s.defaultBlockSize
  {
    var b := s.blocks[s.cur];
    var padding := AlignUp(b.base + b.index, alignment);
    if b.index + padding + size > b.capacity then
      if m.None? then Allocation(s, None)
      else
        var linked := Link(s, m.value, BlockSizeFor(size, s.defaultBlockSize));
        var padding' := AlignUp(m.value, alignment);
        Allocation(Advance(Advance(linked, padding'), size), Some(m.value + padding'))
    else
      Allocation(Advance(Advance(s, padding), size), Some(b.base + b.index + padding))
  }

  /** The chain walk of arena_reset: every cursor back to zero, nothing else changed. */
  function Rewind(blocks: seq<BlockState>): (r: seq<BlockState>)
    ensures |r| == |blocks|
    ensures forall i :: 0 <= i < |blocks| ==>
      r[i].index == 0 && r[i].base == blocks[i].base && r[i].capacity == blocks[i].capacity
  {
    seq(|blocks|, i requires 0 <= i < |blocks| => blocks[i].(index := 0))
  }

  /** arena_reset on a non-NULL arena. */
  function Reset(s: ArenaState): (r: ArenaState)
    requires WellFormed(s)
    ensures WellFormed(r) && InBounds(r)
  {
    ArenaState(Rewind(s.blocks), 0, s.defaultBlockSize)
  }

  // ---------------------------------------------------------------------------
  // Properties of Alloc
  // ---------------------------------------------------------------------------

  /** A zero size, a zero alignment or one that is not a power of two yields NULL and no change. */
  lemma AllocRejectsInvalidArguments(s: ArenaState, size: nat, alignment: nat, m1: Option<nat>, m2: Option<nat>)
    requires WellFormed(s)
    requires size == 0 || alignment == 0 || !IsPowerOfTwo(alignment)
    ensures Alloc(s, size, alignment, m1, m2) == Allocation(s, None)
  {
  }

  /** With valid arguments and every malloc succeeding, an allocation returns a pointer. */
  lemma AllocSucceeds(s: ArenaState, size: nat, alignment: nat, m1: Option<nat>, m2: Option<nat>)
    requires WellFormed(s)
    requires size > 0 && IsPowerOfTwo(alignment)
    requires m1.Some? && m2.Some?
    ensures Alloc(s, size, alignment, m1, m2).ptr.Some?
  {
  }

  /**
   * A NULL from the first malloc the call makes yields NULL and no change:
   * on an empty arena that is the malloc for the first block, otherwise the
   * one for a fresh block.
   */
  lemma AllocOutOfMemory(s: ArenaState, size: nat, alignment: nat, m2: Option<nat>)
    requires WellFormed(s)
    requires size > 0 && IsPowerOfTwo(alignment)
    requires s.blocks != [] ==>
      var b := s.blocks[s.cur];
      b.index + AlignUp(b.base + b.index, alignment) + size > b.capacity
    ensures Alloc(s, size, alignment, None, m2) == Allocation(s, None)
  {
  }

  /**
   * The exception to "NULL means no change": on an empty arena whose first
   * block cannot hold the padded request, the first block is already head
   * and current when the malloc for the second block fails. arena_alloc
   * returns NULL and the arena keeps that one unused block.
   */
  lemma AllocFirstBlockThenOutOfMemory(s: ArenaState, size: nat, alignment: nat, base: nat)
    requires WellFormed(s) && s.blocks == []
    requires size > 0 && IsPowerOfTwo(alignment)
    requires AlignUp(base, alignment) + size > BlockSizeFor(size, s.defaultBlockSize)
    ensures Alloc(s, size, alignment, Some(base), None)
      == Allocation(ArenaState([BlockState(base, BlockSizeFor(size, s.defaultBlockSize), 0)], 0, s.defaultBlockSize), None)
  {
  }

  /**
   * The first allocation on an empty arena creates one block of capacity
   * max(size, default_block_size) that is both head and current, provided
   * the padded request fits in it (it always does when the block's base is
   * aligned).
   */
  lemma AllocFirstBlock(s: ArenaState, size: nat, alignment: nat, base: nat, m2: Option<nat>)
    requires WellFormed(s) && s.blocks == []
    requires size > 0 && IsPowerOfTwo(alignment)
    requires AlignUp(base, alignment) + size <= BlockSizeFor(size, s.defaultBlockSize)
    ensures var r := Alloc(s, size, alignment, Some(base), m2);
      var padding := AlignUp(base, alignment);
      && r.state.blocks == [BlockState(base, BlockSizeFor(size, s.defaultBlockSize), padding + size)]
      && r.state.cur == 0
      && r.ptr == Some(base + padding)
  {
  }

  /**
   * A request that fits in the current block bumps only that block's cursor,
   * by exactly padding + size, and the returned range starts at or after the
   * end of the previous allocation and lies inside the block. No aligned
   * address is skipped: the result is the first one at or after the cursor.
   */
  lemma AllocFitsInCurrent(s: ArenaState, size: nat, alignment: nat, m1: Option<nat>, m2: Option<nat>)
    requires WellFormed(s) && s.blocks != []
    requires size > 0 && IsPowerOfTwo(alignment)
    requires var b := s.blocks[s.cur];
      b.index + AlignUp(b.base + b.index, alignment) + size <= b.capacity
    ensures var r := Alloc(s, size, alignment, m1, m2);
      var b := s.blocks[s.cur];
      var padding := AlignUp(b.base + b.index, alignment);
      && |r.state.blocks| == |s.blocks| && r.state.cur == s.cur
      && (forall i :: 0 <= i < |s.blocks| && i != s.cur ==> r.state.blocks[i] == s.blocks[i])
      && r.state.blocks[s.cur] == b.(index := b.index + padding + size)
      && r.state.blocks[s.cur].index <= b.capacity
      && r.ptr == Some(b.base + b.index + padding)
      && b.base + b.index <= r.ptr.value
      && r.ptr.value + size <= b.base + b.capacity
      && (forall x :: b.base + b.index <= x < r.ptr.value ==> !Aligned(x, alignment))
  {
    var b := s.blocks[s.cur];
    AlignUpLeast(b.base + b.index, alignment);
  }

  /**
   * A request that does not fit links exactly one fresh block of capacity
   * max(size, default_block_size) after the current block and makes it
   * current; head and the blocks up to the old current are unchanged.
   * Whatever followed the old current is no longer in the chain.
   */
  lemma AllocGrowsChain(s: ArenaState, size: nat, alignment: nat, base: nat, m2: Option<nat>)
    requires WellFormed(s) && s.blocks != []
    requires size > 0 && IsPowerOfTwo(alignment)
    requires var b := s.blocks[s.cur];
      b.index + AlignUp(b.base + b.index, alignment) + size > b.capacity
    ensures var r := Alloc(s, size, alignment, Some(base), m2);
      var padding := AlignUp(base, alignment);
      && r.state.blocks == s.blocks[..s.cur + 1] + [BlockState(base, BlockSizeFor(size, s.defaultBlockSize), padding + size)]
      && r.state.cur == s.cur + 1
      && r.state.blocks[0] == s.blocks[0]
      && r.ptr == Some(base + padding)
  {
  }

  /** Every pointer that arena_alloc returns is a multiple of the alignment, on every path. */
  lemma AllocResultAligned(s: ArenaState, size: nat, alignment: nat, m1: Option<nat>, m2: Option<nat>)
    requires WellFormed(s)
    ensures var r := Alloc(s, size, alignment, m1, m2);
      r.ptr.Some? ==> alignment > 0 && Aligned(r.ptr.value, alignment)
  {
  }

  /**
   * Cursors stay within capacity when every block malloc hands out starts
   * at a multiple of the alignment: then a fresh block needs no padding.
   * Without that assumption the bound fails (FreshBlockPaddingOverflow).
   */
  lemma AllocPreservesInBounds(s: ArenaState, size: nat, alignment: nat, m1: Option<nat>, m2: Option<nat>)
    requires WellFormed(s) && InBounds(s)
    requires AlignedBase(m1, alignment) && AlignedBase(m2, alignment)
    ensures InBounds(Alloc(s, size, alignment, m1, m2).state)
  {
  }

  lemma PowersOfTwoUpTo16()
    ensures IsPowerOfTwo(1) && IsPowerOfTwo(2) && IsPowerOfTwo(4) && IsPowerOfTwo(8) && IsPowerOfTwo(16)
  {
  }

  /**
   * The unchecked padding on a fresh block: with default_block_size 16, a
   * 16-byte request aligned to 16 on an empty arena whose blocks start 8
   * bytes past a multiple of 16 (a 16-aligned malloc result followed by the
   * 24-byte block header) first creates a block it cannot use, then a second
   * block whose cursor ends 8 bytes past its capacity.
   */
  lemma FreshBlockPaddingOverflow()
    ensures var r := Alloc(ArenaState([], 0, 16), 16, 16, Some(4120), Some(8216));
      && r.state.blocks == [BlockState(4120, 16, 0), BlockState(8216, 16, 24)]
      && r.state.cur == 1
      && r.ptr == Some(8224)
      && !InBounds(r.state)
  {
    PowersOfTwoUpTo16();
    assert AlignUp(4120, 16) == 8;
    assert AlignUp(8216, 16) == 8;
    var r := Alloc(ArenaState([], 0, 16), 16, 16, Some(4120), Some(8216));
    assert r.state.blocks[1].index > r.state.blocks[1].capacity;
  }

  // ---------------------------------------------------------------------------
  // Properties of Reset
  // ---------------------------------------------------------------------------

  /** Reset keeps every block, with its base and capacity, and rewinds all cursors. */
  lemma ResetKeepsBlocks(s: ArenaState)
    requires WellFormed(s)
    ensures var r := Reset(s);
      && |r.blocks| == |s.blocks| && r.cur == 0 && r.defaultBlockSize == s.defaultBlockSize
      && (forall i :: 0 <= i < |s.blocks| ==> r.blocks[i] == s.blocks[i].(index := 0))
  {
  }

  /**
   * After a reset, the first allocation that fits in the head returns the
   * address a fresh arena would return for the same request if malloc
   * handed it the head's memory: memory is reused, not acquired again.
   */
  lemma ResetReusesHead(s: ArenaState, size: nat, alignment: nat, m1: Option<nat>, m2: Option<nat>, m2': Option<nat>)
    requires WellFormed(s) && s.blocks != []
    requires size > 0 && IsPowerOfTwo(alignment)
    requires var h := s.blocks[0];
      && AlignUp(h.base, alignment) + size <= h.capacity
      && AlignUp(h.base, alignment) + size <= BlockSizeFor(size, s.defaultBlockSize)
    ensures var h := s.blocks[0];
      && Alloc(Reset(s), size, alignment, m1, m2).ptr == Some(h.base + AlignUp(h.base, alignment))
      && Alloc(ArenaState([], 0, s.defaultBlockSize), size, alignment, Some(h.base), m2').ptr
         == Some(h.base + AlignUp(h.base, alignment))
  {
    PowerOfTwoTestCorrect(alignment);
    ResetKeepsBlocks(s);
  }

  /**
   * A reset arena loses the rest of its chain: after arena_reset makes head
   * current again, a request that does not fit in the head links a fresh
   * block as head's successor, so the chain has two blocks however long it
   * was: after a reset the chain can get shorter.
   */
  lemma ResetThenGrowDropsTail(s: ArenaState, size: nat, alignment: nat, base: nat, m2: Option<nat>)
    requires WellFormed(s) && |s.blocks| >= 2
    requires size > 0 && IsPowerOfTwo(alignment)
    requires var h := s.blocks[0]; AlignUp(h.base, alignment) + size > h.capacity
    ensures var r := Alloc(Reset(s), size, alignment, Some(base), m2);
      && |r.state.blocks| == 2 <= |s.blocks|
      && r.state.blocks[0] == s.blocks[0].(index := 0)
      && r.state.blocks[1].base == base
      && r.state.cur == 1
  {
    ResetKeepsBlocks(s);
    AllocGrowsChain(Reset(s), size, alignment, base, m2);
  }
}
