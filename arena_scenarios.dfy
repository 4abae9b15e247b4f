/**
 * Runs of the arena modelled on the uses in test.c, plus two runs no test
 * makes: a call with alignment 3, for the power-of-two check of
 * arena.h:187-189, and a request after a reset that does not fit in head,
 * which drops the rest of the chain (arena.h:229 and 253). malloc is taken
 * to hand out blocks whose data begins at 4096, 8192, 12288, ... in that
 * order.
 * Each run is traced on the value model first (a lemma), then replayed on
 * the objects (a method).
 */
module ArenaScenarios {
  import opened Options
  import Arenas
  import opened ArenaSpec

  /**
   * arena_init refuses a zero default block size (test.c:28-31); arena_alloc
   * refuses a NULL arena (test.c:33-36), a zero size (test.c:38-46) and an
   * alignment of 3 (arena.h:187-189), and creates no block for them.
   */
  method RejectedCalls() returns (zeroInit: Arenas.Arena?, nullAlloc: Option<nat>, zeroAlloc: Option<nat>,
                                  oddAlloc: Option<nat>, noBlock: bool)
    ensures zeroInit == null && nullAlloc == None && zeroAlloc == None && oddAlloc == None && noBlock
  {
    zeroInit := Arenas.Init(0, true);
    nullAlloc := Arenas.Alloc(null, 100, 8, Some(4096), None);
    var arena := Arenas.Init(1024, true);
    zeroAlloc := Arenas.Alloc(arena, 0, 8, Some(4096), None);
    oddAlloc := Arenas.Alloc(arena, 10, 3, Some(4096), None);
    noBlock := arena.head == null && arena.current == null;
  }

  /**
   * 100, 200 and 150 bytes aligned to 8 in a 1024-byte arena: all three in
   * the first block, the second padded from 4196 to 4200.
   */
  lemma SameBlockTrace()
    ensures Alloc(ArenaState([], 0, 1024), 100, 8, Some(4096), None)
      == Allocation(ArenaState([BlockState(4096, 1024, 100)], 0, 1024), Some(4096))
    ensures Alloc(ArenaState([BlockState(4096, 1024, 100)], 0, 1024), 200, 8, None, None)
      == Allocation(ArenaState([BlockState(4096, 1024, 304)], 0, 1024), Some(4200))
    ensures Alloc(ArenaState([BlockState(4096, 1024, 304)], 0, 1024), 150, 8, None, None)
      == Allocation(ArenaState([BlockState(4096, 1024, 454)], 0, 1024), Some(4400))
  {
  }

  method SameBlock() returns (p1: Option<nat>, p2: Option<nat>, p3: Option<nat>, index: nat, sameBlock: bool)
    ensures p1 == Some(4096) && p2 == Some(4200) && p3 == Some(4400)
    ensures index == 454 && sameBlock
  {
    SameBlockTrace();
    var arena := Arenas.Init(1024, true);
    p1 := Arenas.Alloc(arena, 100, 8, Some(4096), None);
    p2 := Arenas.Alloc(arena, 200, 8, None, None);
    p3 := Arenas.Alloc(arena, 150, 8, None, None);
    sameBlock := arena.head == arena.current;
    index := arena.current.index;
  }

  /** A request larger than the default gets a block of its own size. */
  lemma LargerThanDefaultTrace()
    ensures Alloc(ArenaState([], 0, 512), 1024, 8, Some(4096), None)
      == Allocation(ArenaState([BlockState(4096, 1024, 1024)], 0, 512), Some(4096))
  {
  }

  method LargerThanDefault() returns (p: Option<nat>, capacity: nat)
    ensures p == Some(4096) && capacity == 1024
  {
    LargerThanDefaultTrace();
    var arena := Arenas.Init(512, true);
    p := Arenas.Alloc(arena, 1024, 8, Some(4096), None);
    capacity := arena.current.capacity;
  }

  /** Two 400-byte requests in a 512-byte arena need a second block. */
  lemma MultipleBlocksTrace()
    ensures Alloc(ArenaState([], 0, 512), 400, 8, Some(4096), None)
      == Allocation(ArenaState([BlockState(4096, 512, 400)], 0, 512), Some(4096))
    ensures Alloc(ArenaState([BlockState(4096, 512, 400)], 0, 512), 400, 8, Some(8192), None)
      == Allocation(ArenaState([BlockState(4096, 512, 400), BlockState(8192, 512, 400)], 1, 512), Some(8192))
  {
  }

  /** The run of MultipleBlocksTrace on the objects. */
  method BuildTwoBlocks() returns (arena: Arenas.Arena, p1: Option<nat>, p2: Option<nat>)
    ensures fresh(arena) && fresh(arena.Owned) && arena.Valid()
    ensures arena.State() == ArenaState([BlockState(4096, 512, 400), BlockState(8192, 512, 400)], 1, 512)
    ensures p1 == Some(4096) && p2 == Some(8192)
  {
    MultipleBlocksTrace();
    arena := Arenas.Init(512, true);
    p1 := Arenas.Alloc(arena, 400, 8, Some(4096), None);
    p2 := Arenas.Alloc(arena, 400, 8, Some(8192), None);
  }

  /** The second block is head's successor and current. */
  method MultipleBlocks() returns (p1: Option<nat>, p2: Option<nat>, linked: bool)
    ensures p1 == Some(4096) && p2 == Some(8192) && linked
  {
    var arena;
    arena, p1, p2 := BuildTwoBlocks();
    linked := arena.head.next == arena.current;
  }

  /** After a reset both cursors are 0 and a 100-byte request reuses the first block. */
  lemma ResetReusesTrace()
    ensures Reset(ArenaState([BlockState(4096, 512, 400), BlockState(8192, 512, 400)], 1, 512))
      == ArenaState([BlockState(4096, 512, 0), BlockState(8192, 512, 0)], 0, 512)
    ensures Alloc(ArenaState([BlockState(4096, 512, 0), BlockState(8192, 512, 0)], 0, 512), 100, 8, None, None)
      == Allocation(ArenaState([BlockState(4096, 512, 100), BlockState(8192, 512, 0)], 0, 512), Some(4096))
  {
  }

  method ResetReuses() returns (headIndex: nat, nextIndex: nat, headIsCurrent: bool, p3: Option<nat>)
    ensures headIndex == 0 && nextIndex == 0 && headIsCurrent && p3 == Some(4096)
  {
    ResetReusesTrace();
    var arena, p1, p2 := BuildTwoBlocks();
    Arenas.Reset(arena);
    headIndex := arena.head.index;
    nextIndex := arena.head.next.index;
    headIsCurrent := arena.head == arena.current;
    p3 := Arenas.Alloc(arena, 100, 8, None, None);
  }

  /** Three 200-byte requests in a 256-byte arena build a chain of three blocks. */
  lemma ThreeBlocksTrace()
    ensures Alloc(ArenaState([], 0, 256), 200, 8, Some(4096), None)
      == Allocation(ArenaState([BlockState(4096, 256, 200)], 0, 256), Some(4096))
    ensures Alloc(ArenaState([BlockState(4096, 256, 200)], 0, 256), 200, 8, Some(8192), None)
      == Allocation(ArenaState([BlockState(4096, 256, 200), BlockState(8192, 256, 200)], 1, 256), Some(8192))
    ensures Alloc(ArenaState([BlockState(4096, 256, 200), BlockState(8192, 256, 200)], 1, 256), 200, 8, Some(12288), None)
      == Allocation(ArenaState([BlockState(4096, 256, 200), BlockState(8192, 256, 200), BlockState(12288, 256, 200)], 2, 256), Some(12288))
  {
  }

  /**
   * After a reset of those three blocks, a 300-byte request links a fresh
   * block as head's successor, and the chain is two blocks long.
   */
  lemma ResetThenGrowTrace()
    ensures Reset(ArenaState([BlockState(4096, 256, 200), BlockState(8192, 256, 200), BlockState(12288, 256, 200)], 2, 256))
      == ArenaState([BlockState(4096, 256, 0), BlockState(8192, 256, 0), BlockState(12288, 256, 0)], 0, 256)
    ensures Alloc(ArenaState([BlockState(4096, 256, 0), BlockState(8192, 256, 0), BlockState(12288, 256, 0)], 0, 256), 300, 8, Some(16384), None)
      == Allocation(ArenaState([BlockState(4096, 256, 0), BlockState(16384, 300, 300)], 1, 256), Some(16384))
  {
  }

  /** The run of ThreeBlocksTrace on the objects. */
  method BuildThreeBlocks() returns (arena: Arenas.Arena)
    ensures fresh(arena) && fresh(arena.Owned) && arena.Valid()
    ensures arena.State() == ArenaState([BlockState(4096, 256, 200), BlockState(8192, 256, 200), BlockState(12288, 256, 200)], 2, 256)
  {
    ThreeBlocksTrace();
    arena := Arenas.Init(256, true);
    var p1 := Arenas.Alloc(arena, 200, 8, Some(4096), None);
    assert arena.State() == ArenaState([BlockState(4096, 256, 200)], 0, 256);
    var p2 := Arenas.Alloc(arena, 200, 8, Some(8192), None);
    assert arena.State() == ArenaState([BlockState(4096, 256, 200), BlockState(8192, 256, 200)], 1, 256);
    var p3 := Arenas.Alloc(arena, 200, 8, Some(12288), None);
  }

  /** head, head->next and head->next->next exist, and the chain ends there. */
  method ThreeBlocks(arena: Arenas.Arena) returns (b: bool)
    requires arena.Valid()
    ensures b <==> |arena.chain| == 3
  {
    b := arena.head != null && arena.head.next != null && arena.head.next.next != null
      && arena.head.next.next.next == null;
  }

  /**
   * The run of ResetThenGrowTrace on the objects. A reset keeps all three
   * blocks, but after the 300-byte request arena_free walks only two: the
   * blocks at 8192 and 12288, which malloc handed out, are unreachable.
   */
  method ResetThenGrowLosesBlocks() returns (threeBefore: bool, threeAfterReset: bool, cursors: seq<nat>,
                                             headIsCurrent: bool, released: seq<Arenas.Block>)
    ensures threeBefore && threeAfterReset && cursors == [0, 0, 0] && headIsCurrent && |released| == 2
  {
    ResetThenGrowTrace();
    var arena := BuildThreeBlocks();
    threeBefore := ThreeBlocks(arena);
    Arenas.Reset(arena);
    threeAfterReset := ThreeBlocks(arena);
    cursors := [arena.head.index, arena.head.next.index, arena.head.next.next.index];
    headIsCurrent := arena.current == arena.head;
    var p4 := Arenas.Alloc(arena, 300, 8, Some(16384), None);
    released := Arenas.Free(arena);
  }
}
