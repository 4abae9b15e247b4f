# Arena allocator and growable pointer array, in Dafny

This project models two small single-header C libraries and proves properties of the model.

- **arena.h** is a bump-pointer arena allocator. An `Arena` owns a singly linked chain of `ArenaBlock`s from `head`. `current` is the block serving requests and `default_block_size` is the minimum block size. Each block has a fixed `capacity`, a write cursor `index` and a data region. `arena_alloc` validates its arguments and creates the first block lazily. It pads the cursor to the requested alignment with `align_up`, then either bumps `current` or links a fresh block of `max(size, default_block_size)` bytes after it. `arena_reset` rewinds every cursor and makes `head` current again. `arena_free` walks the chain, releasing each block.
- **arrayd.h** is a growable array of `void *`. It keeps a buffer `data`, its capacity `length` and the element count `index`. Appending doubles the buffer when full. `put_at` overwrites a slot, and `remove_at` shifts the tail left with `memmove`. Integer-typed macros store integers in the pointer slots through `intptr_t`.

Layout:

- `option.dfy`: the `Option` type.
- `align.dfy` (module `Align`): the power-of-two bit test and `align_up`.
- `arena_spec.dfy` (module `ArenaSpec`): a value model of the arena. `ArenaState` holds the chain as a sequence of `BlockState(base, capacity, index)`, the position of `current` and the default block size. `Alloc` and `Reset` are pure functions and the lemmas state the allocator's properties.
- `arena.dfy` (module `Arenas`): the arena on the heap.
  - `Block` and `Arena` are classes with mutable `next`, `index`, `head` and `current`.
  - `arena_init`, `arena_alloc`, `arena_reset` and the walk of `arena_free` are methods. `arena_reset` and `arena_free` follow the chain with a `while` loop, as the C code does.
  - `Init`, `Alloc` and `Reset` are proved against `ArenaSpec`. The abstraction is `Arena.State()`, which `Arena.Valid()` couples to the linked blocks.
  - `Free` is proved against the ghost field `chain`, the blocks reachable from `head` in link order.
- `arrayd.dfy` (module `PointerArray`): the class `Arrayd` over an `array` of 64-bit words. Every operation is specified against the sequence `Elements()` = `data[0..index]`. The module also holds the integer macros.
- `arena_scenarios.dfy` and `arrayd_scenarios.dfy`: the runs of `test.c` and `test_arrayd.c`, with concrete results, plus three runs no test makes: an alignment of 3, a request after a reset that does not fit in head, and chars outside the range of `char`.

Addresses are natural numbers:
- A block's data region starts at `base`.
- A returned pointer is `base + index` after padding.

What `malloc` returns is an input to `arena_alloc`: `None` for NULL, `Some(b)` for a block whose data starts at `b`. A call can make two `malloc` calls: the first block, then a fresh block if the padded request does not fit. So `Alloc` takes two such inputs. `calloc` in `arena_init` is a boolean input.

The code falls short of what its own comments and layout lead one to expect in three places. The model follows the code:
- **Cursor bound.** arena.h:124-128 describes `index` as the write position inside the block's `data` region of `capacity` bytes, so one expects `index <= capacity`. The code does not keep it: on the fresh-block path the recomputed padding is never checked against the new block's capacity. `ArenaSpec.FreshBlockPaddingOverflow` exhibits a cursor 8 bytes past capacity. `ArenaSpec.AllocPreservesInBounds` proves the bound when every block `malloc` returns starts at a multiple of the alignment.
- **Blocks kept by a reset.** arena.h:94-96 says that after `arena_reset` all blocks remain allocated. After the reset makes `head` current, a request that does not fit in `head` overwrites `head->next`, and the rest of the old chain leaves the chain (`ArenaSpec.ResetThenGrowDropsTail`).
- **Memory released by `arena_free`.** arena.h:80-81 says allocations return no memory to the system until `arena_free()`, and arena.h:107-110 says `arena_free` frees all blocks. After such a reset-and-grow, `arena_free` cannot reach the dropped blocks, so they are never freed (`ArenaScenarios.ResetThenGrowLosesBlocks`).

A NULL result from `arena_alloc` usually leaves the arena as it was (`ArenaSpec.AllocOutOfMemory`). There is one exception: an empty arena whose first block cannot hold the padded request. The first block is already head and current (arena.h:205) when the `malloc` for the second block fails and arena.h:222-223 return NULL, so the arena keeps that unused block (`ArenaSpec.AllocFirstBlockThenOutOfMemory`).

## Model

| member | source | states |
|---|---|---|
| Align.BitAnd | arena.h:188-188 | the bitwise AND of two naturals is at most each of them |
| Align.PowerOfTwoTestCorrect | arena.h:187-189 | `alignment & (alignment - 1) == 0` holds exactly when the alignment is a power of two, in both directions |
| Align.PassesPowerOfTwoTest | arena.h:188-189 | the test `alignment & (alignment - 1)` is zero exactly when the alignment is a power of two |
| Align.AlignUp | arena.h:151-169 | the padding is below the alignment, makes `ptr + padding` aligned, and is 0 when `ptr` is already aligned |
| Align.AlignUpLeast | arena.h:151-169 | no address from `ptr` up to `ptr + padding` is aligned, so the padding is the least one |
| ArenaSpec.ValidRequest | arena.h:184-189 | the arguments arena_alloc accepts are exactly a non-zero size with a power-of-two alignment |
| ArenaSpec.BlockSizeFor | arena.h:193-194 | a new block's capacity is at least the request and the default, and equals one of them |
| ArenaSpec.Alloc | arena.h:183-242 | arena_alloc on a non-NULL arena keeps the arena well formed and its default block size |
| ArenaSpec.Advance | arena.h:237-239 | advancing the cursor of `current` keeps the chain length and the position of `current` |
| ArenaSpec.Link | arena.h:229-230 | linking a fresh block after `current` makes it current, one position further on |
| ArenaSpec.Bump | arena.h:208-241 | the part of arena_alloc after the first block exists keeps the arena well formed |
| ArenaSpec.Rewind | arena.h:248-252 | every block keeps its base and capacity, and its cursor becomes 0 |
| ArenaSpec.Reset | arena.h:244-254 | a reset arena is well formed and every cursor is within its block's capacity |
| ArenaSpec.AllocRejectsInvalidArguments | arena.h:184-189 | a zero size, a zero alignment or an alignment that is not a power of two gives NULL and leaves the arena unchanged |
| ArenaSpec.AllocSucceeds | arena.h:183-242 | with valid arguments and every malloc succeeding, a pointer is returned |
| ArenaSpec.AllocOutOfMemory | arena.h:196-223 | a NULL from the first malloc the call makes (for the first block on an empty arena, otherwise for a fresh block) gives NULL and leaves the arena unchanged |
| ArenaSpec.AllocFirstBlockThenOutOfMemory | arena.h:192-223 | on an empty arena whose first block cannot hold the padded request, a NULL from the second malloc gives NULL but leaves the first block linked as head and current, with cursor 0 |
| ArenaSpec.AllocFirstBlock | arena.h:192-206 | the first allocation creates a single block of capacity `max(size, default)` that is current, with cursor `padding + size`, and returns `base + padding` |
| ArenaSpec.AllocFitsInCurrent | arena.h:209-241 | a request that fits changes only the current block's cursor, by exactly `padding + size`, and keeps it within capacity; the result lies at or after the old cursor, its range ends inside the block, and no aligned address is skipped |
| ArenaSpec.AllocGrowsChain | arena.h:214-234 | a request that does not fit links exactly one fresh block of capacity `max(size, default)` after `current`, makes it current, keeps head, and returns its base plus padding |
| ArenaSpec.AllocResultAligned | arena.h:209-238 | every returned pointer is a multiple of the alignment, on both paths |
| ArenaSpec.AllocPreservesInBounds | arena.h:215-239 | every cursor stays within its capacity when each block malloc returns starts at a multiple of the alignment |
| ArenaSpec.FreshBlockPaddingOverflow | arena.h:232-239 | with blocks whose data starts 8 bytes past a multiple of 16, one request leaves a cursor past its block's capacity |
| ArenaSpec.ResetKeepsBlocks | arena.h:244-254 | reset keeps every block with its base and capacity, sets every cursor to 0 and makes head current |
| ArenaSpec.ResetReusesHead | arena.h:244-254 | after a reset, a request that fits in head returns the address a fresh arena returns when malloc hands it head's memory |
| ArenaSpec.ResetThenGrowDropsTail | arena.h:229-253 | after a reset, a request that does not fit in head leaves a chain of exactly two blocks, however long it was |
| Arenas.Block.constructor | arena.h:201-203 | a block starts with the given capacity and base, cursor 0 and no successor |
| Arenas.Arena.constructor | arena.h:175-179 | an arena starts with no blocks and the given default block size |
| Arenas.Init | arena.h:171-181 | arena_init returns NULL for a zero size or a failed calloc, and otherwise an arena with `head == current == NULL` and the given default block size |
| Arenas.AddFirstBlock | arena.h:192-206 | a newly allocated first block becomes both head and current, with cursor 0 |
| Arenas.NewBlock | arena.h:220-227 | a fresh block with the given capacity and base, cursor 0 and no successor |
| Arenas.LinkFreshBlock | arena.h:229-230 | `current->next = new_block; current = new_block` leaves head and the blocks up to the old current unchanged, and matches `ArenaSpec.Link` |
| Arenas.Advance | arena.h:237-239 | `current->index += n`, matching `ArenaSpec.Advance` |
| Arenas.BumpCurrent | arena.h:236-241 | returns the old cursor address plus padding and advances the cursor by padding and then size |
| Arenas.Grow | arena.h:217-233 | creates a newly allocated block and links it after current, matching `ArenaSpec.Link` |
| Arenas.Place | arena.h:208-241 | pointer and new state are those of `ArenaSpec.Bump`; head is unchanged; the chain is unchanged or is cut after the old current and extended by the new current; a block that becomes current is newly allocated; blocks a reset-and-grow dropped keep their cursor and link |
| Arenas.Alloc | arena.h:183-242 | NULL for a NULL arena; otherwise the pointer and new state are those of `ArenaSpec.Alloc`, the chain is unchanged or extended after the old current, and head is unchanged once it exists; a block that becomes current, or head where there was none, is newly allocated; blocks a reset-and-grow dropped keep their cursor and link |
| Arenas.AllocFirst | arena.h:192-241 | on an arena without blocks, pointer and new state are those of `ArenaSpec.Alloc`; head and current are newly allocated and every block the arena owned before keeps its cursor and link |
| Arenas.RewindChain | arena.h:248-252 | the loop sets the cursor of every block reachable from head to 0 and leaves every other block's cursor unchanged |
| Arenas.Reset | arena.h:244-254 | the new state is `ArenaSpec.Reset` of the old; head, links and blocks are unchanged and current is head; blocks a reset-and-grow dropped keep their cursor |
| Arenas.ResetBlocks | arena.h:248-253 | on a non-NULL arena: the same new state, chain, head and current as `Arenas.Reset`, with the same frame on dropped blocks |
| Arenas.Free | arena.h:256-267 | the walk visits exactly the blocks reachable from head in link order, each once; nothing for a NULL arena |
| PointerArray.Arrayd.constructor | arrayd.h:128-140 | a new array has no elements and capacity `initial_length` |
| PointerArray.Arrayd.Append | arrayd.h:142-157 | the elements become the old ones followed by `d`; the capacity doubles exactly when it was full, with the old slots kept, and is otherwise unchanged; `index <= length` is kept |
| PointerArray.Arrayd.PutAt | arrayd.h:159-166 | only element i changes, to `d`, the count is unchanged, and the result is 0 |
| PointerArray.Arrayd.RemoveAt | arrayd.h:168-176 | the elements become `old[..i] + old[i+1..]`; buffer and capacity are unchanged |
| PointerArray.Arrayd.Get | arrayd.h:191-197 | returns the i-th element in append order |
| PointerArray.Arrayd.Count | arrayd.h:178-181 | returns the number of elements and changes nothing |
| PointerArray.Convert | arrayd.h:13-40 | the cast `(type)v`: in the type's range, congruent to v modulo 2^bits, and v itself when v fits |
| PointerArray.Encode | arrayd.h:13-40 | what a typed append or put macro stores lies in the range of its type |
| PointerArray.StoredValueReadsBack | arrayd.h:42-67 | a value stored and read through macros of one kind reads back as the value cast to that type, which is the value itself when it fits |
| PointerArray.AppendTyped | arrayd.h:13-40 | a typed append adds the encoded value after the elements, with the capacity rule of append |
| PointerArray.PutTyped | arrayd.h:71-98 | a typed put replaces only element i, by the encoded value, and returns 0 |
| PointerArray.GetTyped | arrayd.h:42-67 | a typed get returns element i cast to the type, within the range of the type |
| ArenaScenarios.RejectedCalls | arena.h:171-189 | `arena_init(0)` is NULL; alloc on a NULL arena, with size 0 (the calls of test.c:28-46) or with alignment 3 (a call no test makes) is NULL and creates no block |
| ArenaScenarios.SameBlockTrace | test.c:63-78 | 100, 200 and 150 bytes at alignment 8 in a 1024-byte arena share one block, at 4096, 4200 and 4400, ending at cursor 454 |
| ArenaScenarios.SameBlock | test.c:63-78 | the same run on the objects: head is current and the cursor is 454 |
| ArenaScenarios.LargerThanDefaultTrace | test.c:80-90 | a 1024-byte request in a 512-byte arena gets a 1024-byte block |
| ArenaScenarios.LargerThanDefault | test.c:80-90 | the same run on the objects: current has capacity 1024 |
| ArenaScenarios.MultipleBlocksTrace | test.c:92-107 | two 400-byte requests in a 512-byte arena use two blocks |
| ArenaScenarios.BuildTwoBlocks | test.c:92-100 | the same run on the objects reaches that state |
| ArenaScenarios.MultipleBlocks | test.c:92-107 | head's successor is current |
| ArenaScenarios.ResetReusesTrace | test.c:153-180 | a reset rewinds both blocks, and a 100-byte request then returns head's base again |
| ArenaScenarios.ResetReuses | test.c:153-180 | on the objects: after a reset both cursors are 0, head is current, and the next request returns 4096 |
| ArenaScenarios.ThreeBlocksTrace | test.c:182-188 | three 200-byte requests in a 256-byte arena build a chain of three blocks |
| ArenaScenarios.BuildThreeBlocks | test.c:182-188 | the same run on the objects reaches that state |
| ArenaScenarios.ThreeBlocks | test.c:194-198 | the walk of that loop only: following `next` from head finds exactly three blocks exactly when the chain has three |
| ArenaScenarios.ResetThenGrowTrace | arena.h:229-253 | after a reset of the three-block chain, a 300-byte request leaves a chain of two blocks |
| ArenaScenarios.ResetThenGrowLosesBlocks | arena.h:244-265 | the chain has three blocks before and after the reset; right after the reset the three cursors are 0 and current is head (the checks of test.c:194-200); the free walk after a non-fitting request visits only two |
| PointerArrayScenarios.FromSeq | test_arrayd.c:67-73 | creating an array and appending each value in turn yields exactly those values |
| PointerArrayScenarios.FromSeqTyped | test_arrayd.c:363-369 | appending each value through a typed macro yields the encoded values in order |
| PointerArrayScenarios.ReadAllTyped | test_arrayd.c:371-376 | reading every index through a typed get macro yields the elements cast to the type, in order |
| PointerArrayScenarios.TypedRoundTrip | test_arrayd.c:363-376 | values appended and read back through macros of one kind come back cast to that type, and unchanged when all of them fit |
| PointerArrayScenarios.AppendWithResize | test_arrayd.c:87-104 | eight appends to an array of capacity 2 keep all eight in order and leave capacity 8 |
| PointerArrayScenarios.AppendNull | test_arrayd.c:107-115 | NULL is stored, counted and read back |
| PointerArrayScenarios.PutAtMiddle | test_arrayd.c:162-179 | put_at of index 1 returns 0 and changes only that element |
| PointerArrayScenarios.RemoveMiddle | test_arrayd.c:204-220 | removing index 2 of 1..5 leaves 1, 2, 4, 5 |
| PointerArrayScenarios.RemoveFirst | test_arrayd.c:223-239 | removing index 0 of 1..3 leaves 2, 3 |
| PointerArrayScenarios.RemoveLast | test_arrayd.c:242-258 | removing index 2 of 1..3 leaves 1, 2 |
| PointerArrayScenarios.IntMacros | test_arrayd.c:363-378 | 42, -100, 0 and INT_MAX read back unchanged |
| PointerArrayScenarios.CharMacros | test_arrayd.c:397-412 | 'A', 'Z', '0' and '\n' read back unchanged |
| PointerArrayScenarios.CharNarrowing | arrayd.h:33-34 | 300 and 200 pass through a signed char and read back as 44 and -56 |
| PointerArrayScenarios.ShortMacros | test_arrayd.c:415-430 | 100, -200, SHRT_MAX and SHRT_MIN read back unchanged |
| PointerArrayScenarios.LongMacros | test_arrayd.c:433-446 | 1000000, -5000000 and 0 read back unchanged |
| PointerArrayScenarios.LongLongMacros | test_arrayd.c:449-462 | LLONG_MAX, -LLONG_MAX and 0 read back unchanged |
| PointerArrayScenarios.PutAtIntMacro | test_arrayd.c:465-479 | put_at_int of index 1 with 99 leaves 10, 99, 30 |

## Left out

- `malloc`, `calloc`, `realloc` and `free` themselves are not modelled. Their outcomes are inputs: a NULL or a fresh base address for each arena block, and a flag for `calloc`. A grown `Arrayd` buffer is a fresh array with the old slots copied. Releasing memory in `arena_free` and `arrayd_clear` is not modelled. `Arenas.Free` returns the blocks it would release, in order.
- `arrayd_clear` is not modelled beyond that, because all it does is free both buffers.
- The asserts of arrayd.h are preconditions: a NULL array or buffer, and an index out of bounds. The aborts on a failed `calloc`, `malloc` or `realloc` in `arrayd_new` and `arrayd_append` are not modelled; the allocation always succeeds in the model.
- Arithmetic is unbounded. The `size_t` wrap-around of `index + padding + size` in `arena_alloc` is not modelled. Neither is the wrap-around of `length * 2` and of the `memmove` size in arrayd.h. Nor is the width of `uintptr_t` addresses.
- Arena addresses are abstract. `base` stands for the address of a block's data region, i.e. the `malloc` result plus the header size. Blocks are not proved to occupy disjoint memory, because that depends on `malloc`.
- The contents of arena memory (what callers write into allocations) are not modelled. Neither are the slots of an `Arrayd` buffer beyond `index`.
- The float and double macros of arrayd.h (union type punning) are not modelled, because they reinterpret floating-point bits.
- The string macros of arrayd.h are not modelled separately. They store a `char *` as a pointer slot, which the model treats as any other word.
- `ARENA_ALIGNOF` is not modelled: it is a compile-time macro with no run-time behaviour.
- Checkpoint and restore are not modelled. arena.h does not implement them.
- The demo programs in `example/` are not part of this model.
- The tests of `test.c` and `test_arrayd.c` (stress loops, complex structs, strings, floats) appear only through the scenario members listed above.
- PointerArray.Convert: `char` is taken to be signed 8 bits, as with GCC and Clang on x86. On a platform with unsigned `char`, the char macros would read back 0..255. `long` and `intptr_t` are taken to be 64 bits (LP64). The `_int` macros cast only to `intptr_t`, so the model does not narrow them to 32 bits.
- ArenaSpec.AllocFirstBlock: stated only when the padded request fits in the first block. Otherwise `arena_alloc` creates a second block at once, as `ArenaSpec.FreshBlockPaddingOverflow` shows.
- ArenaSpec.AllocPreservesInBounds: stated only for block bases aligned to the request, because arena.h does not keep `index <= capacity` otherwise.
