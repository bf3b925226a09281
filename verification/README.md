# Verified models of the server's memory, messaging and identifier core

This Dafny 4.11 project models the parts of the repository whose behaviour depends on state,
interleaving or exact arithmetic, and proves what they promise. Verify all of it with
`dafny verify dfyconfig.toml`.

| module | what it models |
|---|---|
| `ThreadRegistry`, `RegistryWalk`, `Lifecycle` | the lock-free, then mutex-protected table of per-thread arenas, the walks over it, and the lifecycle ids behind the per-thread cache |
| `ArenaMemory`, `CleanupList`, `SerialArena`, `ArenaAlign`, `ArenaGrowth`, `ThreadSafeArena`, `ArenaLife` | the bump allocator: blocks, their growth, string blocks, cleanup chunks, space counters, alignment, Reset and destruction, and whole lives of an arena |
| `Varint`, `WireRecords`, `Messages`, `MessageSize`, `WireForm` | the wire form down to its bytes, MergeFrom, Clear, ByteSizeLong and serialisation of Any, Option, SourceContext, Mixin, Method and Api |
| `ArenaString`, `AnyMessage` | tagged string pointers with their owners, and the has-bits of the string fields of Any |
| `RpcCodec`, `RpcPool`, `RoundRobin` | RPC frames, the server loop, the client's connection pools and instance selection |
| `Actor` | the actor's mailbox, Ask/Tell, stop and drain |
| `Snowflake`, `SymbolIndex` | snowflake identifiers and the descriptor database's symbol index |

Concurrent code (the arena table, connection pools, the actor) is a state machine whose steps are
single atomic accesses or channel operations of one thread or goroutine; theorems range over every
run. Code that updates objects in place is a class, or a method with loops, proved against a
specification function; the theorems are about that function. Memory handed out by allocators,
clock readings, handler results and the choices of a Go `select` are parameters.

Where the code does less than its comments or its neighbours assume, the code is modelled and the
exact condition is proved:

- `AddSymbol` skips the first key of the map when the new name sorts before all of them, so it can
  accept a name that contains an existing one (`SymbolIndex.AddAccepts`, `SymbolIndex.OverlookedConflict`).
- `MaybeAllocateAligned` adds in `uintptr_t`: it means "n bytes are left" exactly when the sum does not
  wrap (`SerialArena.FitsIff`, `SerialArena.WrappedRequestIsAccepted`).
- `Arena::AllocateAligned` pads over-aligned requests without rounding their size; that sizes are
  multiples of 8 is only asserted in debug builds, and the source notes that callers violate it. Such a
  request leaves the bump pointer off its words, a later aligned object can then overlap the next
  allocation, and on a new block the retry can fail and return null (`SerialArena.StepInv`,
  `SerialArena.PaddedIff`, `SerialArena.RetryIff`, `ArenaLife.BrokenWordOverlaps`,
  `ArenaLife.BrokenWordIsRefused`). Teardown, the counters and the strings do not depend on it.
- `SpaceUsed` ignores retired heap string blocks while the head block is the sentry
  (`SerialArena.SpaceUsedExact`, `ArenaLife.SentryUndercounts`).
- An RPC frame whose length does not fit int32 is not read back; past 2^32 bytes its length wraps to a
  small one and the rest is taken for further frames (`RpcCodec.FrameReadsBackIff`).
- An RPC error with an empty text arrives as a success (`RpcCodec.WireRefinesDirectCalls`).
- `Ask` can return (nil, nil) although a value was delivered to it: a response is lost exactly when the
  error channel is closed, an error exactly when the reply channel is, which happens one step earlier
  (`Actor.WaitingAskMayReturnNil`, `Actor.ReplyCanBeLost`, `Actor.ErrorCanBeLost`).
- `Uint64ToInt64` folds values from 2^63 on; the short numeric identifiers collide whenever second
  and low 16 bits agree (`Snowflake.ConversionCollides`, `Snowflake.ShortCollides`).

## Model

| member | source | states |
|---|---|---|
| ThreadRegistry.NextCapacity | infra/google/protobuf/arena.cc:669-693 | a new chunk has four times the entries of the previous one, header counted as one, from 3 up to 255 |
| ThreadRegistry.StepInv | infra/google/protobuf/arena.cc:480-492 | every atomic access of any thread (lookup, fetch_add, store-back, slot stores, lock, growth, publication) keeps the table's invariant, as long as the 32-bit counter does not wrap |
| ThreadRegistry.RunInv | infra/google/protobuf/arena.cc:695-719 | the invariant holds in every state of every interleaving of any number of threads |
| ThreadRegistry.Monotone | infra/google/protobuf/arena.cc:480-492 | from any state of a run to any later one chunks keep their capacity, only gain claims, stay full once full, and created arenas stay with their threads |
| ThreadRegistry.NoSlotHandedOutTwice | infra/google/protobuf/arena.cc:480-492 | two different fetch_adds on a chunk never return the same index below its capacity, in any run |
| ThreadRegistry.FullChunkStaysFull | infra/google/protobuf/arena.cc:482-487 | a chunk whose size has reached its capacity never becomes non-full, despite the size being stored back |
| ThreadRegistry.SizeBound | infra/google/protobuf/arena.cc:480-492 | size is at most capacity plus the threads between a failed fetch_add and their store |
| ThreadRegistry.GrowsOnlyWhenFull | infra/google/protobuf/arena.cc:695-719 | in every run a chunk is appended only when the head has no room left (or is the sentry); it links to that head, has the next capacity and holds the entry of the thread that found the head full |
| ThreadRegistry.WalkMeetsAll | infra/google/protobuf/arena.cc:855-866 | the chunk walk from the head meets each published chunk, newest first |
| ThreadRegistry.EntryInExactlyOneSlot | infra/google/protobuf/arena.cc:695-719 | from the moment a call has returned, in every later state of the run, its arena is in exactly one slot, always the same, reachable from the head, with the thread's id beside it |
| ThreadRegistry.SameArenaAgain | infra/google/protobuf/arena.cc:951-983 | within one arena lifetime a thread always gets the same serial arena |
| ThreadRegistry.DistinctThreadsDistinctArenas | infra/google/protobuf/arena.cc:951-983 | different threads never get the same serial arena |
| RegistryWalk.CleanupOrder | infra/google/protobuf/arena.cc:930-948 | the nested loops visit every registered arena exactly once, in reverse slot order with the newest chunk first, and the first arena last |
| RegistryWalk.EachOnce | infra/google/protobuf/arena.cc:868-882 | the arenas met by such a walk are pairwise different and are all that were registered |
| Lifecycle.NextIdIsNew | infra/google/protobuf/arena.cc:649-661 | the id handed out has never been used and is outside every thread's reserved batch |
| Lifecycle.RunInv | infra/google/protobuf/arena.cc:649-661 | reserved batches of different threads stay apart in every run before the counter wraps |
| Lifecycle.IdsNeverRepeat | infra/google/protobuf/arena.cc:649-661 | across all threads and arenas no two lifetimes get the same id before 64-bit wrap |
| Lifecycle.FastPathReturnsOwnArena | infra/google/protobuf/thread_safe_arena.h:169-184 | when the cached lifecycle id matches, the cached serial arena is the one the thread cached for this very lifetime |
| Lifecycle.BatchesCollide | infra/google/protobuf/arena.cc:649-661 | two values of the global counter give the same batch exactly when they are congruent modulo 2^56 |
| ArenaMemory.ReleaseAllExact | infra/google/protobuf/arena.cc:92-106 | a list of regions can be given back exactly when each is live as often as listed, with exactly that size, and then just those are gone |
| CleanupList.AddedContents | infra/google/protobuf/arena_cleanup.h:62-88 | adding a node appends it to the contents, whichever chunk takes it |
| CleanupList.RunsInReverse | infra/google/protobuf/arena.cc:140-175 | the walk over the chunks is exactly the reverse of insertion order across all chunks |
| CleanupList.WholeLifeRunsInReverse | infra/google/protobuf/arena.cc:125-175 | after any sequence of additions, what runs is the reverse of what was added, each once |
| CleanupList.ChunkList.Add | infra/google/protobuf/arena_cleanup.h:62-88 | writing through the next pointer, or into a new chunk, has the effect of the specified addition and touches no older chunk |
| CleanupList.ChunkList.AddFallback | infra/google/protobuf/arena.cc:125-138 | a new chunk in front holds the node and the older chunks are unchanged |
| CleanupList.DestroyNodes | infra/google/protobuf/arena.cc:147-170 | whatever the prefetch split, the three loops destroy the nodes of a chunk once each from the last to the first |
| CleanupList.RunChunks | infra/google/protobuf/arena.cc:140-175 | nodes are destroyed in the specified order, each chunk is given back once with its size, and none is read after that |
| CleanupList.ChunkList.Cleanup | infra/google/protobuf/arena.cc:140-175 | the same for the whole list |
| CleanupList.ChunkList.Peek | infra/google/protobuf/arena.cc:177-192 | PeekForTesting lists the elements in exactly the order of Cleanup |
| SerialArena.FitsIff | infra/google/protobuf/serial_arena.h:201-218 | the uintptr_t test agrees with "n bytes are left" if and only if pointer plus request does not wrap |
| SerialArena.WrappedRequestIsAccepted | infra/google/protobuf/serial_arena.h:201-218 | a concrete exhausted block for which a huge request is accepted |
| SerialArena.RetrySucceeds | infra/google/protobuf/arena.cc:264-303 | after AllocateNewBlock the retry of a request of whole words, plain or over-aligned, finds room and does not grow again |
| SerialArena.RetryIff | infra/google/protobuf/arena.cc:264-270 | for any size the retry finds room if and only if the block does up to its limit, and in a block of just the size asked for if and only if the size is a multiple of 8; otherwise null is returned |
| SerialArena.CeilOfAligned | infra/google/protobuf/serial_arena.h:134-148 | from an 8-aligned pointer, aligning for any power of two stays 8-aligned and skips no more than AlignUpTo reserved, whatever the size |
| SerialArena.PaddedIff | infra/google/protobuf/arena.h:238-250 | at any address the aligned object lies inside its padded request if and only if the address is a multiple of the alignment or at least 8 past one |
| SerialArena.OpenCounted | infra/google/protobuf/arena.cc:305-332 | retiring a head block keeps the space counter exact |
| SerialArena.EmplaceCounted | infra/google/protobuf/arena.cc:273-295 | carving a string block out of the arena block neither double counts nor loses bytes, in wrap-around arithmetic |
| SerialArena.HeapCounted | infra/google/protobuf/arena.cc:273-295 | the same for a string block from the heap |
| SerialArena.Rounded | infra/google/protobuf/string_block.h:115-117 | a string block has room for a whole number of strings, at least one, within the size asked for |
| SerialArena.StepInv | infra/google/protobuf/arena.cc:264-332 | every call (bytes of any size, Arena::AllocateAligned, objects with cleanup, strings, registrations) keeps all objects and strings pairwise disjoint and inside blocks past their headers, the pointer aligned and the counters exact, if and only if its request takes whole words or is refused; it then owns one region more exactly when it asked the allocator |
| SerialArena.StepCounted | infra/google/protobuf/arena.cc:273-332 | whatever sizes are asked for, the pointer stays within its block and the space counter stays exact |
| SerialArena.StepOwned | infra/google/protobuf/arena.cc:264-332 | whatever sizes are asked for, a call adds to the memory held just what it obtained |
| SerialArena.StepAligned | infra/google/protobuf/serial_arena.h:229-245 | from an arena in order every object and string handed out is 8-aligned, and an over-aligned one has its alignment and its full size, whatever that is |
| SerialArena.StepHeld | infra/google/protobuf/serial_arena.h:342-347 | space_allocated counts exactly the blocks, heap string blocks and cleanup chunks held |
| SerialArena.SpaceUsedExact | infra/google/protobuf/arena.cc:334-358 | with a real head block SpaceUsed equals the bytes handed out directly plus one string size per string, whatever the sizes; with the sentry if and only if no string block has been retired (up to wrap of the counter) |
| ArenaGrowth.GrowsIff | infra/google/protobuf/serial_arena.h:201-218 | a call asks for memory if and only if what is left of the head block (of the string block, of the newest cleanup chunk) has no room for it |
| ArenaGrowth.AsksOnlyWhenFull | infra/google/protobuf/arena.cc:264-303 | the memory held grows by exactly one region when there is no room and not at all otherwise |
| ArenaGrowth.SizesDouble | infra/google/protobuf/arena.cc:53-58 | the n-th size asked for is the start size doubled n times, up to the limit |
| ArenaGrowth.CapacityIs | infra/google/protobuf/arena.cc:81-90 | a cleanup chunk takes another 16-byte node exactly while it fits behind the header |
| ArenaGrowth.StepGrown | infra/google/protobuf/string_block.h:119-144 | over every call the string blocks have 256 bytes twice and then double up to 8192, each cut to whole strings, and a new one is opened exactly when the newest has none left |
| SerialArena.SerialArena.AllocateNewBlock | infra/google/protobuf/arena.cc:305-332 | links the new block, moves the range, and adds to both counters in 64-bit arithmetic |
| SerialArena.SerialArena.AllocateAligned | infra/google/protobuf/serial_arena.h:116-131 | returns an aligned region that joins the live objects, or null; the arena stays in order if and only if the size is a multiple of 8 or null was returned |
| SerialArena.SerialArena.Bump | infra/google/protobuf/serial_arena.h:201-218 | the test, the bump and the retry on a new block, with null when the retry fails |
| SerialArena.SerialArena.AllocateWithAlignment | infra/google/protobuf/arena.h:238-250 | returns an address with the requested alignment whose object joins the live objects, or null; the arena stays in order if and only if the alignment is at most 8, the size a multiple of 8, or null was returned |
| SerialArena.SerialArena.AllocateOverAligned | infra/google/protobuf/serial_arena.h:229-245 | returns an address with the requested alignment whose object lies inside the block |
| SerialArena.SerialArena.AllocateAlignedWithCleanup | infra/google/protobuf/serial_arena.h:229-245 | the object is aligned, joins the live objects, and its destructor is the last one registered |
| SerialArena.SerialArena.AddCleanup | infra/google/protobuf/serial_arena.h:248-251 | the node is appended to the cleanup contents and nothing else changes but the space allocated |
| SerialArena.SerialArena.NewStringBlock | infra/google/protobuf/arena.cc:273-291 | the next string block comes from the arena block when it fits and from the heap otherwise |
| SerialArena.SerialArena.AllocateFromStringBlock | infra/google/protobuf/serial_arena.h:411-428 | returns a fresh string slot that joins the disjoint live objects |
| ArenaAlign.MaskIsRounding | infra/google/protobuf/arena_align.h:123-126 | masking with the complement of a power of two less one rounds down, for every word size |
| ArenaAlign.FloorIsRounding | infra/google/protobuf/arena_align.h:116-126 | Floor and IsAligned are rounding and divisibility |
| ArenaAlign.CeilIsRounding | infra/google/protobuf/arena_align.h:123-125 | Ceil is the least multiple from n on, for every power of two, while the sum does not wrap |
| ArenaAlign.LimitIsRounding | infra/google/protobuf/serial_arena.h:50-52 | the block limit is the size rounded down to a multiple of 8 |
| ArenaAlign.AlignedObjectFits | infra/google/protobuf/arena.h:238-250 | for any power of two above 8 and any size the object at Ceil lies inside the Padded request at an 8-aligned address |
| ArenaAlign.AlignedObjectFitsIff | infra/google/protobuf/arena_align.h:128-134 | at any address the exact condition for that, and that the pointer stays 8-aligned if and only if the size is a multiple of 8 |
| ThreadSafeArena.StepStringOrder | infra/google/protobuf/arena.cc:360-380 | strings are destroyed in exactly the reverse of the order they were handed out |
| ThreadSafeArena.StepHanded | infra/google/protobuf/arena.cc:273-295 | what teardown would destroy is what was handed out, latest first, after every call |
| ThreadSafeArena.FreeStringBlocks | infra/google/protobuf/arena.cc:360-380 | destroys exactly the strings handed out, and deletes each heap string block once with its size, emplaced ones never |
| ThreadSafeArena.FreeBlocks | infra/google/protobuf/arena.cc:250-261 | gives back every block but the last; no header is read once its block is gone |
| ThreadSafeArena.FreeSerial | infra/google/protobuf/arena.cc:249-261 | both together, returning the arena's first block and the strings destroyed |
| ThreadSafeArena.CreateInv | infra/google/protobuf/arena.cc:560-617 | all constructors (no buffer, buffer too small, user buffer, custom policy with or without room for it) establish the arena's invariant |
| ThreadSafeArena.CreateUsesBuffer | infra/google/protobuf/arena.cc:573-613 | a caller's buffer becomes the only block, counted as held, exactly when it is larger than the 16-byte header, or has room for header and 32-byte policy; otherwise the arena starts on the policy's own block or on the sentry, and its free words are stated |
| ThreadSafeArena.ThreadSafeArena.constructor | infra/google/protobuf/arena.cc:560-647 | chooses the user's block, a block for the policy or the sentry as specified, and establishes the invariant |
| ThreadSafeArena.ThreadSafeArena.Join | infra/google/protobuf/arena.cc:969-983 | adds a serial arena in its own new block |
| ThreadSafeArena.CalledInv | infra/google/protobuf/arena.cc:264-332 | a call of any thread keeps every serial arena in order if and only if its request takes whole words or is refused |
| ThreadSafeArena.CalledHeld | infra/google/protobuf/arena.cc:264-332 | a call of any thread, whatever size it asks for, keeps what is held equal to what is live plus the user's block, and the counters exact |
| ThreadSafeArena.JoinedInv | infra/google/protobuf/arena.cc:973-979 | creating the arena of a new thread inside its own first block keeps every arena in order |
| ThreadSafeArena.JoinedHeld | infra/google/protobuf/arena.cc:973-979 | and what is held equal to what is live |
| ThreadSafeArena.JoinedServes | infra/google/protobuf/arena.cc:973-979 | that block has room for the pending request |
| ThreadSafeArena.ThreadsNeverOverlap | infra/google/protobuf/arena.cc:298-332 | objects handed out to different threads never overlap |
| ThreadSafeArena.TeardownExact | infra/google/protobuf/arena.cc:761-785 | cleanup and Free give each region back exactly once with its recorded size, never the user's block or the sentry |
| ThreadSafeArena.DestroyReturnsAll | infra/google/protobuf/arena.cc:747-759 | after destruction nothing obtained is outstanding and nothing was given back twice |
| ThreadSafeArena.ResetInv | infra/google/protobuf/arena.cc:787-820 | Reset leaves a newly created arena, in order even if it was not, that holds just the user's block or the policy's block |
| ThreadSafeArena.LifeInv | infra/google/protobuf/arena.cc:787-820 | over every life of calls, new threads and Resets all states are in order (aligned, disjoint, inside their blocks) if and only if every call took whole words or was refused |
| ThreadSafeArena.LifeHeld | infra/google/protobuf/arena.cc:747-820 | over every life, whatever sizes are asked for, what is held is what is live, and destruction at any point returns exactly what is outstanding, each region once |
| ThreadSafeArena.SpaceUsedByAll | infra/google/protobuf/arena.cc:909-918 | the 64-bit sum over all threads equals what users were given if and only if the first arena has a real head block or no retired strings |
| ThreadSafeArena.ThreadSafeArena.SpaceAllocated | infra/google/protobuf/arena.cc:901-907 | the sum over all threads is the memory held, modulo 2^64 |
| ThreadSafeArena.ThreadSafeArena.CleanupList | infra/google/protobuf/arena.cc:930-948 | destructors run latest arena first, the first arena last, each list in reverse, and the chunks are given back |
| ThreadSafeArena.ThreadSafeArena.Free | infra/google/protobuf/arena.cc:761-785 | destroys the strings of all arenas and gives back all memory but the first arena's last block, without reading anything freed |
| ThreadSafeArena.ThreadSafeArena.Destroy | infra/google/protobuf/arena.cc:747-759 | leaves no live memory, runs the destructors in the specified order, and destroys exactly the strings handed out |
| ThreadSafeArena.ThreadSafeArena.Reset | infra/google/protobuf/arena.cc:787-820 | leaves the specified fresh state, destroys exactly the strings handed out, and returns the memory held before |
| ArenaLife.DueIsDestroyed | infra/google/protobuf/arena.cc:360-380 | what Reset and the destructor destroy is what was handed out and not destroyed yet |
| ArenaLife.StringsDestroyedOnce | infra/google/protobuf/arena.cc:273-380 | over every life each string handed out by any thread is destroyed once, by the next Reset or by the destructor |
| ArenaLife.BrokenWordOverlaps | infra/google/protobuf/arena.h:238-250 | a run in which 12 bytes aligned to 16 make a later aligned object overlap the allocation after it |
| ArenaLife.BrokenWordIsRefused | infra/google/protobuf/arena.cc:264-270 | an allocator's answer for which the retry fails and the call returns null |
| ArenaLife.SentryUndercounts | infra/google/protobuf/arena.cc:334-358 | eight strings from a new arena, of which SpaceUsed reports one |
| Varint.Emit | infra/google/protobuf/io/coded_stream.h:897-910 | the writing loop produces the base-128 digits, low ones first |
| Varint.ReadOfWrite | infra/google/protobuf/io/coded_stream.h:1638-1646 | every 64-bit value is read back from its varint, leaving the rest of the stream |
| Varint.SizeIsLength | infra/google/protobuf/io/coded_stream.h:1728-1769 | both size formulas (bit scan and leading zeros, 32 and 64 bits) give the varint's length for every value |
| WireRecords.ReadAllOfEncode | infra/google/protobuf/wire_format_lite.cc:509-518 | every list of tagged records is read back from its encoding |
| WireRecords.EncodeAppend | infra/google/protobuf/wire_format_lite.cc:509-518 | encodings concatenate |
| Messages.FoldAny | infra/google/protobuf/any.pb.cc:255-271 | reading Any's records on top of a message merges them into it |
| Messages.FoldOpt | infra/google/protobuf/type.pb.cc:2488-2590 | the same for Option, whose value sub-message is merged |
| Messages.FoldMixin | infra/google/protobuf/api.pb.cc:1427-1537 | the same for Mixin |
| Messages.FoldMethod | infra/google/protobuf/api.pb.cc:1003-1222 | the same for Method: strings, flags, repeated options and an enum of any sign |
| Messages.FoldApi | infra/google/protobuf/api.pb.cc:415-462 | the same for Api: overwritten strings, concatenated repeated fields, merged sub-message |
| Messages.EnumReadsBack | infra/google/protobuf/wire_format_lite.h:1417-1421 | every int32 enum value, negative ones included, survives the sign-extended varint |
| Messages.ApiConcatenationMerges | infra/google/protobuf/api.pb.cc:505-720 | reading serialise(a) followed by serialise(b) gives the field values of a after MergeFrom(b), unknown fields included |
| Messages.ApiRoundTrip | infra/google/protobuf/api.pb.cc:505-580 | reading serialise(a) gives the field values of a |
| Messages.MethodConcatenationMerges | infra/google/protobuf/api.pb.cc:1003-1222 | the same for Method |
| Messages.AnyConcatenationMerges | infra/google/protobuf/any.pb.cc:300-408 | the same for Any |
| Messages.ClearIsComplete | infra/google/protobuf/api.pb.cc:476-502 | although Clear looks only at fields whose bit is set, cleared messages are as new |
| Messages.CopyFromCopies | infra/google/protobuf/api.pb.cc:722-727 | Clear followed by MergeFrom leaves the source's field values |
| WireForm.AnyForm | infra/google/protobuf/any.pb.cc:255-271 | the bytes of every Any: type_url under tag 10, value under tag 18, each exactly when not empty, unknown records last |
| WireForm.SourceForm | infra/google/protobuf/source_context.pb.cc:233-236 | the bytes of every SourceContext: file_name under tag 10 |
| WireForm.MixinForm | infra/google/protobuf/api.pb.cc:1382-1387 | the bytes of every Mixin: name under 10, root under 18 |
| WireForm.OptForm | infra/google/protobuf/type.pb.cc:2441-2446 | the bytes of every Option: name under 10, a present value under 18 even when empty |
| WireForm.MethodForm | infra/google/protobuf/api.pb.cc:916-937 | the bytes of every Method: tags 10, 18, 24, 34, 40, 50, 56 in this order, flags as one, negative enums in 64-bit two's complement |
| WireForm.ApiForm | infra/google/protobuf/api.pb.cc:415-462 | the bytes of every Api: tags 10, 18, 26, 34, 42, 50, 56 in this order, every element of a repeated field, a present sub-message even when empty |
| WireForm.SmallMessages | infra/google/protobuf/any.pb.cc:255-271 | an Any with type_url "a" is 0A 01 61, one with a two-byte value starts 12 02, and 300 is the varint AC 02 |
| WireForm.Utf8Iff | infra/google/protobuf/any.pb.cc:264-271 | a string field is accepted exactly when its bytes encode some sequence of Unicode scalar values |
| MessageSize.PrefixIsLength | infra/google/protobuf/wire_format_lite.cc:509-518 | a nested message is framed correctly if and only if the cached size is its body's length: a stale cache corrupts the stream |
| MessageSize.EnumLength | infra/google/protobuf/wire_format_lite.h:1504-1506 | the size of an enum field is what is written, eleven bytes with the tag when negative |
| MessageSize.EmitMethodIsBytes | infra/google/protobuf/api.pb.cc:1003-1090 | with sizes cached, Method is written as its records |
| MessageSize.EmitApiIsBytes | infra/google/protobuf/api.pb.cc:505-590 | with sizes cached, every nested length prefix of Api is its body's length and exactly ByteSizeLong bytes are written |
| MessageSize.ByteSizeAny | infra/google/protobuf/any.pb.cc:342-375 | returns the number of bytes Any serialises to |
| MessageSize.ByteSizeOpt | infra/google/protobuf/type.pb.cc:2530-2561 | returns the number of bytes of Option and caches that of its value |
| MessageSize.ByteSizeMixin | infra/google/protobuf/api.pb.cc:1474-1504 | returns the number of bytes Mixin serialises to |
| MessageSize.ByteSizeMethod | infra/google/protobuf/api.pb.cc:1098-1163 | returns the number of bytes of Method and caches those of its options |
| MessageSize.ByteSizeApi | infra/google/protobuf/api.pb.cc:602-667 | serialising right after it writes exactly that many bytes, with correct prefixes at every level |
| MessageSize.WriteMethod | infra/google/protobuf/api.pb.cc:1003-1090 | the writer appends Method's fields in order, with cached prefixes |
| MessageSize.WriteApi | infra/google/protobuf/api.pb.cc:505-590 | the writer's loops append Api's fields in order, with cached prefixes |
| ArenaString.RenewedOk | infra/google/protobuf/arenastring.cc:104-132 | giving a field a new string keeps one owner per string, deletes what the field owned, and changes no other field |
| ArenaString.AssignedOk | infra/google/protobuf/arenastring.cc:109-132 | assigning through a non-default pointer changes that field alone and never the shared empty string |
| ArenaString.SurrenderedOk | infra/google/protobuf/arenastring.cc:213-224 | releasing a heap string moves its ownership to the caller without a copy |
| ArenaString.AdoptedOk | infra/google/protobuf/arenastring.h:455-462 | adopting a caller's string moves its ownership to the field, or to the arena's cleanup list |
| ArenaString.SwappedOk | infra/google/protobuf/arenastring.h:497-519 | swapping pointers swaps meanings and owners |
| ArenaString.StringFields.Set | infra/google/protobuf/arenastring.cc:109-156 | in plain and hardened builds, on and off an arena, the field becomes the value and nothing else changes |
| ArenaString.StringFields.SetMoved | infra/google/protobuf/arenastring.cc:158-170 | the same for a moved string |
| ArenaString.StringFields.Mutable | infra/google/protobuf/arenastring.cc:172-179 | the string returned belongs to the field alone, has its value, and is not the shared empty one |
| ArenaString.StringFields.Release | infra/google/protobuf/arenastring.cc:213-224 | the caller gets a string it alone owns with the field's value, and the field is default |
| ArenaString.StringFields.SetAllocated | infra/google/protobuf/arenastring.cc:226-248 | the field takes over the caller's string, which the caller owns no more; null makes it default |
| ArenaString.StringFields.ClearToEmpty | infra/google/protobuf/arenastring.cc:250-262 | a default field stays, any other becomes empty |
| ArenaString.StringFields.ClearNonDefaultToEmpty | infra/google/protobuf/arenastring.h:521-525 | empties the field's own string |
| ArenaString.StringFields.CopyInto | infra/google/protobuf/arenastring.h:426-445 | the copy has the source's value, also from a message on another arena; a hardened build copies even a default |
| ArenaString.StringFields.constructor | infra/google/protobuf/arenastring.h:237-242 | new fields are default, or in a hardened build hold their own copy of the empty string |
| ArenaString.StringFields.Destroy | infra/google/protobuf/arenastring.cc:246-248 | the string the field owned is deleted, and no other |
| ArenaString.StringFields.InternalSwap | infra/google/protobuf/arenastring.h:497-519 | two fields on the same arena, or on none, exchange their meanings, also when hardening recopies the strings |
| AnyMessage.AnyMessages.SetField | infra/google/protobuf/any.pb.h:371-376 | sets bit and value |
| AnyMessage.AnyMessages.MutableField | infra/google/protobuf/any.pb.h:392-396 | sets the bit, keeps the value, never exposes the shared empty string |
| AnyMessage.AnyMessages.ReleaseField | infra/google/protobuf/any.pb.h:397-409 | returns the value exactly when the bit was set, and leaves an unset empty field |
| AnyMessage.AnyMessages.SetAllocatedField | infra/google/protobuf/any.pb.h:410-422 | takes a caller's string, or clears the field for null |
| AnyMessage.AnyMessages.ClearField | infra/google/protobuf/any.pb.h:360-364 | unsets and empties the field |
| AnyMessage.AnyMessages.Clear | infra/google/protobuf/any.pb.cc:279-297 | the message is as new, though only fields with a set bit are written to |
| AnyMessage.AnyMessages.MergeFrom | infra/google/protobuf/any.pb.cc:377-408 | each field is merged as specified: a present empty string does not overwrite |
| AnyMessage.AnyMessages.CopyFrom | infra/google/protobuf/any.pb.cc:410-415 | the fields become those of the source, also for self-copy |
| AnyMessage.AnyMessages.CopyField | infra/google/protobuf/any.pb.cc:146-170 | copy construction reproduces bit and value |
| AnyMessage.AnyMessages.Rebuild | infra/google/protobuf/any.pb.cc:146-185 | a message destroyed and constructed again, new or as a copy of a message on any arena, has empty fields or those of the source |
| AnyMessage.AnyMessages.Swap | infra/google/protobuf/any.pb.cc:418-426 | two messages exchange their fields |
| AnyMessage.AnyMessages.Run | infra/google/protobuf/any.pb.h:360-487 | every sequence of operations on messages on any arenas or none (setters, mutable, release, set_allocated, clear, merge, copy, swap, construction and copy construction), in every build mode, does what it does to plain fields and keeps "bit set means own string" and "bit unset means empty" |
| AnyMessage.UnsetFieldsStayEmpty | infra/google/protobuf/any.pb.cc:279-297 | over every sequence of operations a field without its bit is empty, so skipping it is right |
| RpcCodec.ReadFrameOfFrame | infra/network/rpc.go:106-236 | a frame that fits int32 is read back whole and the stream is left at the next frame |
| RpcCodec.FrameReadsBackIff | infra/network/rpc.go:418-521 | a frame is read back whole if and only if its length fits int32; beyond that it is refused exactly when the wrapped length is not positive, and otherwise cut to that length |
| RpcCodec.HandleConnection | infra/network/rpc.go:106-236 | the loop over everything a client sends, malformed and panicking input included, does what the specified server does; what that is for whole and cut requests is stated by the next rows |
| RpcCodec.ServerRecoversRequests | infra/network/rpc.go:106-236 | over the concatenated frames of any list of requests the loop makes exactly those calls in order and writes one response each |
| RpcCodec.WireRefinesDirectCalls | infra/network/rpc.go:418-521 | each caller sees what a direct call would have returned if and only if the handler did not fail with an empty text |
| RpcCodec.CallsThroughTheWire | infra/network/rpc.go:106-236 | end to end each caller sees what calling the handler directly gives, if and only if that is not an error with an empty text |
| RpcCodec.EveryRequestIsAnswered | infra/network/rpc.go:173-189 | whatever the handlers compute, request i reaches the one registered for its method with its own payload and the state its predecessors left, and its caller reads back that error text or that payload |
| RpcCodec.UnknownMethodIsRefused | infra/network/rpc.go:173-189 | an unregistered method is answered with an error that names it, and no state changes |
| RpcCodec.CutFrameIsIgnored | infra/network/rpc.go:120-139 | a frame cut short at any byte has no effect, and everything before it is served |
| RpcCodec.FrameBytes | infra/network/rpc.go:424-453 | the bytes of a frame: int32 lengths, most significant byte first, in the order total, first part, second part |
| RpcPool.StepInv | infra/network/rpc.go:291-342 | every step of interleaved calls keeps the pools' invariant (places, cleanliness, ownership of responses) |
| RpcPool.CloseAllInv | infra/network/rpc.go:541-553 | so does CloseAllConnections between pool operations |
| RpcPool.RunInv | infra/network/rpc.go:291-342 | it holds in every reachable state |
| RpcPool.ExactlyOnePlace | infra/network/rpc.go:291-342 | each dialed connection is idle in its own endpoint's pool, held by one call, or closed, and pools stay within capacity |
| RpcPool.IdleConnectionsAreClean | infra/network/rpc.go:403-521 | every idle connection has had all its responses consumed |
| RpcPool.ResponsesReachTheirCallers | infra/network/rpc.go:403-521 | no call reads another call's response |
| RpcPool.ResponseExactlyWhenRead | infra/network/rpc.go:456-521 | in every state of every run a call has its response if and only if its response has been read whole from some connection, so none is lost and a call ending without one consumed none |
| RpcPool.ResponseIsKept | infra/network/rpc.go:471-521 | from the step that reads its body on, a call has its own response in every later state |
| RpcPool.DialsOnlyWithoutIdle | infra/network/rpc.go:291-315 | a connection is dialed exactly when none is idle for the endpoint; otherwise the one idle longest is taken |
| RpcPool.DropsOnlyBroken | infra/network/rpc.go:443-501 | a call marks its connection unhealthy exactly when a write, a read or the response body fails on it |
| RpcPool.WhereConnectionsGo | infra/network/rpc.go:319-342 | a connection let go of returns to the back of its pool exactly when it is healthy and the pool exists and has room; otherwise it is closed |
| RpcPool.NoUseAfterClose | infra/network/rpc.go:403-521 | no call uses a closed connection |
| RoundRobin.Selector.Select | infra/network/rpc.go:383-387 | picks counter modulo n and advances |
| RoundRobin.Selector.SelectMany | infra/network/rpc.go:383-387 | consecutive calls pick the specified window |
| RoundRobin.WindowCount | infra/network/rpc.go:383-387 | how often an instance is picked in any window, in closed form |
| RoundRobin.WindowIsFair | infra/network/rpc.go:383-387 | any window of k calls picks each of n instances floor(k/n) or ceil(k/n) times |
| Actor.StepInv | infra/actor/actor.go:103-181 | every channel operation of callers and loop keeps the protocol's invariant on messages and channels |
| Actor.RunInv | infra/actor/actor.go:194-255 | it holds in every run |
| Actor.CallersAreToldTheTruth | infra/actor/actor.go:103-181 | in every run a Tell returned nil if and only if its message was accepted, "full" only if it was not, "stopped" only after Stop, the context's error only if it was done, and an Ask with a result was accepted |
| Actor.FullTwice | infra/actor/actor.go:112-132 | a Tell reports a full mailbox only after finding it full at two different moments |
| Actor.OutcomesAreDelivered | infra/actor/actor.go:228-246 | the outcome of a processed Ask is delivered unless the actor was stopped or the caller's context done |
| Actor.AcceptedInOrder | infra/actor/actor.go:194-255 | accepted messages are processed, then drained, then queued ones, in order |
| Actor.AtMostOneValue | infra/actor/actor.go:138-181 | an Ask gets at most one value across its two channels |
| Actor.AskReturnsOwnOutcome | infra/actor/actor.go:138-181 | a non-nil result is the one computed for that very message, or the drain error |
| Actor.LoopNeverBlocks | infra/actor/actor.go:194-255 | the loop never waits for a departed caller |
| Actor.ExitLeavesNobodyWaiting | infra/actor/actor.go:194-255 | when run exits every accepted Ask has a value delivered or both channels closed |
| Actor.WaitingAskMayReturnNil | infra/actor/actor.go:138-181 | in every reachable state, what each channel gives a waiting Ask and when it can be taken: a delivered response is lost exactly through a closed error channel, a delivered error exactly through a closed reply channel, and nothing else yields nil unless the response is nil |
| Actor.ReplyCanBeLost | infra/actor/actor.go:138-181 | a run in which a delivered response is never seen by its caller |
| Actor.ErrorCanBeLost | infra/actor/actor.go:240-246 | a run in which a delivered error is lost while only the reply channel is closed |
| Snowflake.FieldsDoNotOverlap | help/id_generator.go:89-93 | joining the shifted fields with OR adds them, and the mask takes the sequence modulo 4096 |
| Snowflake.DecodeOfCompose | help/id_generator.go:89-93 | an identifier decodes to its timestamp modulo 2^42, node and sequence |
| Snowflake.EqualIdentifiers | help/id_generator.go:89-93 | two identifiers are equal if and only if node and sequence agree and the timestamps are congruent modulo 2^42 |
| Snowflake.ConversionIsIdentity | help/id_generator.go:238-243 | the int64 conversion keeps an identifier if and only if its timestamp has 41 bits |
| Snowflake.ConversionCollides | help/id_generator.go:238-243 | different values collide exactly when they are 2^63 apart |
| Snowflake.IDGenerator.GenerateID | help/id_generator.go:66-95 | every clock sequence leads to the specified identifier, panic or endless wait, which the next three rows characterise |
| Snowflake.CallAnswers | help/id_generator.go:66-85 | it panics if and only if the clock is behind the last identifier, and waits for ever if and only if the 4096 numbers of the millisecond are used up and no reading leaves it |
| Snowflake.CallIssues | help/id_generator.go:72-95 | otherwise the identifier decodes to the reading since 1577836800000, the node, and the next number of the millisecond, 0 in a new one |
| Snowflake.CallWaits | help/id_generator.go:76-95 | after a used-up millisecond it decodes to the first later reading and number 0 |
| Snowflake.AwaitedIff | help/id_generator.go:79-83 | the wait ends on the first reading after the last identifier's |
| Snowflake.CallRaisesFloor | help/id_generator.go:66-95 | an issued identifier is above all earlier ones, and a panic leaves the generator unchanged |
| Snowflake.RunIsIncreasing | help/id_generator.go:66-95 | over any run of one generator, recovered panics included, identifiers strictly increase, stay below 2^63 and carry the node |
| Snowflake.NodesNeverCollide | help/id_generator.go:66-95 | generators with different node numbers never issue the same identifier |
| Snowflake.IDGenerator.GenerateBatch | help/id_generator.go:328-338 | the loop issues the specified batch or stops where a call fails |
| Snowflake.BatchesAreDistinct | help/id_generator.go:328-361 | a completed batch has the asked-for number of identifiers, pairwise distinct as numbers, as int64, as text and as session tokens |
| Snowflake.SessionRoundTrip | help/id_generator.go:473-479 | every identifier comes back from its token, and exactly the well-formed tokens are accepted |
| Snowflake.ShortReadsBack | help/id_generator.go:311-323 | second and low 16 bits can be read off a short identifier |
| Snowflake.ShortCollides | help/id_generator.go:311-323 | short numeric identifiers collide if and only if second and low 16 bits agree |
| Snowflake.ShortOfOneNode | help/id_generator.go:311-323 | for one generator that is if and only if second and sequence number agree |
| SymbolIndex.AtMostOneMatch | infra/google/protobuf/descriptor_database.h:225-274 | in a map without nested keys at most one key covers a symbol |
| SymbolIndex.FindIsScan | infra/google/protobuf/descriptor_database.h:225-274 | the greatest key not above the symbol, tested for scope, is exactly what a linear scan for a super-symbol returns |
| SymbolIndex.CoversIsScope | infra/google/protobuf/descriptor_database.cc:187-194 | IsSubSymbol holds if and only if the second name is the first or the first, a dot and something |
| SymbolIndex.ValidNameIff | infra/google/protobuf/descriptor_database.cc:154-165 | exactly the names made of periods, underscores, digits and ASCII letters are valid |
| SymbolIndex.ScanMeans | infra/google/protobuf/descriptor_database.h:225-274 | the scan returns the value of a key whose dotted scope holds the name, or nothing when no key's does |
| SymbolIndex.FindMeans | infra/google/protobuf/descriptor_database.h:225-274 | so does the lookup, as an if and only if |
| SymbolIndex.AddAccepts | infra/google/protobuf/descriptor_database.cc:198-251 | AddSymbol accepts exactly the valid names without a conflict, and those whose conflict it overlooks |
| SymbolIndex.AddRefuses | infra/google/protobuf/descriptor_database.cc:198-251 | the refused names in terms of dots: invalid, in the scope of a key, or with a key in their scope other than the least one |
| SymbolIndex.FoundAfterAdd | infra/google/protobuf/descriptor_database.cc:198-251 | after an insertion names in the new symbol's scope are found with its value and every other name as before |
| SymbolIndex.SideBySide | infra/google/protobuf/descriptor_database.cc:187-194 | two unrelated valid names are accepted side by side and each is found by itself |
| SymbolIndex.SiblingsAreNotNested | infra/google/protobuf/descriptor_database.cc:187-194 | with "foo.bar" present, "foo.bar.baz" is found and refused, "foo.barbaz" is not found and accepted |
| SymbolIndex.AddKeepsOrder | infra/google/protobuf/descriptor_database.cc:198-251 | it keeps the map sorted with valid keys |
| SymbolIndex.AddKeepsInvariant | infra/google/protobuf/descriptor_database.cc:198-251 | it keeps "no key within another's scope" if and only if it did not overlook a conflict |
| SymbolIndex.OverlookedConflict | infra/google/protobuf/descriptor_database.cc:198-251 | a concrete map, insertion and lookup that go wrong |
| SymbolIndex.DescriptorIndex.Upper | infra/google/protobuf/descriptor_database.cc:169-187 | the bisection finds the first key above the name |
| SymbolIndex.DescriptorIndex.FindLastLessOrEqual | infra/google/protobuf/descriptor_database.cc:169-187 | returns the last key not above the name, or the first key when there is none |
| SymbolIndex.DescriptorIndex.FindSymbol | infra/google/protobuf/descriptor_database.cc:300-308 | returns what the specified lookup returns, and without nested keys the value of the key whose dotted scope holds the name, or nothing when there is none |
| SymbolIndex.DescriptorIndex.AddSymbol | infra/google/protobuf/descriptor_database.cc:198-251 | accepts or refuses and updates the map as specified |

## Left out

- `cmd/*` servers, consul, mongo, redis, nsq, HTTP handlers, GM and login logic, `cmd/simulator/*`: start-up plumbing and thin calls into other systems.
- `config/friend.go`, `help/help.go`, `help/time.go`: single branches and wrappers that would add easy members.
- `arenaz_sampler.*`, memory poisoning and prefetch hints: no effect on results; the prefetch loop's index arithmetic is kept.
- Weak memory orderings: atomics are sequentially consistent steps.
- Reuse of array memory through `cached_blocks_` in a serial arena, and Donate/Steal fixed-size arena strings.
- The byte size passed when a SerialArenaChunk table is deleted, and the tables' own memory.
- `TaggedAllocationPolicyPtr`: its flag and pointer are two separate fields of the arena here.
- Linked blocks and string blocks, and nested messages on the wire, are immutable values where their fields are const in the source; a region's lifetime is tracked separately.
- `infra/network/rpc.go` connection errors are nondeterministic step results; CloseAllConnections does not run between reading a pool pointer and using its channel, where the code would panic.
- `infra/actor/actor.go`: sending on the closed mailbox and a second Stop panic in Go and are excluded steps; the processor's results are parameters.
- `proto.Marshal` and `Unmarshal` in Go: payloads are opaque bytes.
- The table-driven parser: the reader is written from the field tables; groups and fixed-width wire types are malformed to it, and the writer's buffer refills are not modelled.
- InternalSwap of Api, Method and Mixin, reflection, descriptor tables, `any_lite.cc` and EncodedDescriptorDatabase.
- Lazy non-empty string defaults.
- ThreadRegistry.RunInv: assumes that fewer than 2^32 minus capacity threads are between a failed fetch_add and its store at once.
- SerialArena.StepInv: covers requests for which pointer plus size does not wrap; SerialArena.FitsIff says when the test then goes wrong.
- SerialArena.SpaceUsedExact: states quiescent states; the documented race with AllocateNewBlock is not modelled.
- Snowflake.IDGenerator.GenerateID: node numbers are in range, as NewIDGenerator panics otherwise.
- Snowflake.ShortCollides: does not model int64 overflow of seconds times 100000, which is millions of years away.
- MessageSize.ByteSizeApi: nested messages are below 2^31 bytes, the limit the length prefixes have.
- Object sizes are those of a 64-bit target with 32-byte strings.
