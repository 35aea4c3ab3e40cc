# Serena in Dafny

A model of the parts of the Serena operating system where the most state and arithmetic come
together, and proofs about it. Four subsystems are modelled.

**The disk block cache** (`DiskCache*.dfy`). Client calls on the cache interleave at the points where
the kernel waits, so the cache is a state machine whose steps are the stretches of code between two
waits: mapping a block up to the first wait (with its lock, if that is free), taking the lock after a wait,
giving up an interrupted wait, submitting I/O, the completion callback, finishing a call, unmapping,
syncing, pinning, opening and closing a session. A call that needs a disk operation takes it in a step of its
own even if one is free; the runs that are given as examples take that step at once. The class
`DiskCacheObject.DiskCache` has the same stretches as methods on fields, each proved to do exactly one
step. An invariant covers both indexes, the lock and I/O protocol, the dirty counter and the sessions.
It survives a step if and only if the environment kept its side: the driver accepted the request, no
wait was cancelled while its I/O was in flight, no block was recycled under a waiter, and no session was
opened or closed under a call. On top of it the cache refines a plain block store for every interleaving,
and the steps after which a client can come to read wrong bytes are characterised exactly. In every run the
LRU chain is the order of use, so that the block that is recycled is the one whose last use is longest ago.

**Key maps** (`KeyMap*.dfy`). The development tool that compiles `.keys` files, the kernel code that
interprets compiled maps, and the tool's decompiler. The compiler writes front to back and back-patches
offsets; it is proved to produce the image that a layout function describes, and to fail exactly if a
write would start beyond 65535. Interpreting that image yields, for every key event, modifier
combination and output limit, the bytes that the `.keys` file gives.

**The console** (`Vt500*.dfy`, `Console*.dfy`, `RingBuffer.dfy`, `ReportQueue.dfy`). The table driven
VT500 parser and what any stream of text, sequences and strings means to it, drawing into the bit planes
of a framebuffer, scrolling and wrapping, and the queue of terminal reports. Control sequences are read as in section 5.4 of ECMA-48.

**Disk images** (`RamContainer.dfy`, `Sefs*.dfy`). The block-wise I/O of the disk image tool, its
SerenaFS formatter, and what the kernel finds when it mounts a volume that was formatted.

`Arithmetic.dfy`, `Errors.dfy`, `Memory.dfy` and `Options.dfy` hold what several of them use.

Models of code that changes things in place are classes or methods on arrays, proved against
specification functions on values; the theorems are about those functions.

Where the code does not do what its documentation says or what a caller expects, the model follows the code:

- The comment on disk addresses speaks of a tuple of driver, media and block; the code uses the session
  identifier and the block.
- A failed write is not retried, and the sync write of a pinned block is refused. If the block was clean, the
  change stays in memory until the block is recycled, and the next reader gets the old bytes. `LossExactly`
  says exactly when, and `PinnedSyncSeen` and `FailedWriteSeen` give the runs. The client is not told: a sync
  write that failed returns no error (`FinishIo`).
- Closing a session leaves its dirty blocks in the cache. Nothing writes them, and nothing recycles them
  (`DirtyAtCloseStays`). A cache that is full of them is dead (`NeverMapsAgain`, `CacheDies`).
- A call that has waited for a block's lock does not look at the block's address again. If the block was
  recycled meanwhile, a client that maps one address is handed the bytes of another (`WaiterGetsOther`,
  `RecyclingMixesBlocks`).
- A sync is meant to start over when the LRU chain has changed. It compares with a generation that it never
  reads again, so it starts over forever (`SyncNeverEnds`).
- Scrolling down copies rows from the top to the bottom, in place. By less than half of the lines it repeats
  the first lines instead of moving all lines (`ScrollsAtOnceExactly`, `ScrollsDown`).
- The key map compiler accepts a code that is used twice. The traps of the keys behind it move up
  (`ChoosesByCodeExactly`, `RepeatedShifts`).
- A control sequence whose parameters start with a semicolon loses its first, empty parameter: `;7` is
  read as `7`. ECMA-48 gives it two parameters. `GivenAsMeant` says exactly when the parameters are right.
- The on-disk format defines one bitmap bit per block. The formatter counts the blocks it marks up to the
  bits of one bitmap block only. `FormattedVolume` says exactly when the bitmap is right.
- The formatter accepts blocks of 64 KB and more. The kernel does not mount such a volume (`FormatAndMount`).
- The compiler accepts images of up to 65535 + 17 bytes, whose size the 16 bit header field cannot hold.
  The kernel does not look at the size; the decompiler fails on such an image (`DecompilesExactly`,
  `FullImageFails`).

## Model

| member | source | states |
|---|---|---|
| `DiskCacheInvariant.FindCorrect` | kern/src/diskcache/DiskCache.c:250-311 | the hash lookup finds a block if and only if one with that session and lba is cached, and it is that block |
| `DiskCacheInvariant.VictimIsLeastRecentlyUsed` | kern/src/diskcache/DiskCache.c:215-244 | the recycled block is idle, clean and unpinned, and no such block is further back in the LRU chain; none is found only if none exists |
| `DiskCacheInvariant.RecentUseIndex` | kern/src/diskcache/DiskCache.c:250-311 | moving a block to the front of the LRU chain keeps both indexes in agreement |
| `DiskCacheInvariant.CreateBlockIndex` | kern/src/diskcache/DiskCache.c:197-211 | creating a block below capacity keeps chains, LRU chain, unique addresses and block count in agreement |
| `DiskCacheInvariant.RecycleBlockIndex` | kern/src/diskcache/DiskCache.c:215-244 | retargeting a block to an uncached address moves it to the chain of its new address and keeps both indexes in agreement |
| `DiskCacheSteps.ApplyKeepsInv` | kern/src/diskcache/DiskCachePriv.h:65-92 | a change to one block, one call and one session that is sound locally keeps the invariant of the whole cache |
| `DiskCacheSteps.GetBlockStep` | kern/src/diskcache/DiskCache.c:250-311 | getting a block by lookup, creation or recycling keeps the invariant and yields a block with the wanted address |
| `DiskCacheSteps.MapStep` | kern/src/diskcache/DiskCache_Session.c:211-237 | finding the block for a map call and choosing the lock mode keeps the invariant |
| `DiskCacheSteps.MapNowStep` | kern/src/diskcache/DiskCache_Session.c:211-304 | a map call keeps the invariant up to its first wait, whether it finds the lock free or taken |
| `DiskCacheSteps.LockStep` | kern/src/diskcache/DiskCache.c:56-79 | taking the lock of a block, shared or exclusive, keeps the invariant |
| `DiskCacheSteps.GiveUpStep` | kern/src/diskcache/DiskCache.c:81-88 | a call that found the lock taken and whose wait is interrupted ends and keeps the invariant |
| `DiskCacheSteps.StartIoStep` | kern/src/diskcache/DiskCache_DoIO.c:94-224 | submitting a read or write keeps the invariant |
| `DiskCacheSteps.IoDoneStep` | kern/src/diskcache/DiskCache_DoIO.c:235-307 | completion of a disk operation, with any status, keeps the invariant |
| `DiskCacheSteps.FinishStep` | kern/src/diskcache/DiskCache_Session.c:211-363 | a call that wakes up after its I/O keeps the invariant on the success and the error path |
| `DiskCacheSteps.UnmapStep` | kern/src/diskcache/DiskCache_Session.c:307-363 | unmapping in every write mode keeps the invariant |
| `DiskCacheSteps.SyncStep` | kern/src/diskcache/DiskCache_Session.c:129-144 | starting to sync a block keeps the invariant |
| `DiskCacheSteps.PinStep` | kern/src/diskcache/DiskCache_Session.c:169-209 | pinning and unpinning keep the invariant |
| `DiskCacheSteps.OpenStep` | kern/src/diskcache/DiskCache_Session.c:21-54 | opening a session keeps the invariant |
| `DiskCacheSteps.CloseStep` | kern/src/diskcache/DiskCache_Session.c:56-77 | closing a session keeps the invariant |
| `DiskCacheSteps.StepKeepsInv` | kern/src/diskcache/DiskCachePriv.h:65-92 | every enabled step, interrupted waits included, keeps the invariant if the environment keeps its side |
| `DiskCacheSteps.InitHolds` | kern/src/diskcache/DiskCache.c:23-49 | a new cache satisfies the invariant |
| `DiskCacheSteps.RefusedBreaks` | kern/src/diskcache/DiskCache_DoIO.c:94-224 | a request that the driver refuses always leaves the block outside of the lock and I/O protocol |
| `DiskCacheSteps.CancelledBreaks` | kern/src/diskcache/DiskCache_DoIO.c:53-65 | a wait that is cancelled while its I/O is in flight always breaks the protocol |
| `DiskCacheSteps.RecycledUnderWaiterBreaks` | kern/src/diskcache/DiskCache.c:56-88 | recycling a block that a call waits for always leaves that call with a block of another address |
| `DiskCacheSteps.SessionUnderCallBreaks` | kern/src/diskcache/DiskCache_Session.c:56-77 | opening or closing a session under a call in progress always breaks the invariant |
| `DiskCacheSteps.StepKeepsInvExactly` | kern/src/diskcache/DiskCachePriv.h:65-92 | an enabled step keeps the invariant if and only if the environment kept its side |
| `DiskCacheRefinement.StepRefines` | kern/src/diskcache/DiskCache_DoIO.c:235-283 | every step of a good run keeps cached data, disk and plain store consistent: unlocked data is the store's, and clean idle data is the disk's |
| `DiskCacheRefinement.RunRefines` | kern/src/diskcache/DiskCache_Session.c:211-363 | the plain store accepts the observations of every good run |
| `DiskCacheRefinement.CacheRefinesStore` | kern/src/diskcache/DiskCache_Session.c:211-363 | in every good run from an empty cache, each map for reading or updating yields the bytes last written for that session and block, or the medium's own, and each map that asks for a cleared block yields as many zeros as a block has bytes |
| `DiskCacheRefinement.StepRefinesExactly` | kern/src/diskcache/DiskCache_Session.c:211-363 | a step of any kind keeps cached data, disk and plain store consistent if and only if it is honest: a sync write of a pinned block and a failed write find the block dirty or the same bytes on the disk, and an unmap without a write leaves the bytes last written |
| `DiskCacheRefinement.TransferOutcome` | kern/src/diskcache/DiskCache_DoIO.c:235-307 | a transfer of a whole block without an error leaves block and disk with the same bytes, a read block with data and a written block clean; a short transfer or an error leaves a read block with an error and a dirty block dirty |
| `DiskCacheRuns.MissDelivers` | kern/src/diskcache/DiskCache_Session.c:211-304 | in every state in which a block is missing, a block can be created or recycled for it and no disk operation is under way, the map call can run to its end, and what it shows is what the disk holds |
| `DiskCacheRuns.FirstRead` | kern/src/diskcache/DiskCache_Session.c:21-54 | a new cache of at least one block, any medium and any block on it: opening and mapping is a good run that delivers the medium's bytes |
| `DiskCacheRuns.HitDelivers` | kern/src/diskcache/DiskCache_Session.c:211-304 | a cached block that nobody holds exclusively is handed out as it is, without the disk |
| `DiskCacheLoss.VictimBehind` | kern/src/diskcache/DiskCache.c:215-244 | a block that is recycled instead of a reusable one was used less recently, so using other blocks brings the reusable one closer to its end |
| `DiskCacheLoss.UseOther` | kern/src/diskcache/DiskCache_Session.c:211-304 | a map call on a missing block whose read fails: four steps by the rules that show nothing and leave the block in the cache, idle and without data |
| `DiskCacheLoss.Evicts` | kern/src/diskcache/DiskCache.c:215-311 | from every state without waiters and with a free disk operation, map calls on other blocks, whose reads fail, push a reusable block out of the cache, and its next reader gets what the disk holds |
| `DiskCacheLoss.Surfaces` | kern/src/diskcache/DiskCache_Session.c:211-363 | the same for a clean block that calls still wait for, read or have pinned: in a good run interrupted waits and unmaps get rid of them, and then a reader gets what the disk holds |
| `DiskCacheClients.LossExactly` | kern/src/diskcache/DiskCache_Session.c:307-363 | after every good run and for every step: whatever good run follows, all reads yield the bytes last written, if and only if the step is honest |
| `DiskCacheClients.PinnedSyncSeen` | kern/src/diskcache/DiskCache_DoIO.c:191-194 | for every medium, block and change there is a good run after which a sync write of the block, which is pinned, makes a later client read the old bytes |
| `DiskCacheClients.FailedWriteSeen` | kern/src/diskcache/DiskCache_DoIO.c:235-283 | the same for a sync write that fails, with anything else than the block's bytes left on the disk |
| `DiskCacheRecycled.WaiterGetsOther` | kern/src/diskcache/DiskCache.c:56-88 | in every state of a full cache in which a reader waits for the block that is recycled next and the disk is idle, a map call on a block that is not cached recycles it and gets its own bytes, and then the reader wakes up and is handed the same bytes for its own address |
| `DiskCacheRecycled.RecyclingMixesBlocks` | kern/src/diskcache/DiskCache.c:215-244 | on every medium with two blocks that differ, a good run from a new cache of one block leads to such a state, and the reads that follow are not those of the bytes last written |
| `DiskCacheRecency.LruIsOrderOfUse` | kern/src/diskcache/DiskCache.c:250-311 | after every run from a new cache, whatever drivers and clients did, the LRU chain lists the cached blocks, and it is strictly ordered by the step of the run in which a map call last got the block |
| `DiskCacheRecency.RecyclesOldest` | kern/src/diskcache/DiskCache.c:215-311 | after every run from a new cache, a map call gets the block that is cached for its address, else a new block while the cache is not full, else the one idle, clean and unpinned block whose last use is longest ago, with none of its old bytes; no other block changes |
| `DiskCacheRecency.WaitsForBlockExactly` | kern/src/diskcache/DiskCache.c:274-292 | a map call has to wait for a block if and only if its own is not cached, the cache is full and every block is in use, dirty or pinned |
| `DiskCacheRecency.BusyStays` | kern/src/diskcache/DiskCache.c:215-244 | no step of anybody takes a block that is in use, dirty or pinned away from its address |
| `DiskCacheTokens.TokensConserved` | kern/src/diskcache/DiskCache_Session.c:211-363 | the lock tokens on a session's blocks are its active mappings plus the calls that hold a lock but do not count as mapping |
| `DiskCacheTokens.ClosedSessionHoldsNothing` | kern/src/diskcache/DiskCache_Session.c:56-77 | a session that passes the close loop holds no lock if and only if none of its calls is in progress |
| `DiskCacheTokens.ReachableStates` | kern/src/diskcache/DiskCachePriv.h:65-92 | in every state that a fair run reaches: indexes agree, the dirty counter is exact, the lock and I/O rules hold, tokens are conserved |
| `DiskCacheStranded.StepKeepsStranded` | kern/src/diskcache/DiskCache_Session.c:56-77 | no step of anybody changes a dirty block of a closed session, or what the disk holds for it |
| `DiskCacheStranded.DirtyAtCloseStays` | kern/src/diskcache/DiskCache_Session.c:56-77 | a block that is dirty when its session is closed stays in the cache in every later fair run, is never written to the disk and never recycled |
| `DiskCacheStranded.NeverMapsAgain` | kern/src/diskcache/DiskCache.c:215-311 | once all blocks of a full cache are of that kind, no session can map a block in any later fair run |
| `DiskCacheStranded.CacheDies` | kern/src/diskcache/DiskCache_Session.c:56-77 | a good run of a cache of one block that ends there |
| `DiskCacheSync.FlushKeepsInv` | kern/src/diskcache/DiskCache_Session.c:129-144 | the four stages of flushing one block keep the invariant |
| `DiskCacheSync.FlushEnds` | kern/src/diskcache/DiskCache_Session.c:129-144 | locking, submitting, completing and finishing amount to one flush that changes this block and the disk only |
| `DiskCacheSync.SyncedFromAll` | kern/src/diskcache/DiskCache_Session.c:367-416 | walking the LRU chain once flushes every idle, unpinned dirty block of the session and leaves all other blocks alone |
| `DiskCacheSync.NothingToSync` | kern/src/diskcache/DiskCache_Session.c:367-416 | stopping because the dirty counter is zero leaves nothing to flush |
| `DiskCacheSync.SyncedLeavesOnlyFailures` | kern/src/diskcache/DiskCache_Session.c:367-416 | an idle, unpinned dirty block that is left after a sync is one whose write failed |
| `DiskCacheSync.SyncOutcome` | kern/src/diskcache/DiskCache_Session.c:367-416 | for every block, from its flags alone: a dirty block of the session that nobody uses and that is not pinned stays dirty if and only if the driver reports an error or a short transfer, and otherwise the disk holds its bytes; all other blocks, and what the disk holds for them, stay |
| `DiskCacheSync.StepGrows` | kern/src/diskcache/DiskCache.c:250-311 | every map call raises the generation of the LRU chain, no step lowers it, and no step removes a block |
| `DiskCacheSync.SyncNeverEnds` | kern/src/diskcache/DiskCache_Session.c:377-408 | once the LRU chain has changed under a sync, no pass is the last one in any fair run that follows |
| `DiskCacheObject.StepKeeps` | kern/src/diskcache/DiskCachePriv.h:65-92 | what the methods of the cache object promise: the invariant holds afterwards if and only if the environment kept its side, the plain store is kept if and only if the step was honest, and what is handed out is what was last written |
| `DiskCacheObject.DiskCache.LockBlockContent` | kern/src/diskcache/DiskCache.c:56-88 | takes the lock exactly if the mode allows it, otherwise the call waits and nothing changes |
| `DiskCacheObject.DiskCache.LookUp` | kern/src/diskcache/DiskCache.c:250-311 | the search loop computes the model's lookup |
| `DiskCacheObject.DiskCache.ReuseCachedBlock` | kern/src/diskcache/DiskCache.c:215-244 | the backward loop recycles the model's victim |
| `DiskCacheObject.DiskCache.GetBlock` | kern/src/diskcache/DiskCache.c:250-311 | looks up, creates or recycles as the model does, and leaves the block at the front of the LRU chain |
| `DiskCacheObject.DiskCache.OpenSession` | kern/src/diskcache/DiskCache_Session.c:21-54 | does the open step, and keeps the invariant if and only if no call uses the session |
| `DiskCacheObject.DiskCache.CloseSession` | kern/src/diskcache/DiskCache_Session.c:56-77 | closes exactly if no mapping is active, otherwise goes on waiting; keeps the invariant if and only if no call uses the session |
| `DiskCacheObject.DiskCache.MapBlock` | kern/src/diskcache/DiskCache_Session.c:211-304 | starts the call exactly if a block can be had, with ENODEV for a closed session, and takes the lock if it is free; keeps the invariant if and only if nobody waits for a block that is recycled; a block that is handed out for reading or updating holds the bytes last written for the address asked for, a cleared one holds zeros, and all but a read-only one are locked exclusively |
| `DiskCacheObject.DiskCache.MapBlockLocked` | kern/src/diskcache/DiskCache_Session.c:233-303 | after a wait: ends the call if the wait was interrupted, even if the lock is free by then; otherwise takes the lock in all four map modes or goes on waiting; a block that is handed out for reading or updating holds the bytes last written for the address of the call, and a cleared one holds zeros |
| `DiskCacheObject.DiskCache.UnmapBlock` | kern/src/diskcache/DiskCache_Session.c:307-363 | does the unmap step in all write modes, with ENODEV and ENXIO exactly where the code returns them; keeps the plain store if and only if the step is honest |
| `DiskCacheObject.DiskCache.SetPinned` | kern/src/diskcache/DiskCache_Session.c:169-209 | pins or unpins the block and keeps the invariant; faults exactly if the session is open and the block is not cached |
| `DiskCacheObject.DiskCache.StartIo` | kern/src/diskcache/DiskCache_DoIO.c:94-224 | submits the request, and ends the call if the driver refuses it; keeps the invariant if and only if the driver accepts |
| `DiskCacheObject.DiskCache.OnBlockRequestDone` | kern/src/diskcache/DiskCache_DoIO.c:235-283 | updates block and dirty counter as the model does |
| `DiskCacheObject.DiskCache.OnDiskOpDone` | kern/src/diskcache/DiskCache_DoIO.c:285-307 | completes the operation, short transfers included; keeps the plain store if and only if the step is honest |
| `DiskCacheObject.DiskCache.FinishIo` | kern/src/diskcache/DiskCache_Session.c:262-363 | ends a call after its I/O on success and on error; a map returns the error of its read, a write never returns that of its write; a block that is handed out after its read holds the bytes last written for the address of the call, shared for a read-only map and exclusive otherwise |
| `DiskCacheObject.DiskCache.SyncBlock` | kern/src/diskcache/DiskCache_Session.c:129-144 | the whole of lock, write, wait and unlock amounts to one flush |
| `DiskCacheObject.DiskCache.SyncPass` | kern/src/diskcache/DiskCache_Session.c:388-408 | the loop over the LRU chain is the last pass exactly if the chain is empty or has not changed, and flushes all of it then; otherwise it stops behind its first block |
| `DiskCacheObject.DiskCache.SyncSession` | kern/src/diskcache/DiskCache_Session.c:367-416 | after a sync every idle, unpinned block of the session is flushed or failed; other sessions' blocks are unchanged |
| `KeyMapSource.AddAndUniqueString` | dev/bin/keymap.c:515-536 | returns the index of the string and adds it only if the table does not have it; strings stay distinct |
| `KeyMapSource.BuildTable` | dev/bin/keymap.c:540-610 | every statement becomes a key that means what the statement says; every string of the table belongs to some statement |
| `KeyMapSource.SortStrict` | dev/bin/keymap.c:627-640 | sorting keys with distinct codes yields the same keys with strictly increasing codes |
| `KeyMapSource.SortSorts` | dev/bin/keymap.c:627-640 | sorting yields all keys in the order of their codes, also if codes are repeated |
| `KeyMapSource.CalculateKeyRanges` | dev/bin/keymap.c:632-672 | ranges are adjacent index intervals that cover every key once, of one type with consecutive codes, and maximal |
| `KeyMapSource.RangesDisjoint` | dev/bin/keymap.c:632-672 | at most one range matches any key code |
| `KeyMapCompiler.CompiledKeyMap.PatchLabeled16` | dev/bin/keymap.c:733-742 | patches every place that refers to the label and no other |
| `KeyMapCompiler.CompiledKeyMap.Write16` | dev/bin/keymap.c:764-770 | appends a value and returns where it was written, or ends the program if that is beyond 65535 |
| `KeyMapCompiler.CompiledKeyMap.WriteString` | dev/bin/keymap.c:778-785 | appends a string with its NUL, or ends the program |
| `KeyMapCompiler.PatchedAllAt` | dev/bin/keymap.c:733-742 | after patching a label, a byte is final exactly if a reference to the label covers it |
| `KeyMapCompiler.WriteRecords` | dev/bin/keymap.c:803-814 | all range records are written and all header slots are patched |
| `KeyMapCompiler.WriteTraps` | dev/bin/keymap.c:817-846 | all traps are written and all references to ranges are resolved |
| `KeyMapCompiler.WriteStrings` | dev/bin/keymap.c:849-854 | all strings are written and all references to strings are resolved |
| `KeyMapCompiler.CompileTables` | dev/bin/keymap.c:787-860 | the compiled bytes are the image that the layout describes; compiling fails exactly if a write would start beyond 65535 |
| `KeyMapImage.ImageRecord` | dev/bin/keymap.c:803-814 | the record of every range stands at its offset in the image |
| `KeyMapImage.ImageTrap` | dev/bin/keymap.c:817-846 | the trap of every key stands at its offset in the image |
| `KeyMapImage.ImageString` | dev/bin/keymap.c:849-854 | every string, with its NUL, stands at its offset in the image |
| `KeyMapInterpreter.SelectChar` | kern/src/console/KeyMap.c:44-72 | picks the character that modifiers, caps lock and control select |
| `KeyMapInterpreter.MapType0` | kern/src/console/KeyMap.c:44-72 | stores that character into the buffer and nothing else |
| `KeyMapInterpreter.MapType3` | kern/src/console/KeyMap.c:75-89 | copies the string up to its NUL or the limit and nothing else |
| `KeyMapInterpreter.Take` | kern/src/console/KeyMap.c:75-89 | what is copied is a prefix of the string, of the length of the string or the limit, whichever is less |
| `KeyMapInterpreter.Map` | kern/src/console/KeyMap.c:98-123 | finds the range and stores exactly the bytes that interpretation of the image yields; every read stays inside a well-formed image |
| `KeyMapInterpreter.IsValid` | kern/src/console/KeyMap.c:15-40 | accepts a map if and only if no string of it is longer than 16 bytes |
| `KeyMapMeaning.CompiledIsWellFormed` | dev/bin/keymap.c:787-860 | all offsets in a compiled image stay inside it |
| `KeyMapMeaning.CompiledIsValid` | kern/src/console/KeyMap.c:15-40 | the kernel accepts every compiled map |
| `KeyMapMeaning.CharAgrees` | kern/src/console/KeyMap.c:44-72 | the bit tricks on the modifier flags select the character that the modifiers stand for |
| `KeyMapMeaning.MapsChosen` | kern/src/console/KeyMap.c:98-123 | for every sorted table, with repeated codes or not, the kernel yields the bytes of the key that is counted from the start of the first range that has the code |
| `KeyMapMeaning.ChoosesByCodeExactly` | dev/bin/keymap.c:632-672 | every code yields a key of that code if and only if no range repeats a code in front of its last one |
| `KeyMapMeaning.RepeatedShifts` | dev/bin/keymap.c:632-672 | the table with the codes c, c, c + 1: the key behind the repeated one gets its meaning |
| `KeyMapMeaning.MeaningPreserved` | kern/src/console/KeyMap.c:98-123 | for every event, modifier combination and output limit, interpreting the compiled image yields what a direct lookup in a source with distinct codes yields |
| `KeyMapMeaning.CompileKeyMap` | dev/bin/keymap.c:921-949 | the whole tool: it fails exactly if a write would start beyond 65535, and otherwise writes the image of the tables, which is well-formed and means what the `.keys` file says if its codes are distinct |
| `KeyMapDecompiler.DecompileString` | dev/bin/keymap.c:1098-1117 | the loop reads up to 16 bytes in front of the NUL, or fails at the end of the data |
| `KeyMapDecompiler.DecompileKeyRange` | dev/bin/keymap.c:1119-1142 | lists the keys of a range; the first failure decides |
| `KeyMapDecompiler.DecompileKeyMap` | dev/bin/keymap.c:1144-1162 | lists the keys of all ranges; the first failure decides |
| `KeyMapDecompiler.ListsAll` | dev/bin/keymap.c:1144-1162 | an image shorter than 64k lists exactly its keys, in the order of their codes |
| `KeyMapDecompiler.DecompilesExactly` | dev/bin/keymap.c:956-1005 | decompiling inverts compiling if and only if the image is shorter than 64k; otherwise it fails |
| `KeyMapDecompiler.FullImageFails` | dev/bin/keymap.c:956-1005 | 16380 keys in one range compile to 65536 bytes, on which the decompiler fails |
| `KeyMapDecompiler.ListingIsSource` | dev/bin/keymap.c:1119-1162 | the listing has exactly the statements of the `.keys` file, sorted by code |
| `KeyMapDecompiler.RoundTrip` | dev/bin/keymap.c:921-1005 | decompiling what was compiled from a `.keys` file lists each of its statements once, in the order of the codes, if and only if the image is shorter than 64k |
| `Vt500Parser.Vt500.Reset` | kern/src/console/vt500parse.c:18-24 | back to ground with empty registers |
| `Vt500Parser.Vt500.DoParam` | kern/src/console/vt500parse.c:60-87 | adds a parameter character, or reports the 17th parameter |
| `Vt500Parser.Vt500.DoCollect` | kern/src/console/vt500parse.c:49-58 | collects up to two intermediate characters, then flags the sequence |
| `Vt500Parser.Vt500.DoAction` | kern/src/console/vt500parse.c:26-99 | does the action of the value model, callbacks included |
| `Vt500Parser.Vt500.DoTransition` | kern/src/console/vt500parse.c:109-130 | exit action, action and entry action in this order, then the new state |
| `Vt500Parser.Vt500.DoStateChange` | kern/src/console/vt500parse.c:101-135 | does the step that the state table gives; `StreamMeaning` says what these steps amount to |
| `Vt500Parser.Vt500.Parse` | kern/src/console/vt500parse.c:101-135 | a byte stream is parsed as the value model's run; array contents behind the counts do not matter |
| `Vt500Runs.AlikeRun` | kern/src/console/vt500parse.c:26-135 | parsers that agree on the state, and on the registers where these can still be seen, tell their clients the same for every input |
| `Vt500Runs.Resynchronises` | kern/src/console/vt500parse_table.c:43-2312 | after CAN, SUB, ESC or a C1 character, parsers in arbitrary states make identical callbacks with identical parameters and intermediates |
| `Vt500Runs.ResynchronisesExactly` | kern/src/console/vt500parse_table.c:43-2312 | a byte resynchronises any two parsers if and only if it is one of those |
| `Vt500Runs.Bracketed` | kern/src/console/vt500parse_table.c:2314-2346 | for every byte stream HOOK/UNHOOK and OSC_START/OSC_END alternate, PUT and OSC_PUT occur only inside, and printing, executing and dispatching only outside |
| `Vt500Runs.RegistersStayOk` | kern/src/console/vt500parse.c:49-87 | never more than 2 intermediate characters or 16 parameters, and parameters stay 16 bit values |
| `Vt500Csi.ReadExactly` | kern/src/console/vt500parse.c:60-87 | digits are read as the number they stand for if and only if it is below 32768 |
| `Vt500Csi.GivenAsMeant` | kern/src/console/vt500parse.c:60-87 | the parameters are those of the parameter string if and only if it does not start with a semicolon and every number is below 32768 |
| `Vt500Csi.LeadingSemicolonIsDropped` | kern/src/console/vt500parse.c:60-87 | `;7` is read as one parameter although it has two |
| `Vt500Csi.GivenAppend` | kern/src/console/vt500parse.c:60-87 | reading one character more extends the parameters as splitting at semicolons does |
| `Vt500Csi.ControlSequence` | kern/src/console/vt500parse_table.c:43-691 | from any state, a whole control sequence with control characters anywhere in it executes these and dispatches once, with its parameters and first two intermediates; it overruns the array exactly beyond 16 parameters |
| `Vt500Strings.TextRun` | kern/src/console/vt500parse_table.c:1826-1986 | in ground, every string of characters and C0 control characters calls back once for each byte, in order, with PRINT or EXECUTE, and stays in ground |
| `Vt500Strings.Aborting` | kern/src/console/vt500parse_table.c:43-2312 | from any state, CAN, SUB and the C1 characters that start nothing end an open string, are executed, and lead to ground |
| `Vt500Strings.EscapeSequence` | kern/src/console/vt500parse_table.c:1502-1824 | from any state, ESC, intermediate characters and a final character dispatch once, with the first two intermediates and no parameters; control characters in between are executed |
| `Vt500Strings.CsiSpelling` | kern/src/console/vt500parse_table.c:43-2312 | a control sequence means the same in its seven bit and in its eight bit spelling |
| `Vt500Strings.IllFormed` | kern/src/console/vt500parse_table.c:44-690 | a control sequence with a byte that does not belong where it stands dispatches nothing, executes its control characters, and ends at its final character |
| `Vt500Dcs.DeviceControl` | kern/src/console/vt500parse_table.c:692-1500 | from any state, a whole device control string hooks once with its parameters and first two intermediates, puts every data byte but DEL, unhooks, and ends in ground |
| `Vt500Dcs.IllFormedDcs` | kern/src/console/vt500parse_table.c:692-1338 | a device control string with a byte that does not belong in front of its data calls nobody back |
| `Vt500Dcs.OscSequence` | kern/src/console/vt500parse_table.c:1988-2148 | from any state, a whole operating system command calls back OSC_START, OSC_PUT for every byte but control characters, and OSC_END |
| `Vt500Dcs.SilentString` | kern/src/console/vt500parse_table.c:2150-2310 | nobody is told what is in a start of string, privacy message or application program command |
| `Vt500Grammar.StreamMeaning` | kern/src/console/vt500parse_table.c:43-2346 | any stream of text, control characters, sequences and strings, well-formed or not and in either spelling, calls back what these mean, one after the other, and nothing else |
| `ConsolePlane.PatchedRows` | kern/src/console/Console_Video.c:189-241 | a write inside of a row of the plane changes these bytes of that row only |
| `ConsolePlane.DrawGlyphPlane` | kern/src/console/Console_Video.c:193-240 | the eight stores put the glyph, its complement, ones or zeros into the cell and nowhere else |
| `ConsolePlane.FillPlane` | kern/src/console/Console_Video.c:329-338 | the loop of `memset` calls fills exactly the rows and bytes of the rectangle |
| `ConsolePlane.CopyPlane` | kern/src/console/Console_Video.c:288-306 | the loop of `memmove` calls copies the rows one after the other, in place |
| `ConsolePlane.InPlaceIsAtOnce` | kern/src/console/Console_Video.c:288-306 | copying in place is copying at once if the rows do not move down, or do not overlap |
| `ConsolePlane.DownwardRow` | kern/src/console/Console_Video.c:288-306 | copying down hands on what was copied before |
| `ConsolePlane.InPlaceExactly` | kern/src/console/Console_Video.c:288-306 | copying in place is copying at once if and only if rows do not move down, or every row that is read after it was overwritten holds the bytes it was overwritten with |
| `ConsoleScreen.GlyphPixels` | kern/src/console/Console_Video.c:189-241 | decoded across the planes, each pixel of the cell has the foreground index where the glyph has a bit and the background index elsewhere; all other pixels keep their index |
| `ConsoleRects.FastFillRefines` | kern/src/console/Console_Video.c:311-351 | filling a rectangle with spaces the fast way equals drawing the blank glyph in every cell |
| `ConsoleRects.FilledRectAt` | kern/src/console/Console_Video.c:311-351 | a fill shows the character in every cell of the clipped rectangle and leaves the rest |
| `ConsoleRects.CopiedRectAt` | kern/src/console/Console_Video.c:263-307 | copying a rectangle to a place that is not lower equals a simultaneous copy, clipped at the right and bottom edge |
| `ConsoleRects.ClippedCopy` | kern/src/console/Console_Video.c:265-303 | clipping both rectangles and computing offsets and width yields the copy that is meant |
| `ConsoleRects.CopiedOntoItself` | kern/src/console/Console_Video.c:271-273 | the early return skips only copies that change nothing |
| `ConsoleRects.ClippedCopiedAt` | kern/src/console/Console_Video.c:263-307 | for any two rectangles, a copy that is not downwards moves cells by the offset of the clipped rectangles, inside of both |
| `ConsoleRects.ClippedInBounds` | kern/src/console/Console_Video.c:263-307 | a source on the screen and a destination that starts on it are copied as they are |
| `ConsoleRects.ScrollsUp` | kern/src/console/Console.c:206-253 | scrolling by n lines moves every line up by n and moves in blank lines |
| `ConsoleScroll.ScrollsBy` | kern/src/console/Console.c:206-253 | what every cell shows after scrolling in any direction by any distance: a blank, the cell it is meant to show, or the cell that the copy handed on several times |
| `ConsoleScroll.ScrollsAtOnceExactly` | kern/src/console/Console.c:206-253 | scrolling moves the cells of every screen to where they are meant to go if and only if it does not scroll down, or by half of the lines or columns at least |
| `ConsoleScroll.ScrollsDown` | kern/src/console/Console.c:206-253 | scrolling down by n lines shows line y mod n in line y from line n on |
| `ConsoleText.WrappedText` | kern/src/console/Console.c:440-449 | from a cleared screen with auto-wrap, any text leaves its last lines on the screen, wrapped at the right edge, and the cursor at n mod W, min(n div W, H-1) |
| `ConsoleText.ClearedShowsNothing` | kern/src/console/Console.c:258-280 | clearing the screen leaves the empty text |
| `ConsoleCursor.CursorLands` | kern/src/console/Console.c:335-394 | for every mode and distance: clamping and scrolling go to the nearest column, clamping to the nearest line without a change to the screen, wrapping to the column or to the start of the line, or of the next line beyond the right edge; otherwise the nearest line is taken and the screen is scrolled by exactly the lines that the target lies beyond the edge |
| `ConsoleCursor.LineFeed` | kern/src/console/Console.c:463-466 | a line feed goes to the start of the next line; at the bottom all lines move up by one and a blank line comes in |
| `ConsoleCursor.ReverseIndex` | kern/src/console/Console_VT100.c:505-508 | a reverse index goes up by one line; at the top the first line is blanked and all other lines show what it showed |
| `ConsoleCursor.CharIsPlaced` | kern/src/console/Console.c:440-449 | the character is drawn at the cursor; in insertion mode each cell behind it shows what the cell to its left did, so that the last one is lost; no other cell changes |
| `ConsoleCursor.BytePrints` | kern/src/console/Console.c:440-449 | the same on values: where the cursor goes and what the screen shows after one character, with and without auto-wrap and insertion |
| `ConsolePixels.CharPixels` | kern/src/console/Console_Video.c:243-259 | every pixel of the framebuffer after drawing a character anywhere: reverse exchanges the two colors, hidden shows the paper color only, and pixels outside of the cell or of the screen keep theirs |
| `ConsolePixels.FillPixel` | kern/src/console/Console_Video.c:311-351 | every pixel after a fill, with the two colors of the style |
| `ConsolePixels.ShownPixel` | kern/src/console/Console_Video.c:189-241 | a cell that shows a character has its glyph in the two colors of the style, exchanged by reverse |
| `ConsoleObject.TextConsole.constructor` | kern/src/console/Console.c:119-152 | a console on a mapped framebuffer starts in the top left corner with auto-wrap |
| `ConsoleObject.TextConsole.DrawGlyph` | kern/src/console/Console_Video.c:189-241 | draws the glyph in all planes |
| `ConsoleObject.TextConsole.DrawChar` | kern/src/console/Console_Video.c:243-259 | every pixel is that of the character, reversed or hidden if the style says so, or keeps its color |
| `ConsoleObject.TextConsole.CopyRect` | kern/src/console/Console_Video.c:263-307 | clips any two rectangles and copies as the specification says; faults exactly if rows are copied with a negative width |
| `ConsoleObject.TextConsole.FillRect` | kern/src/console/Console_Video.c:311-351 | fast path, glyph loop and ignored control characters fill as the specification says; faults exactly if rows are filled with a negative width |
| `ConsoleObject.TextConsole.ScrollBy` | kern/src/console/Console.c:206-253 | copies, clears lines and clears columns, or clears everything; the bit planes then show in every cell what `ScrollsBy` says |
| `ConsoleObject.TextConsole.ClearScreen` | kern/src/console/Console.c:258-280 | clears the whole screen |
| `ConsoleObject.TextConsole.MoveCursor` | kern/src/console/Console.c:335-394 | in the bit planes: the cursor and the screen are where `CursorLands` says, for every mode and distance |
| `ConsoleObject.TextConsole.LineFeed` | kern/src/console/Console.c:463-466 | the same for a line feed |
| `ConsoleObject.TextConsole.ReverseIndex` | kern/src/console/Console_VT100.c:505-508 | the same for a reverse index |
| `ConsoleObject.TextConsole.PlaceChar` | kern/src/console/Console.c:440-447 | the same for a character at the cursor, inserted or not |
| `ConsoleObject.TextConsole.PrintByte` | kern/src/console/Console.c:440-449 | the character is placed, inserted or not, and the cursor moves right; in the last column it stays there without auto-wrap and feeds a line with it |
| `ConsoleObject.TextConsole.PrintPage` | kern/src/console/Console.c:440-449 | text on a cleared screen appears wrapped in the bit planes |
| `RingBuffer.CBuf.Empty` | kern/h/kern/cbuf.h:41-42 | the indices are equal exactly if nothing is stored |
| `RingBuffer.CBuf.Readable` | kern/h/kern/cbuf.h:46-47 | the difference of the indices is the number of stored bytes, also after they wrapped around |
| `RingBuffer.CBuf.Writable` | kern/h/kern/cbuf.h:51-52 | the rest of the capacity |
| `RingBuffer.CBuf.Get` | kern/h/kern/cbuf.h:79-86 | takes the oldest byte, or nothing from an empty buffer |
| `RingBuffer.CBuf.Puts` | kern/src/kernlib/cbuf.c:50-65 | appends as many bytes as fit and loses none of the stored ones |
| `ReportQueue.SurplusIsLeast` | kern/src/console/Console.c:413-430 | posting drops enough of the oldest messages and not one more |
| `ReportQueue.ReadConserves` | kern/src/console/Console.c:518-557 | a read of any size returns the bytes of the messages it takes off the queue, up to the rest that stays pending |
| `ReportQueue.StreamIsIntact` | kern/src/console/Console.c:613-637 | over any interleaving of posts and reads of any size, the delivered bytes are whole messages in posting order and only whole, oldest queued messages are dropped |
| `ConsoleReports.ReportBuffer.PostReport` | kern/src/console/Console.c:413-430 | drops whole messages and queues the new one as the specification says |
| `ConsoleReports.ReportBuffer.FetchMessage` | kern/src/console/Console.c:518-540 | moves exactly the oldest message into the character buffer |
| `ConsoleReports.ReportBuffer.ReadReports` | kern/src/console/Console.c:518-557 | the nested loops read as the specification says |
| `ConsoleReports.ReportBuffer.ReadBytes` | kern/src/console/Console.c:613-637 | pending bytes first, then reports, as the specification says |
| `RamContainer.Container.Map` | dev/diskimage/RamContainer.c:90-127 | marks the block as mapped, returns its token and data, and clears it only if asked to; faults exactly if the block is mapped already or does not exist |
| `RamContainer.Container.Unmap` | dev/diskimage/RamContainer.c:134-171 | unmaps the block of the token and widens the written range only for writes; nothing for token zero, ENXIO for a write to a block that does not exist, and a fault for an unmap without a write of such a block |
| `RamContainer.BlockOf` | dev/diskimage/RamContainer.c:173-177 | block index and offset in the block stand for the offset, and the block exists |
| `RamContainer.Container.Read` | dev/diskimage/RamContainer.c:179-248 | returns exactly the available slice, the error code of each bad request, and leaves disk and flags alone |
| `RamContainer.Container.Write` | dev/diskimage/RamContainer.c:250-321 | changes exactly the available slice, reports its length, unmaps all blocks and records the first and last block written |
| `RamContainer.Container.WipeDisk` | dev/diskimage/RamContainer.c:323-331 | all bytes are zero and all blocks count as written, with the wrapped number for a container without blocks |
| `SefsFormat.MarkBlocks` | dev/diskimage/sefs_init.c:95-113 | a bitmap block has its first bits set up to the limit and no others |
| `SefsFormat.Format` | dev/diskimage/sefs_init.c:33-154 | rejects bad parameters with the code's errors, writes the planned blocks in order, and stops at the first failed write with its error |
| `SefsFormat.AcceptsExactly` | dev/diskimage/sefs_init.c:38-49 | parameters are accepted if and only if the block size is a power of two from 512 on, there are 4 blocks at least and the label has 48 characters at most |
| `SefsFormat.InsideVolume` | dev/diskimage/sefs_init.c:69-72 | everything that is written lies inside of the volume |
| `SefsFormat.MarksInUse` | dev/diskimage/sefs_init.c:95-113 | read from where the header says, the bitmap marks a block if and only if it is one of those written and counted in the first bitmap block |
| `SefsFormat.FormattedVolume` | dev/diskimage/sefs_init.c:69-149 | the written blocks are 0 up to bitmap + 2, each once and inside of the volume; the bitmap is right if and only if 3 + bitmap blocks fit into the bits of one block |
| `SefsFormat.LargeVolume` | dev/diskimage/sefs_init.c:95-113 | a volume of 2^25 blocks of 512 bytes is formatted with a wrong bitmap |
| `SefsMount.LoadBitmap` | kern/src/filesystem/serenafs/SfsAllocator.c:28-67 | reads the bitmap blocks from where the header says into memory, one behind the other, and fails exactly if one of them cannot be read |
| `SefsMount.Mount` | kern/src/filesystem/serenafs/SerenaFS.c:43-117 | mounts exactly the volumes that pass the checks of the code, with the root directory and the bitmap that the header points to |
| `SefsMount.FormatAndMount` | dev/diskimage/sefs_init.c:33-154 | mounting what was formatted finds the size and label that were asked for, an inode with its own id as root directory, which is its own parent and holds exactly `.` and `..`, and the bits of exactly the blocks written, as far as one bitmap block counts them, if and only if blocks have at most 65535 bytes and their number has 32 bits |

## Left out

- Cluster read-ahead, prefetch and asynchronous I/O of the disk cache: a read operation fills one block and every call waits for its I/O.
- Disk blocks are identified by session and lba. Two sessions on the same disk are two disjoint media.
- The contents of a block are one value, whatever its length.
- Block sizes that are not a multiple of the sector size, and padding of the last block.
- The upgrade of a shared block lock, which no call uses.
- `DiskCacheObject.DiskCache.SyncSession`: assumes that no other call changes the LRU chain meanwhile; once one does, the sync does not end (`SyncNeverEnds`). The generation does not wrap around.
- `DiskCacheObject.DiskCache.UnmapBlock`: takes the mapped block itself instead of the token that encodes its address.
- `KeyMapSource.SortSorts`: the library's sort is an insertion sort here; with distinct codes the result is the same, and with repeated codes the order among these is this one's.
- Lexing and parsing of `.keys` files, printing of listings, file I/O and growth of buffers in the key map tool.
- `KeyMapDecompiler.DecompileKeyMap`: lists keys as values, not as text.
- A parser callback that resets or switches the parser, and the VT52 parser.
- What a client of the parser does with control sequences, apart from printing, line feed and reverse index.
- `Vt500Parser.Vt500.DoParam`: ends the model at the 17th parameter, which the code writes behind the array.
- Tab stops, insertion and deletion of lines, partial clearing of the screen, the cursor sprite.
- Key events in `Console_Read`; only the path of pending bytes and reports is modelled.
- Loading and saving of image files, and allocation failures of the disk image tool.
- `SefsFormat.FormattedVolume`: volumes of less than 2^32 blocks; the header cannot describe more (`FormatAndMount`).
- `SefsFormat.Format`: header, inode and directory are records; their byte layout, times, owner and permissions are left out.
