# knet and its lock-step demo, modelled and proved

A Dafny model of the parts of the knet game-network engine, its lock-step demo and the protobuf
runtime the demo links that hold the hardest properties, with machine-checked proofs.
`dafny verify dfyconfig.toml` checks everything.

| files | what they model |
|---|---|
| `ArenaModel`, `ArenaInvariant`, `ArenaMemory`, `ArenaSteps`, `ArenaRuns`, `ArenaSizes`, `ArenaCleanups`, `ArenaSlots`, `ArenaLists` | the arena allocator of `arena.cc`, as a state machine over the steps of any number of threads, and its walks over linked lists as loops |
| `SymbolNames`, `DescriptorIndex` | the prefix index of `descriptor_database.cc` |
| `PoolTables` | the descriptor pool's tables with nested checkpoints |
| `PublicImports`, `SymbolLookup` | public imports and scoped name resolution in `descriptor.cc` |
| `LazyNames`, `Oneofs` | the lazily completed name index and the linking of oneofs |
| `Wire`, `WireLaws`, `WireBytes`, `PlayerValues`, `PlayerRoundTrip`, `PlayerConcat`, `PlayerFields`, `PlayerSizes`, `PlayerReparse` | the wire format of Protocol Buffers (Encoding guide, sections "Base 128 Varints", "Message Structure", "Packed Repeated Fields", "Last One Wins") and the lock-step messages as values |
| `CodedStreams`, `OutputStreams`, `PlayerMessages`, `PlayerSights` | the streams and the generated classes of `player.pb.cc`, proved against that format |
| `Semaphores`, `TaskServices` | the semaphore and the task service with its shutdown, as atomic steps |
| `MemoryPools` | the block pools and the size-class manager |
| `LockStepServer`, `LockStepRuns`, `LockStepClient`, `LockStepPlay`, `LockStepEvents` | the server `World.cpp`; the client of `Main.cs`, `PlayerManager.cs` and `Player.cs`; both together |
| `Options`, `Numbers`, `Lists` | an optional value; bounds of machine numbers; linked lists spelled out as sequences |

Concurrent code is a state machine: a run is any sequence of enabled steps of any threads, so a
statement about runs is a statement about every interleaving. Code that updates objects in place
is classes and methods with loops, each tied to a function of the old state, and the properties
are proved of those functions.

## What the code turned out to do

- `AddSymbol` steps past the first key when every key is greater than the new name, so a first key
  under the new name goes unnoticed (`descriptor_database.cc:121-126`). The stated invariant then
  fails and later lookups miss names (`HiddenChildBreaksLookup`). The exact condition is proved, for
  one call and for runs.
- A length prefix that runs past the end of the enclosing message is not refused:
  `PushLimit` keeps the enclosing limit (`coded_stream.cc:115-132`). Such an encoding parses, but
  swallows what is put after it (`CutShortAccepted`, `CutShortSwallows`), so "concatenation merges"
  holds exactly for encodings whose prefixes fit; all encodings the serializers write do.
- The frame-init reply carries the id of the frame already turned, so a client that logs in after
  the first turn waits for a frame that never comes, drops the first one it is sent and is in step
  from the next (`Player.cs:132-133`, `World.cpp:226-241`, `MissesAFrame`).
- A player object adds its listeners in `Start`, while one update hands out all queued messages
  (`Player.cs:39-44`, `C_TcpClient.cs:373-386`). What arrives between an object's making and its
  start reaches it never: a client that logged in before the first turn can lose that frame and the
  next (`StartsLate`). `ClientRunsStretch` says what is run in every case.
- Every login sends the list of all ids to every client, and the client shows the whole list to the
  object of the first id, which goes through all the ids and keeps the last (`Main.cs:88-95`,
  `Player.cs:82-87`). So the client listed first sends its keys under the last id listed, and the
  keys count for that user (`FirstClientTakesSecondId`); `CreditedName` says, over runs, which id a
  client goes under. A client listed later keeps its id but gets a second object, which holds and
  sends every key a second time (`SecondClientDoubled`); this happens exactly when a list starts with
  an id the client has not been told before (`OneObjectIff`).
- The final loop of the task worker runs the buffer without emptying it, so a restart runs those
  tasks again (`cell_task.cpp:75-76`, `RestartRunsTaskAgain`); a `Close` before the first `Start`
  runs nothing.
- The user-id counter wraps: login number 2^32 gets id 0, which the server reads as "not logged in",
  so the session can log in again and would be welcomed twice (`LoginGetsId`, `IdZeroGiven`).
- An initial arena block of 40 to 71 bytes passes the constructor's check, and the thread record is
  then written past its end (`arena_impl.h:85-88`, `arena.cc:72-79`, `InitFitsIff`).

## Model

| member | source | states |
|---|---|---|
| `ArenaRuns.RegionsNeverOverlap` | NetEngine/Src/google/protobuf/arena.cc:106-244 | in every state of every interleaving of threads, each region handed out (user memory, thread record, cleanup chunk) starts at a multiple of 8 in a block of the arena, past its 40-byte header and inside the block, and shares no byte with any other; what a chunk's region holds is ArenaSlots.ChunkHoldsItsNodes |
| `ArenaSlots.ChunkHoldsItsNodes` | NetEngine/Src/google/protobuf/arena.cc:138-167 | in every reachable state, each 16-byte slot of each cleanup chunk, at 24 + 16k bytes from its start, lies inside the region handed out for that chunk, which is 24 bytes and 16 a slot long, and shares no byte with any other region |
| `ArenaSlots.NodesApart` | NetEngine/Src/google/protobuf/arena_impl.h:115-131 | in every reachable state, no two cleanup nodes, of one chunk or of two, share a byte |
| `ArenaSlots.ChunkCapacities` | NetEngine/Src/google/protobuf/arena.cc:138-154 | in every reachable state, the chunks of a thread, oldest first, have room for 8, 16, 32 and then 64 nodes, and all but the newest are full |
| `ArenaSlots.ChunkAnswered` | NetEngine/Src/google/protobuf/arena.cc:138-154 | a new chunk takes exactly 24 + 16n bytes from the front of the free space of the caller's own block, holds the one cleanup asked for, is linked to the chunk before and becomes the caller's newest |
| `ArenaSlots.AddNodeAnswers` | NetEngine/Src/google/protobuf/arena.cc:156-167 | a cleanup goes into the next slot of the newest chunk when one is left; otherwise a chunk of 8 slots, or of twice as many as the newest up to 64, is wanted, from the block at hand exactly when it has 24 + 16n bytes |
| `ArenaSlots.CheckAnswers` | NetEngine/Src/google/protobuf/arena.cc:190-214 | the cached block is used exactly when its lifecycle id is the arena's and it has the bytes asked for; otherwise the hint's block when it is the caller's own and has them; otherwise a further block, or a search when neither names a block of the caller |
| `ArenaSlots.GrowAnswers` | NetEngine/Src/google/protobuf/arena.cc:216-245 | the newest block is used when it has the bytes asked for, and otherwise a block of twice its size, at most the limit but never less than 40 bytes and those asked for, is put before it; either becomes the cached block, under the current lifecycle id, and the hint |
| `ArenaSlots.FindAnswers` | NetEngine/Src/google/protobuf/arena.cc:319-348 | a thread without a record gets a first block of the starting size, but never less than 72 bytes and those asked for, with its 32-byte record at offset 40 |
| `ArenaRuns.BlockFoundIsOwn` | NetEngine/Src/google/protobuf/arena.cc:190-245 | in every reachable state, the block a thread got from its cache, the hint or the slow path is of the arena's current incarnation, owned by that thread, with at least the bytes asked for: n for a request of n bytes, 24 and 16 a node for a chunk |
| `ArenaRuns.CachesNeverStale` | NetEngine/Src/google/protobuf/arena_impl.h:197-204 | in every reachable state, a thread cache with the arena's lifecycle id names a block of that thread in the current incarnation; the hint, when set, names one of the arena's blocks; caches left by a reset or by another arena never match |
| `ArenaRuns.StepKeepsInv` | NetEngine/Src/google/protobuf/arena.cc:67-360 | every enabled step of every thread finds the block, record and chunk it reads and keeps ownership, the linked lists, disjoint regions, chunk capacities, registrations and accounts |
| `ArenaRuns.RunKeepsInv` | NetEngine/Src/google/protobuf/arena.cc:67-360 | the invariant holds in every state of every run from initialisation, and no step of a run misses the memory it needs |
| `ArenaRuns.InitEstablishesInv` | NetEngine/Src/google/protobuf/arena.cc:67-87 | initialising or resetting with no thread inside a call leaves an empty arena under a new lifecycle id that no old cache matches, or one with the caller owning the initial block; its memory is well formed exactly when an initial block has room for its header and a thread record |
| `ArenaRuns.OnlyResetForgets` | NetEngine/Src/google/protobuf/arena.cc:96-104 | no step but a reset takes back a region or changes the size of a block |
| `ArenaRuns.RequestAnswered` | NetEngine/Src/google/protobuf/arena.cc:173-188 | a request is answered with exactly one new region of as many bytes as asked for, in a block of the caller's own, and a cleanup asked for with it is for that address |
| `ArenaSizes.NextBlockSize` | NetEngine/Src/google/protobuf/arena.cc:106-123 | when a thread whose newest block is too full gets another, the new head of its list is linked to the old one and is as large as the double of its size or the limit, whichever is smaller, and larger only when it is exactly what the request needs |
| `ArenaSizes.BlockSizesBounded` | NetEngine/Src/google/protobuf/arena.cc:106-123 | in every reachable state each block of a thread is at least twice the one made before it, or at the limit; no block is larger than the limit, the configured sizes or what one request needs |
| `ArenaRuns.InitFitsIff` | NetEngine/Src/google/protobuf/arena.cc:67-87 | after initialisation every block's contents end inside it exactly when an initial block has the 72 bytes for its header and a thread record; the constructor's check asks for the header only |
| `ArenaRuns.RegisteredOnce` | NetEngine/Src/google/protobuf/arena.cc:138-188 | a cleanup is added to its thread's registrations exactly once, by the step that ends its call, whether a slot was free, a chunk was opened in place or a new block was needed |
| `ArenaCleanups.RegisteredIsAsked` | NetEngine/Src/google/protobuf/arena.cc:138-188 | in every state of every run, the cleanups registered for a thread, with the one its call in progress may still register, are exactly those its calls asked for since the last reset, in order; between calls nothing is pending |
| `ArenaRuns.CapacitySequence` | NetEngine/Src/google/protobuf/arena.cc:138-154 | cleanup chunks grow 8, 16, 32, then 64 for ever |
| `ArenaMemory.AllocKeepsMemory` | NetEngine/Src/google/protobuf/arena.cc:216-228 | carving an aligned piece off a block with room keeps every block, list, region, chunk and total as they should be |
| `ArenaMemory.FirstBlockKeepsMemory` | NetEngine/Src/google/protobuf/arena.cc:319-348 | a thread's first block, with its record at the front, keeps memory well formed |
| `ArenaMemory.PushBlockKeepsMemory` | NetEngine/Src/google/protobuf/arena.cc:234-241 | a further block at the head of a thread's list keeps memory well formed |
| `ArenaMemory.PushChunkKeepsMemory` | NetEngine/Src/google/protobuf/arena.cc:138-154 | opening a chunk of the next capacity keeps memory well formed, with the registered cleanups, in order, the contents of the chunk list; the bytes it takes are in ArenaSlots.ChunkAnswered |
| `ArenaMemory.AppendNodeKeepsMemory` | NetEngine/Src/google/protobuf/arena.cc:156-167 | filling the next slot of the newest chunk appends exactly that cleanup and leaves other threads' chunks alone |
| `ArenaMemory.NextChunkSizeIsCapacity` | NetEngine/Src/google/protobuf/arena.cc:138-141 | the doubling rule, started from the newest chunk, gives the capacity due at that place of the list |
| `ArenaSteps.PublishKeepsInv` | NetEngine/Src/google/protobuf/arena.cc:342-360 | a successful compare-and-swap puts the record at the front of the shared list: what its link was set to is still the head |
| `ArenaSteps.LoadKeepsInv` | NetEngine/Src/google/protobuf/arena.cc:352-354 | linking an unpublished record to the head just read leaves the shared list and everything else as it was |
| `ArenaSteps.CheckFinds` | NetEngine/Src/google/protobuf/arena.cc:190-214 | each fast path returns only a block of the thread's own with enough room, and otherwise goes on from the thread's own record |
| `ArenaSteps.SearchFinds` | NetEngine/Src/google/protobuf/arena.cc:330-340 | a thread has a record exactly when the shared list holds it |
| `ArenaLists.FindThreadInfo` | NetEngine/Src/google/protobuf/arena.cc:330-340 | the walk returns the caller's record exactly when it is on the list |
| `ArenaLists.SpaceUsed` | NetEngine/Src/google/protobuf/arena.cc:251-265 | the walk, with 64-bit wrap-around, adds up the bytes handed out, thread records not counted, when no thread is inside a call |
| `ArenaLists.BlocksUsed` | NetEngine/Src/google/protobuf/arena.cc:259-261 | the inner walk adds the used bytes of one thread's blocks, modulo 2^64 |
| `ArenaLists.CleanupThread` | NetEngine/Src/google/protobuf/arena.cc:308-315 | one thread's cleanups run in reverse order of registration, across all its chunks |
| `ArenaLists.ReversedAt` | NetEngine/Src/google/protobuf/arena.cc:308-315 | reverse order: what runs k-th was registered k-th from the end |
| `ArenaLists.CleanupList` | NetEngine/Src/google/protobuf/arena.cc:300-317 | every published thread's cleanups run, each thread's in reverse order of registration |
| `ArenaLists.FreeThread` | NetEngine/Src/google/protobuf/arena.cc:276-295 | all blocks of one thread are given back but the user's, and their sizes added up |
| `ArenaLists.FreeBlocks` | NetEngine/Src/google/protobuf/arena.cc:267-298 | all blocks of all published threads are given back but the user's, and their sizes added up |
| `ArenaLists.QuiescentTotals` | NetEngine/Src/google/protobuf/arena.cc:247-265 | with no thread inside a call, the listed blocks' sizes are the space allocated and their used bytes are the bytes handed out |
| `ArenaLists.ResetArena` | NetEngine/Src/google/protobuf/arena.cc:96-104 | a reset runs every registered cleanup exactly once, gives every block but the user's back exactly once, returns the space that was allocated and starts over |
| `DescriptorIndexes.ProbeIsLinearSearch` | NetEngine/Src/google/protobuf/descriptor_database.h:197-246 | with valid keys none of which is a sub-symbol of another, looking at one predecessor equals searching every key |
| `DescriptorIndexes.ProbeCompleteIffPrefixFree` | NetEngine/Src/google/protobuf/descriptor_database.h:197-246 | the one-probe lookup finds every valid symbol name that a key covers exactly when the index is prefix-free |
| `DescriptorIndexes.MissedName` | NetEngine/Src/google/protobuf/descriptor_database.h:197-246 | when keys lie under another, the last of them with "0" appended is a valid name that the upper key covers and the probe misses |
| `DescriptorIndexes.SomeNameMissed` | NetEngine/Src/google/protobuf/descriptor_database.h:197-246 | an index that is not prefix-free misses some valid name that a key covers |
| `DescriptorIndexes.InsertionTestMeans` | NetEngine/Src/google/protobuf/descriptor_database.cc:101-128 | the two neighbours looked at decide: a name passes exactly when no key is its parent, equal or under it, or when the only such key hides at the very front |
| `DescriptorIndexes.InsertedPrefixFree` | NetEngine/Src/google/protobuf/descriptor_database.cc:130-134 | an insertion keeps the index prefix-free exactly when the name conflicts with no key |
| `DescriptorIndexes.InsertedKeepsOrder` | NetEngine/Src/google/protobuf/descriptor_database.cc:130-134 | an insertion at the place found keeps the keys sorted and valid |
| `DescriptorIndexes.AcceptsMeans` | NetEngine/Src/google/protobuf/descriptor_database.cc:87-137 | what AddSymbol accepts, and that what it accepts keeps the index prefix-free unless it hides a child |
| `DescriptorIndexes.RunKeepsLookupsRight` | NetEngine/Src/google/protobuf/descriptor_database.cc:87-137 | over every run of additions to a prefix-free index, lookups find every valid name that a key covers exactly when no accepted name was put before all keys with one of them under it |
| `DescriptorIndexes.HiddenChildBreaksLookup` | NetEngine/Src/google/protobuf/descriptor_database.cc:121-126 | adding "a.b" and then "a" is accepted, and the lookup of "a.c" fails |
| `DescriptorIndexes.DescriptorIndex.FindLastLessOrEqual` | NetEngine/Src/google/protobuf/descriptor_database.cc:217-228 | the last key not greater than the name, or the first key when all are greater, or the end of an empty index |
| `DescriptorIndexes.DescriptorIndex.FindSymbol` | NetEngine/Src/google/protobuf/descriptor_database.cc:183-190 | by one probe, the value of a key that is the name or, with a dot, a prefix of it; with the invariant, nothing exactly when there is no such key |
| `DescriptorIndexes.DescriptorIndex.AddSymbol` | NetEngine/Src/google/protobuf/descriptor_database.cc:87-137 | accepts exactly as stated (into an empty index, exactly names of letters, digits, underscores and dots), inserts at the place found or changes nothing, and the index stays prefix-free unless a hidden child was accepted |
| `SymbolNames.BetweenParentAndChild` | NetEngine/Src/google/protobuf/descriptor_database.h:205-240 | any valid name sorted between a name and a sub-symbol of it is itself a sub-symbol of it |
| `SymbolNames.SubSymbolTransitive` | NetEngine/Src/google/protobuf/descriptor_database.cc:229-235 | a sub-symbol of a sub-symbol is a sub-symbol |
| `PoolTables.RunRefinesCopies` | NetEngine/Src/google/protobuf/descriptor.cc:856-921 | every nested run of checkpoints, clears, rollbacks and additions over logs behaves as a stack of full copies of the tables, and no key is left pointing at a freed string |
| `PoolTables.RollbackRestores` | NetEngine/Src/google/protobuf/descriptor.cc:856-921 | a rollback restores the three maps and the allocation lists exactly to the matching checkpoint, whatever inner checkpoints were opened, cleared or rolled back since |
| `PoolTables.FirstStandingWins` | NetEngine/Src/google/protobuf/descriptor.cc:856-921 | over every run of a new pool with nested checkpoints, a name is in the table exactly when a symbol was added under it and not rolled back since, and maps to the first such symbol; the same for files and extensions; the lists and the live strings are exactly the allocations not rolled back, in order |
| `PoolTables.StepRefinesCopies` | NetEngine/Src/google/protobuf/descriptor.cc:856-921 | on the abstract stack of copies a checkpoint pushes a copy, a clear drops one, a rollback takes one back, and an addition changes the current copy only; what additions add is PoolTables.FirstStandingWins |
| `PoolTables.RunKeepsUndo` | NetEngine/Src/google/protobuf/descriptor.cc:872-921 | no run that stays inside a checkpoint changes what undoing to it gives |
| `PoolTables.UndoTwice` | NetEngine/Src/google/protobuf/descriptor.cc:872-921 | undoing to an inner checkpoint and then to an outer one equals undoing to the outer one |
| `PoolTables.Tables.AddCheckpoint` | NetEngine/Src/google/protobuf/descriptor.cc:856-858 | pushes the eight sizes of now, and changes nothing else |
| `PoolTables.Tables.ClearLastCheckpoint` | NetEngine/Src/google/protobuf/descriptor.cc:860-870 | pops the last checkpoint; the logs are dropped with the last one only; nothing else changes |
| `PoolTables.Tables.RollbackToLastCheckpoint` | NetEngine/Src/google/protobuf/descriptor.cc:872-921 | erases what was logged and frees what was allocated since, and nothing else |
| `PoolTables.Tables.AddSymbol` | NetEngine/Src/google/protobuf/descriptor.cc:1117-1126 | true exactly when the name was free; then the table maps its text to the symbol and the name is logged, and otherwise nothing changes |
| `PoolTables.Tables.AddFile` | NetEngine/Src/google/protobuf/descriptor.cc:1133-1140 | true exactly when the name was free; then the table maps its text to the file and the name is logged, and otherwise nothing changes |
| `PoolTables.Tables.AddExtension` | NetEngine/Src/google/protobuf/descriptor.cc:1189-1197 | true exactly when the key was free; then the table maps it to the field and the key is logged, and otherwise nothing changes |
| `PoolTables.Tables.AllocateString` | NetEngine/Src/google/protobuf/descriptor.cc:1211-1215 | the string is live at its address, with its text, and last on the allocation list; nothing else changes |
| `PoolTables.Tables.AllocateBytes` | NetEngine/Src/google/protobuf/descriptor.cc:1236-1246 | a block for some bytes goes on the allocation list; for no bytes nothing is allocated |
| `PoolTables.EraseExtensions` | NetEngine/Src/google/protobuf/descriptor.cc:886-890 | erases exactly the extensions logged since the checkpoint |
| `PoolTables.EraseKeys` | NetEngine/Src/google/protobuf/descriptor.cc:876-885 | erases exactly the keys logged since the checkpoint |
| `PoolTables.DeleteStrings` | NetEngine/Src/google/protobuf/descriptor.cc:898-915 | frees exactly the strings allocated since the checkpoint |
| `SymbolLookup.Builder.LookupSymbolNoPlaceholder` | NetEngine/Src/google/protobuf/descriptor.cc:3744-3818 | ends; a name with a leading dot is looked up from the root, any other as the four laws below say; records the unused and undeclared dependencies and the unresolved name of exactly the symbols it asked for |
| `SymbolLookup.InnermostDecides` | NetEngine/Src/google/protobuf/descriptor.cc:3757-3816 | one scope settles the lookup, even when the rest of the name is missing there: the innermost that decides; which kinds decide is stated by the four laws below |
| `SymbolLookup.CompoundInnermost` | NetEngine/Src/google/protobuf/descriptor.cc:3774-3802 | a name of several parts is looked up whole in the innermost enclosing scope that holds its first part as a message, package, enum or service; a first part that is a field, oneof, enum value or method there is passed over; when the whole is not found it is recorded as unresolved |
| `SymbolLookup.CompoundFromRoot` | NetEngine/Src/google/protobuf/descriptor.cc:3757-3802 | when no enclosing scope holds the first part as one of these, the name is looked up from the root |
| `SymbolLookup.PlainInnermost` | NetEngine/Src/google/protobuf/descriptor.cc:3803-3812 | a name of one part settles in the innermost enclosing scope that holds it, where types are looked for exactly as a message or an enum |
| `SymbolLookup.PlainFromRoot` | NetEngine/Src/google/protobuf/descriptor.cc:3774-3812 | and from the root when none does |
| `SymbolLookup.TypesOnly` | NetEngine/Src/google/protobuf/descriptor.cc:3804-3811 | looking for types, a plain name found inside a scope is a type |
| `SymbolLookup.Builder.FindSymbol` | NetEngine/Src/google/protobuf/descriptor.cc:3704-3742 | without enforcement finds what is in the table; with it, exactly symbols of this file, of a dependency, or packages of one of those, and notes the dependency used or the undeclared one |
| `SymbolLookup.FindInBuild` | NetEngine/Src/google/protobuf/descriptor.cc:3704-3720 | once a build has recorded the dependencies, a symbol that is not a package is found exactly when its file is the one being built or is reached from a direct dependency by public imports |
| `SymbolLookup.PackageFoundIff` | NetEngine/Src/google/protobuf/descriptor.cc:3722-3737 | under enforcement a package is found when a file that may be used has a package whose first parts spell it |
| `SymbolLookup.InPackageIffPartsPrefix` | NetEngine/Src/google/protobuf/descriptor.cc:3657-3662 | the textual test equals: the parts of the name are first among the parts of the package |
| `SymbolLookup.OuterScope` | NetEngine/Src/google/protobuf/descriptor.cc:3774-3781 | cutting a scope at its last dot gives the enclosing scope, and a scope without dots is the last |
| `PublicImports.Dependencies.RecordPublicDependencies` | NetEngine/Src/google/protobuf/descriptor.cc:3664-3669 | adds the file and everything it reaches that was not there, and ends on any finite graph, cyclic or not |
| `PublicImports.Dependencies.RecordAll` | NetEngine/Src/google/protobuf/descriptor.cc:4398-4407 | the dependencies are exactly the files reached from the direct ones by public imports; missing files are skipped |
| `LazyNames.LazyIsEagerIff` | NetEngine/Src/google/protobuf/descriptor.cc:1003-1040 | for every order of walking the fields, the completed index equals the first-registered-wins index exactly when every field whose name is its own was accepted by number |
| `LazyNames.CompletionAgrees` | NetEngine/Src/google/protobuf/descriptor.cc:1003-1031 | whatever the order, a name found in the completed index has the field registered first |
| `LazyNames.StoredMeans` | NetEngine/Src/google/protobuf/descriptor.cc:1150-1176 | what is stored while building is exactly the conflicting names with their first fields |
| `LazyNames.EagerIsFirst` | NetEngine/Src/google/protobuf/descriptor.cc:1155-1161 | the eager index has a name exactly when some field of that parent has it, as lowercase or as camelcase name, and maps it to the first such field |
| `LazyNames.FileTables.AddFieldByStylizedNames` | NetEngine/Src/google/protobuf/descriptor.cc:1150-1176 | both indexes go on being what the eager definition says |
| `LazyNames.FileTables.AddFieldByNumber` | NetEngine/Src/google/protobuf/descriptor.cc:1178-1181 | the first field of a number is kept and later ones are refused |
| `LazyNames.FileTables.FindFieldByLowercaseName` | NetEngine/Src/google/protobuf/descriptor.cc:1012-1018 | the first lookup completes the index; a field found is the first of that parent with that lowercase name, and one is found exactly when two fields share the name or one accepted by number has it |
| `LazyNames.FileTables.FindFieldByCamelcaseName` | NetEngine/Src/google/protobuf/descriptor.cc:1034-1040 | the same for camelcase names |
| `Oneofs.Message.LinkOneofs` | NetEngine/Src/google/protobuf/descriptor.cc:5345-5404 | the three passes stay in bounds; each oneof's array is exactly its fields, ascending, each field's index is its place there, and the errors are exactly those stated |
| `Oneofs.ConsecutiveIffOneRun` | NetEngine/Src/google/protobuf/descriptor.cc:5349-5367 | the consecutiveness error is absent exactly when every oneof's fields are one contiguous run |
| `Oneofs.InterruptionsAre` | NetEngine/Src/google/protobuf/descriptor.cc:5349-5367 | there is one consecutiveness error for each field whose oneof has an earlier field but not the one right before, in order, naming the field right before |
| `Oneofs.EmptiesMean` | NetEngine/Src/google/protobuf/descriptor.cc:5377-5382 | the empty-oneof errors name exactly the oneofs without fields |
| `Oneofs.Message.CountFields` | NetEngine/Src/google/protobuf/descriptor.cc:5348-5373 | the counts, and the consecutiveness errors in order |
| `Oneofs.Message.AllocateArrays` | NetEngine/Src/google/protobuf/descriptor.cc:5376-5391 | one array per oneof with room for exactly its fields, and counts back to zero |
| `Oneofs.Message.FillArrays` | NetEngine/Src/google/protobuf/descriptor.cc:5394-5404 | every array filled in order |
| `PlayerValues.SCFrameConcatMergesIffFramed` | NetEngine/LockStepDemo/Proto/player.pb.cc:2652-2719 | parsing a followed by b equals merging the two parses, for every b, exactly when no length prefix in a runs past its end |
| `PlayerValues.CSFrameConcatMergesIffFramed` | NetEngine/LockStepDemo/Proto/player.pb.cc:2315-2390 | the same for CSFrame |
| `PlayerValues.UserFrameConcatMergesIffFramed` | NetEngine/LockStepDemo/Proto/player.pb.cc:2019-2080 | the same for UserFrame |
| `PlayerValues.SCSightConcatMergesIffFramed` | NetEngine/LockStepDemo/Proto/player.pb.cc:2974-3013 | the same for SCSight |
| `PlayerConcat.WrittenSCFrameMerges` | NetEngine/LockStepDemo/Proto/player.pb.cc:2844-2862 | whatever accepted bytes follow a serialized SCFrame merge into it: repeated fields concatenate, the last set scalar wins |
| `PlayerConcat.WrittenCSFrameMerges` | NetEngine/LockStepDemo/Proto/player.pb.cc:2508-2526 | the same for CSFrame |
| `PlayerConcat.WrittenUserFrameMerges` | NetEngine/LockStepDemo/Proto/player.pb.cc:2179-2190 | the same for UserFrame |
| `PlayerConcat.WrittenSCSightMerges` | NetEngine/LockStepDemo/Proto/player.pb.cc:3100-3108 | the same for SCSight |
| `PlayerFields.SCFrameTags` | NetEngine/LockStepDemo/Proto/player.pb.cc:2663-2689 | on its own, 8 and a varint is a frame with that id, and 16 and a varint one with that next id, for every 64-bit id |
| `PlayerFields.SCFrameUserTag` | NetEngine/LockStepDemo/Proto/player.pb.cc:2691-2701 | 26, a length and that many bytes is a frame with the one user those bytes are, and is refused when they are none |
| `PlayerFields.UserFrameTags` | NetEngine/LockStepDemo/Proto/player.pb.cc:2029-2060 | 8 and a varint is a user with that id; 16 and a varint one key |
| `PlayerFields.UserFramePacked` | NetEngine/LockStepDemo/Proto/player.pb.cc:2042-2060 | 18, a length and varints are those keys, in order |
| `PlayerFields.CSFrameTags` | NetEngine/LockStepDemo/Proto/player.pb.cc:2325-2370 | 8 and a varint is a user id, 16 and a varint a frame id, 24 and a varint one key |
| `PlayerFields.CSFramePacked` | NetEngine/LockStepDemo/Proto/player.pb.cc:2351-2370 | 26, a length and varints are those keys, in order |
| `PlayerFields.PlayerInfoTags` | NetEngine/LockStepDemo/Proto/player.pb.cc:549-606 | 8 and a varint is a player id; 17, 25 and 33 with eight bytes, lowest first, are the three positions |
| `PlayerFields.SCSightTag` | NetEngine/LockStepDemo/Proto/player.pb.cc:2983-2994 | 10, a length and that many bytes is a list of the one player those bytes are, and is refused when they are none |
| `PlayerFields.SCFrameBytes` | NetEngine/LockStepDemo/Proto/player.pb.cc:2721-2784 | a frame is written as 8 and its id, 16 and the next id, each user in order as 26, its length and its bytes, then the unknown fields; what is not set is not written |
| `PlayerFields.UserFrameBytes` | NetEngine/LockStepDemo/Proto/player.pb.cc:2082-2105 | a user is written as 8 and its id, each key in order as 16 and its varint, then the unknown fields |
| `PlayerFields.CSFrameBytes` | NetEngine/LockStepDemo/Proto/player.pb.cc:2392-2420 | a client's keys are written as 8 and the user id, 16 and the frame id, each key in order as 24 and its varint, then the unknown fields |
| `PlayerFields.SCSightBytes` | NetEngine/LockStepDemo/Proto/player.pb.cc:3015-3033 | each player in order as 10, its length and its bytes; a player as 8 and its id, then 17, 25 and 33 with eight bytes each |
| `PlayerFields.LastOnTheWireWins` | NetEngine/LockStepDemo/Proto/player.pb.cc:2652-2719 | of two ids under one tag the later counts, and keys add up |
| `PlayerFields.SecondWins` | NetEngine/LockStepDemo/Proto/player.pb.cc:2844-2862 | merging takes each scalar from the second message when it is set there and otherwise keeps the first's, and appends repeated and unknown fields |
| `PlayerFields.SecondPlayerWins` | NetEngine/LockStepDemo/Proto/player.pb.cc:751-774 | the same for players and lists of players |
| `WireLaws.ConcatLawIffFramed` | NetEngine/Src/google/protobuf/io/coded_stream.cc:115-132 | for any message type of this format, field lists concatenate for every continuation exactly when the first encoding is framed, since a limit past the enclosing one is not applied |
| `WireLaws.ParseAppend` | NetEngine/LockStepDemo/Proto/player.pb.cc:2652-2719 | a framed encoding reads the same whatever follows |
| `WireLaws.UnframedSwallows` | NetEngine/Src/google/protobuf/io/coded_stream.cc:115-132 | an encoding that is not framed swallows the field put after it |
| `PlayerConcat.CutShortAccepted` | NetEngine/Src/google/protobuf/io/coded_stream.cc:115-132 | a key message whose packed field promises more bytes than there are is accepted with the keys that are there, and is not framed |
| `PlayerConcat.CutShortSwallows` | NetEngine/Src/google/protobuf/io/coded_stream.cc:115-132 | two accepted encodings whose concatenation is refused, and two whose concatenation takes the user id for keys |
| `PlayerRoundTrip.SCFrameRoundTrip` | NetEngine/LockStepDemo/Proto/player.pb.cc:2652-2750 | parse undoes serialize for every SCFrame, unknown fields and groups included |
| `PlayerRoundTrip.CSFrameRoundTrip` | NetEngine/LockStepDemo/Proto/player.pb.cc:2315-2420 | parse undoes serialize for every CSFrame |
| `PlayerRoundTrip.UserFrameRoundTrip` | NetEngine/LockStepDemo/Proto/player.pb.cc:2019-2105 | parse undoes serialize for every UserFrame |
| `PlayerRoundTrip.SCSightRoundTrip` | NetEngine/LockStepDemo/Proto/player.pb.cc:2974-3033 | parse undoes serialize for every SCSight and its PlayerInfo |
| `PlayerReparse.SCFrameReparse` | NetEngine/LockStepDemo/Proto/player.pb.cc:2652-2750 | for any accepted bytes, writing what they mean and parsing that again gives the same message exactly when no nested message, written unpacked, reaches 2 GB; so always when fewer than 1 GB were read |
| `PlayerReparse.CSFrameReparse` | NetEngine/LockStepDemo/Proto/player.pb.cc:2315-2420 | the same for CSFrame, whose numbers moreover fit their fields |
| `PlayerReparse.UserFrameReparse` | NetEngine/LockStepDemo/Proto/player.pb.cc:2019-2105 | the same for UserFrame |
| `PlayerReparse.SCSightReparse` | NetEngine/LockStepDemo/Proto/player.pb.cc:2974-3033 | the same for SCSight |
| `PlayerSizes.UsersAtMostTwice` | NetEngine/LockStepDemo/Proto/player.pb.cc:2082-2105 | each user of a parsed frame, written again, takes at most twice the bytes the frame was read from |
| `PlayerSizes.PlayersAtMostTwice` | NetEngine/LockStepDemo/Proto/player.pb.cc:626-658 | the same for the players of a parsed sight message |
| `PlayerSizes.ReadUnknownShrinks` | NetEngine/Src/google/protobuf/wire_format.cc:84-144 | an unknown field of any wire type, groups included, written again takes no more room than it was read from |
| `PlayerReparse.ParseFieldsOk` | NetEngine/LockStepDemo/Proto/player.pb.cc:2652-2719 | everything the parser reads is within the bounds of its type at every level of nesting |
| `WireLaws.ReadEncodedVarint` | NetEngine/Src/google/protobuf/io/coded_stream.cc:520-545 | a varint written and read gives the value back |
| `WireBytes.VarintDigits` | NetEngine/Src/google/protobuf/io/coded_stream.h:1162-1191 | a varint's bytes spell the number to base 128, lowest first, the top bit set on all but the last, and no byte more than needed |
| `WireBytes.VarintSpells` | NetEngine/Src/google/protobuf/io/coded_stream.cc:520-545 | a varint read ends at the first byte without the top bit, within ten, and is what the low bits spell, cut to the width asked for; without such a byte it is refused |
| `WireBytes.FixedBytes` | NetEngine/Src/google/protobuf/io/coded_stream.h:1206-1224 | a fixed-width number is its bytes, lowest first |
| `WireBytes.UnknownBytes` | NetEngine/Src/google/protobuf/wire_format.cc:191-227 | an unknown field is written under eight times its number plus 0 for a varint, 1 for eight bytes, 2 for a length and bytes, 3 for a group closed by 4, 5 for four bytes |
| `WireLaws.ReadEncodedUnknown` | NetEngine/Src/google/protobuf/wire_format.cc:84-144 | an unknown field of any wire type, groups included, written and read gives the field back |
| `WireLaws.ReadUnknownRepresentable` | NetEngine/Src/google/protobuf/wire_format.cc:84-144 | whatever unknown field is read can be written and read again |
| `WireLaws.VarintSizeIsLength` | NetEngine/Src/google/protobuf/io/coded_stream.h:1261-1279 | the shift-and-multiply size formula is the length of the varint for every 64-bit value |
| `OutputStreams.UnknownsSizeIsLength` | NetEngine/Src/google/protobuf/wire_format.cc:322-370 | the computed size of unknown fields is the length written |
| `CodedStreams.CodedInput.ReadVarint64` | NetEngine/Src/google/protobuf/io/coded_stream.cc:520-545 | the loop reads the value modulo 2^64 or fails on an 11th byte or the end of input |
| `CodedStreams.CodedInput.ReadTag` | NetEngine/Src/google/protobuf/io/coded_stream.cc:457-518 | the next tag, or 0 with the end flag set exactly at the end of input |
| `CodedStreams.CodedInput.PushLimit` | NetEngine/Src/google/protobuf/io/coded_stream.cc:115-132 | the new limit, clipped to the enclosing one |
| `CodedStreams.CodedInput.SkipField` | NetEngine/Src/google/protobuf/wire_format.cc:84-144 | reads one unknown field of any wire type within the recursion budget |
| `CodedStreams.CodedInput.SkipMessage` | NetEngine/Src/google/protobuf/wire_format.cc:146-166 | reads the fields of a group up to its end tag |
| `CodedStreams.CodedInput.ReadRepeatedPrimitive` | NetEngine/Src/google/protobuf/wire_format_lite_inl.h:227-247 | reads a run of unpacked elements and stops where the tag no longer follows |
| `CodedStreams.CodedInput.ReadPackedPrimitive` | NetEngine/Src/google/protobuf/wire_format_lite_inl.h:327-341 | reads the packed elements within the length prefix |
| `PlayerMessages.SCFrame.MergePartialFromCodedStream` | NetEngine/LockStepDemo/Proto/player.pb.cc:2652-2719 | succeeds exactly when the specification parses (its fields are those of PlayerFields.SCFrameTags and SCFrameUserTag), and then the message is the old one merged with what was read |
| `PlayerMessages.CSFrame.MergePartialFromCodedStream` | NetEngine/LockStepDemo/Proto/player.pb.cc:2315-2390 | the same for CSFrame |
| `PlayerMessages.UserFrame.MergePartialFromCodedStream` | NetEngine/LockStepDemo/Proto/player.pb.cc:2019-2080 | the same for UserFrame |
| `PlayerMessages.SCFrame.MergeFrom` | NetEngine/LockStepDemo/Proto/player.pb.cc:2844-2862 | merging is appending repeated fields and taking the other's set scalars |
| `PlayerMessages.SCFrame.ByteSizeLong` | NetEngine/LockStepDemo/Proto/player.pb.cc:2786-2827 | the size is the length serialization writes, and every nested cached size is that child's encoded length |
| `PlayerMessages.CSFrame.ByteSizeLong` | NetEngine/LockStepDemo/Proto/player.pb.cc:2452-2491 | the size is the length serialization writes |
| `PlayerMessages.UserFrame.ByteSizeLong` | NetEngine/LockStepDemo/Proto/player.pb.cc:2132-2162 | the size is the length serialization writes |
| `PlayerMessages.SCFrame.SerializeWithCachedSizes` | NetEngine/LockStepDemo/Proto/player.pb.cc:2721-2750 | with cached sizes set, the stream serializer appends the bytes PlayerFields.SCFrameBytes spells out |
| `PlayerMessages.SCFrame.InternalSerializeToArray` | NetEngine/LockStepDemo/Proto/player.pb.cc:2752-2784 | the array serializer writes the same bytes, those of PlayerFields.SCFrameBytes, at the target and nothing outside |
| `PlayerMessages.CSFrame.SerializeWithCachedSizes` | NetEngine/LockStepDemo/Proto/player.pb.cc:2392-2420 | the stream serializer appends the specified bytes |
| `PlayerMessages.CSFrame.InternalSerializeToArray` | NetEngine/LockStepDemo/Proto/player.pb.cc:2422-2450 | the array serializer writes the same bytes |
| `PlayerMessages.UserFrame.SerializeWithCachedSizes` | NetEngine/LockStepDemo/Proto/player.pb.cc:2082-2105 | the stream serializer appends the specified bytes |
| `PlayerMessages.UserFrame.InternalSerializeToArray` | NetEngine/LockStepDemo/Proto/player.pb.cc:2107-2130 | the array serializer writes the same bytes |
| `PlayerMessages.SCFrame.SerializeToArray` | NetEngine/LockStepDemo/Proto/player.pb.cc:2752-2827 | sizing and then writing fills the array with those bytes exactly when there is room, and otherwise leaves it alone |
| `PlayerSights.PlayerInfo.MergePartialFromCodedStream` | NetEngine/LockStepDemo/Proto/player.pb.cc:540-624 | succeeds exactly when the specification parses, and then the player is the old one merged with what was read, positions of eight bytes included |
| `PlayerSights.SCSight.MergePartialFromCodedStream` | NetEngine/LockStepDemo/Proto/player.pb.cc:2974-3013 | the same for SCSight, each nested player within its own limit and one level of the recursion budget |
| `PlayerSights.PlayerInfo.MergeFrom` | NetEngine/LockStepDemo/Proto/player.pb.cc:751-774 | merging takes the other's set scalars and appends its unknown fields |
| `PlayerSights.SCSight.MergeFrom` | NetEngine/LockStepDemo/Proto/player.pb.cc:3100-3108 | merging appends the other's players |
| `PlayerSights.PlayerInfo.ByteSizeLong` | NetEngine/LockStepDemo/Proto/player.pb.cc:696-734 | the size, nine bytes for each position that is set, is the length serialization writes |
| `PlayerSights.SCSight.ByteSizeLong` | NetEngine/LockStepDemo/Proto/player.pb.cc:3058-3083 | the size is the length serialization writes, and every nested cached size is that player's encoded length |
| `PlayerSights.PlayerInfo.SerializeWithCachedSizes` | NetEngine/LockStepDemo/Proto/player.pb.cc:626-658 | the stream serializer appends the specified bytes |
| `PlayerSights.PlayerInfo.InternalSerializeToArray` | NetEngine/LockStepDemo/Proto/player.pb.cc:660-694 | the array serializer writes the same bytes at the target and nothing outside |
| `PlayerSights.SCSight.SerializeWithCachedSizes` | NetEngine/LockStepDemo/Proto/player.pb.cc:3015-3033 | with cached sizes set, the stream serializer appends the specified bytes |
| `PlayerSights.SCSight.InternalSerializeToArray` | NetEngine/LockStepDemo/Proto/player.pb.cc:3035-3056 | the array serializer writes the same bytes at the target and nothing outside |
| `PlayerSights.SCSight.SerializeToArray` | NetEngine/LockStepDemo/Proto/player.pb.cc:3035-3083 | sizing and then writing fills the array exactly when there is room, and otherwise leaves it alone |
| `OutputStreams.WriteFixedToArray` | NetEngine/Src/google/protobuf/io/coded_stream.h:1206-1224 | the eight bytes of a position, lowest first, and nothing outside |
| `OutputStreams.CodedOutput.WriteFixed` | NetEngine/Src/google/protobuf/io/coded_stream.cc:737-749 | the same bytes appended to a stream |
| `OutputStreams.CodedOutput.WriteUnknowns` | NetEngine/Src/google/protobuf/wire_format.cc:191-227 | the loop over unknown fields and, through groups, over theirs appends the specified bytes |
| `OutputStreams.WriteUnknownsToArray` | NetEngine/Src/google/protobuf/wire_format.cc:229-264 | the same loop on an array writes the same bytes at the target and nothing outside |
| `Semaphores.WaitsMatchWakeups` | NetEngine/Src/semaphore.cpp:19-43 | in every run, waits that returned and wake-ups still to be taken add up to the smaller of waits started and wake-ups made |
| `Semaphores.RunMatches` | NetEngine/Src/semaphore.cpp:19-43 | over the steps of any run: waits returned and wake-ups to be taken are the smaller of the waits and the wake-ups in it, the threads inside a wait are the waits not returned, and with as many wake-ups as waits nobody sleeps |
| `Semaphores.NobodyLeftBehind` | NetEngine/Src/semaphore.cpp:19-43 | once there are as many wake-ups as waits nobody is asleep, and every thread inside a wait returns when it next runs |
| `Semaphores.ShortfallStaysBlocked` | NetEngine/Src/semaphore.cpp:19-43 | with fewer wake-ups than waits exactly the shortfall stays blocked |
| `Semaphores.StepKeepsInv` | NetEngine/Src/semaphore.cpp:19-43 | blocked threads less pending wake-ups are the deficit of the counter, and enough of the blocked are awake to take every pending wake-up, through spurious wake-ups and stolen ones |
| `Semaphores.Semaphore.BeginWait` | NetEngine/Src/semaphore.cpp:19-33 | the counter goes down; the caller sleeps exactly when it was not positive and no wake-up was pending, and otherwise takes a pending one when the counter was not positive |
| `Semaphores.Semaphore.LookAgain` | NetEngine/Src/semaphore.cpp:25-31 | a woken thread goes back to sleep exactly when no wake-up is pending, and otherwise takes one |
| `Semaphores.Semaphore.Weakup` | NetEngine/Src/semaphore.cpp:35-44 | the counter goes up; exactly when it was negative a wake-up becomes pending and a sleeper is notified |
| `TaskServices.CloseRanEverything` | NetEngine/Src/cell_task.cpp:24-79 | in every run, when a Close that found the service running returns, the worker is gone and everything due when the Close began has run, in order; with nothing added since, what ran is exactly what was added, in AddTask order, if and only if every start so far found no task in the buffer that had run already |
| `TaskServices.OneLifeRunsEachOnce` | NetEngine/Src/cell_task.cpp:24-79 | started once, tasks added before and while it runs, closed once: when the Close returns, every task ran exactly once, in AddTask order |
| `TaskServices.RanWhatWasSubmitted` | NetEngine/Src/cell_task.cpp:24-79 | started once, closed once with nothing added since: what ran when the Close returns is exactly the tasks of the AddTask calls, each once, in their order |
| `TaskServices.NothingRepeatedIff` | NetEngine/Src/cell_task.cpp:46-79 | over every run, no task is queued twice exactly when every start of a stopped service found tasks waiting and tasks run to be as many as tasks added |
| `TaskServices.RanInOrder` | NetEngine/Src/cell_task.cpp:46-79 | at every moment of every run, what ran is what was due first, in the order AddTask took the lock |
| `TaskServices.StepKeepsInv` | NetEngine/Src/cell_thread.cpp:20-68 | executed, pool and buffer together are what is due; one worker a start, one wake-up a worker, one wait a close |
| `TaskServices.RestartRepeatsIff` | NetEngine/Src/cell_task.cpp:46-79 | with nothing added since the last Close began, a restart queues the whole buffer a second time, so it repeats tasks exactly when the buffer is not empty: the final loop ran those and left them there |
| `TaskServices.RestartRunsTaskAgain` | NetEngine/Src/cell_task.cpp:75-76 | a run in which one added task runs twice |
| `TaskServices.CloseOfStopped` | NetEngine/Src/cell_thread.cpp:39-47 | a Close that finds the service stopped changes nothing; before the first start nothing has run and the buffer is what was added |
| `TaskServices.WorkerGetsNearer` | NetEngine/Src/cell_task.cpp:46-79 | while a Close waits the worker can always move, and every move brings its end nearer |
| `TaskServices.GoneWorkerFreesCloser` | NetEngine/Src/cell_thread.cpp:39-47 | once the worker is gone a waiting Close is awake and returns the next time it runs |
| `MemoryPools.MemManager.Alloc` | NetEngine/Src/mem_manager.cpp:158-173 | what is handed out was not in use, has room for the request through the size-class table, and has one owner from then on; owners and room of every other pointer stay |
| `MemoryPools.MemManager.Free` | NetEngine/Src/mem_manager.cpp:175-190 | one owner fewer; without an owner the block goes to the front of the pool its header names, which is where it came from, or to the system; owners and room of every other pointer stay |
| `MemoryPools.InUseIsAsked` | NetEngine/Src/mem_manager.cpp:158-190 | after any sequence of Alloc and Free, the pointers in use are exactly those handed out and not given back, each with one owner and room for what was asked |
| `MemoryPools.PayloadsInUseApart` | NetEngine/Src/mem_manager.cpp:158-190 | after any sequence of calls, the payloads in use share no byte, and each is as long as was asked for |
| `MemoryPools.MemManager.FreeAndInUse` | NetEngine/Src/mem_manager.cpp:41-100 | in every pool of the manager, free blocks and blocks in use are together all the blocks |
| `MemoryPools.MemManager.FillTable` | NetEngine/Src/mem_manager.cpp:148-156 | the range of sizes is routed to the class and other sizes are left alone |
| `MemoryPools.MemManager.constructor` | NetEngine/Src/mem_manager.cpp:133-141 | all pools are chained, apart from each other, of 32, 64, 128, 256, 512 and 1024 bytes and three million or a hundred thousand blocks each, and every size up to 1024 is routed to the smallest class that holds it |
| `MemoryPools.Pool.Init` | NetEngine/Src/mem_manager.cpp:102-129 | all blocks are on the free list, the first one first |
| `MemoryPools.Pool.Alloc` | NetEngine/Src/object_pool.h:85-111 | takes the first free block, or one from the system when none is free |
| `MemoryPools.Pool.Free` | NetEngine/Src/object_pool.h:113-140 | the block goes to the front of the free list when its last owner lets go |
| `MemoryPools.FreeAndLiveAreAll` | NetEngine/Src/mem_manager.cpp:41-100 | free blocks and owned blocks together are the pool |
| `MemoryPools.PopKeepsList` | NetEngine/Src/mem_manager.cpp:62-68 | the free list stays an acyclic chain of exactly the blocks nobody owns when one is taken |
| `MemoryPools.PushKeepsList` | NetEngine/Src/mem_manager.cpp:81-91 | and when one is given back |
| `MemoryPools.PayloadsApart` | NetEngine/Src/mem_manager.cpp:102-121 | payloads and 32-byte headers of different blocks share no byte and fill the pool's memory exactly |
| `MemoryPools.PointersApart` | NetEngine/Src/mem_manager.cpp:41-129 | payloads of different pointers share no byte |
| `MemoryPools.RoundedSizeMeans` | NetEngine/Src/mem_manager.h:69-76 | the payload size is the next multiple of the word size |
| `LockStepRuns.ArchiveIsHistory` | NetEngine/LockStepDemo/World.cpp:243-264 | in every run the archived ids are those below the number of turns and 2^64, and each of the last 2^64 frames is there unchanged under its id |
| `LockStepRuns.ArchiveNeverOverwritten` | NetEngine/LockStepDemo/World.cpp:248-263 | up to 2^64 turns an archived frame is never overwritten |
| `LockStepRuns.NoKeyLost` | NetEngine/LockStepDemo/World.cpp:179-200 | in every run and for every user, the keys of the frames turned followed by those pending are all the keys accepted, in arrival order |
| `LockStepEvents.KeysTurnedAreAccepted` | NetEngine/LockStepDemo/World.cpp:179-200 | in every run and for every user, the keys turned into frames followed by those waiting are the keys of all served key messages that parse and name the user (0 when they name none), in the order served |
| `LockStepEvents.RunningIff` | NetEngine/LockStepDemo/World.cpp:156-177 | in every run the game is running exactly when some ready message of a logged-in session brought the number of such messages to the number of sessions then, both modulo 2^32 |
| `LockStepEvents.TurnMeans` | NetEngine/LockStepDemo/World.cpp:243-276 | a turn takes the announced id, announces the next modulo 2^64, archives what waited and leaves nothing waiting, and sends each session, and nobody else, one frame with both ids and, for each user with keys, ascending, exactly those keys |
| `LockStepEvents.LoginMeans` | NetEngine/LockStepDemo/World.cpp:116-154 | a first login gets the id after the last given, modulo 2^32; its session is told the id and where the frames are, then every session the list of ids; nobody else hears anything |
| `LockStepEvents.ListedMeans` | NetEngine/LockStepDemo/World.cpp:202-224 | the list names the id of every session once, in ascending order of sockets |
| `LockStepEvents.BroadcastMeans` | NetEngine/LockStepDemo/World.cpp:97-103 | a broadcast adds the reply once for each session and leaves every other connection as it was |
| `LockStepRuns.StepKeepsInv` | NetEngine/LockStepDemo/World.cpp:46-276 | every connection, disconnection, message and tick keeps ids, archive, keys, user ids and what each connection has been sent as they should be |
| `LockStepRuns.UserIdsDistinct` | NetEngine/LockStepDemo/World.cpp:127-134 | in every run the ids of two sessions that logged in are their login numbers modulo 2^32: they share an id exactly when the numbers, which differ, are congruent, and one has id 0 exactly when its number is a multiple; so until 2^32 logins ids are distinct and not 0 |
| `LockStepRuns.LoginGetsId` | NetEngine/LockStepDemo/World.cpp:127-134 | in every run the n-th login gives id n modulo 2^32, so 0 exactly at multiples of 2^32, and then the same session can log in again |
| `LockStepRuns.IdZeroGiven` | NetEngine/LockStepDemo/World.cpp:127-134 | a run that gives a session id 0 |
| `LockStepServer.World.LoginUser` | NetEngine/LockStepDemo/World.cpp:116-154 | a first login gives the next id, sends the login and frame-init replies, and broadcasts the list of all ids to every session; anything else changes nothing |
| `LockStepServer.World.SendLoginInfo` | NetEngine/LockStepDemo/World.cpp:202-224 | every session is sent the ids of all sessions in ascending order of sockets, 0 for those not logged in |
| `LockStepServer.World.TakeKeys` | NetEngine/LockStepDemo/World.cpp:179-200 | the keys of a parsed message are appended, one by one, for the user it names; an unparsable message changes nothing |
| `LockStepServer.World.ReadyUser` | NetEngine/LockStepDemo/World.cpp:156-177 | a parsed ready message of a session that logged in is counted modulo 2^32, and the game runs once the count equals the number of sessions modulo 2^32; any other changes nothing |
| `LockStepServer.World.ProcessMessage` | NetEngine/LockStepDemo/World.cpp:46-81 | takes one message off the queue and serves it if its sender has a session |
| `LockStepServer.World.BroadcastReply` | NetEngine/LockStepDemo/World.cpp:97-103 | every session gets the reply once, nobody else does |
| `LockStepServer.World.TurnFrame` | NetEngine/LockStepDemo/World.cpp:243-276 | the frame gets the next id, holds one entry a user in ascending order, is archived and sent to every session, and collecting starts afresh |
| `LockStepServer.World.CollectUsers` | NetEngine/LockStepDemo/World.cpp:254-261 | one entry for every user with keys, in ascending order of ids |
| `LockStepPlay.ClientRunsStretch` | UnityLockStepDemo/Assets/Scripts/Player.cs:39-171 | in every run, a client not given id 0 has run nothing before its object was started, and then a contiguous stretch of the server's frames up to the last when it has received everything; the stretch starts with the first frame delivered since the start, or with the next when that one is not waited for |
| `LockStepPlay.ClientsAgree` | UnityLockStepDemo/Assets/Scripts/Player.cs:288-298 | in every run, any two clients ran the same frame under the same number wherever both ran one, whatever part of its channel each has read and whatever keys were pressed |
| `LockStepPlay.FirstFrameMissed` | UnityLockStepDemo/Assets/Scripts/Player.cs:132-168 | in every run, a client delivered one frame since it was started has run it exactly when: started before its frame-init reply, it logged in before the first turn; started later, the frame's number is a multiple of 2^64 |
| `LockStepPlay.MissesAFrame` | UnityLockStepDemo/Assets/Scripts/Player.cs:119-135 | a run in which a client logs in after one turn, is started at once, is sent the frame turned next and does not run it |
| `LockStepPlay.StartsLate` | UnityLockStepDemo/Assets/Scripts/Player.cs:39-44 | a run in which a client logs in before the first turn, is started after the first frame was delivered, and runs neither that frame nor the next |
| `LockStepPlay.FrameReadBack` | NetEngine/LockStepDemo/World.cpp:251-272 | the client reads back exactly the ids and keys the server put in a frame, from the bytes sent |
| `LockStepPlay.CreditedName` | UnityLockStepDemo/Assets/Scripts/Main.cs:78-96 | in every run, the id a client's keys go under: its login id for good when the first list it gets starts with another id; the last id of the latest list while every list starts with its own |
| `LockStepPlay.FirstClientTakesSecondId` | UnityLockStepDemo/Assets/Scripts/Player.cs:72-94 | a run of two logins after which the keys of the client given id 1 count for user 2 |
| `LockStepPlay.OneObjectIff` | UnityLockStepDemo/Assets/Scripts/Main.cs:88-95 | in every run, a client has the object of its login alone, and once started a key pressed is held once, exactly when every list of ids it got started with an id named to it before |
| `LockStepPlay.SecondClientDoubled` | UnityLockStepDemo/Assets/Scripts/Main.cs:88-95 | in that run, the other client has two objects under its id, and a key pressed is held by both |
| `LockStepClient.ObjectsMade` | UnityLockStepDemo/Assets/Scripts/Main.cs:64-96 | whatever arrives and whatever is pressed, the objects are as many as login replies and lists whose first id was not named before, and the ids registered are those named |
| `LockStepClient.PressHeld` | UnityLockStepDemo/Assets/Scripts/Player.cs:188-206 | a press goes to exactly the objects made before the last start, so it is held as often as the replies by then made objects |
| `LockStepClient.OnlyLoginsIff` | UnityLockStepDemo/Assets/Scripts/Main.cs:88-95 | there are no objects but those of login replies exactly when every list started with an id named before |
| `LockStepClient.OwnIsNamed` | UnityLockStepDemo/Assets/Scripts/Main.cs:64-96 | whatever arrives and whatever is pressed, the object of one's own goes under the id that a rule on the lists of ids alone gives it, and is registered under exactly the ids of that rule |
| `LockStepClient.SightIsFirst` | UnityLockStepDemo/Assets/Scripts/Main.cs:88-95 | of a list of ids only the first counts: its object, new if there was none, is shown the list and found again for every later id |
| `LockStepClient.NameByLists` | UnityLockStepDemo/Assets/Scripts/Player.cs:72-94 | from the lists received since login: which id a client goes under |
| `LockStepClient.SentKeysArrive` | UnityLockStepDemo/Assets/Scripts/Player.cs:208-229 | what a client sends when it runs a frame is appended, all of it and in order, for the user whose id it goes under by then |
| `LockStepEvents.KeysSaid` | UnityLockStepDemo/Assets/Scripts/Player.cs:208-229 | a client's message carries the id it goes under, the id of the frame it runs and the keys held |
| `LockStepEvents.FrameHandled` | UnityLockStepDemo/Assets/Scripts/Player.cs:132-171 | the frame awaited is run: one message for that frame with the keys held goes out, no key is held after it; any other frame is not run and sends nothing; either way the frame announced is awaited next |
| `LockStepEvents.PoolMeans` | UnityLockStepDemo/Assets/Scripts/Player.cs:137-160 | the users of a frame make a dictionary exactly when no two have one id, and then it holds exactly their ids, each with its keys |
| `LockStepClient.NoPressLost` | UnityLockStepDemo/Assets/Scripts/Player.cs:188-229 | for every object of a client, keys sent, followed by keys held, are the keys pressed since the object was started, in order |
| `LockStepClient.Main.SightArrived` | UnityLockStepDemo/Assets/Scripts/Main.cs:78-96 | for each listed id finds or makes an object and shows it the whole list |
| `LockStepClient.Main.LoginArrived` | UnityLockStepDemo/Assets/Scripts/Main.cs:64-76 | a login reply makes a new object under the id given |
| `LockStepClient.Main.ShowPlayer` | UnityLockStepDemo/Assets/Scripts/Player.cs:72-94 | the object takes each listed id in turn and is registered under all |
| `LockStepClient.Main.Deliver` | UnityLockStepDemo/Assets/Scripts/Player.cs:39-49 | a start starts every object; any other input is taken by every object that is started |
| `LockStepClient.Player.FrameArrived` | UnityLockStepDemo/Assets/Scripts/Player.cs:137-171 | runs the frame when its id is the one awaited, awaits the next in any case, and does nothing on bytes that do not parse or a user that appears twice |
| `LockStepClient.Player.SendKeyInfo` | UnityLockStepDemo/Assets/Scripts/Player.cs:208-229 | sends the keys held and holds none |

## Left out

- LockStepPlay.ClientRunsStretch: assumes a reliable ordered channel and frames that fit a message body of 131072 bytes, and leaves out a session that was given id 0, which is welcomed again.
- LockStepClient.Main.SightArrived: the positions beside the ids are left out, and so is moving the players.
- PlayerReparse.SCFrameReparse: is about bytes a machine can address, fewer than 2^62; so is the statement for SCSight.
- ArenaLists.SpaceUsed: is stated for moments when no thread is inside a call; the walk itself takes no lock.
- ArenaRuns.RunKeepsInv: assumes, when an initial block is given, that it has room for its header and a thread record; with less room initialisation already writes past the block, as ArenaRuns.InitFitsIff and ArenaRuns.InitEstablishesInv state.
- PlayerMessages.SCFrame.MergeFrom: nested users are kept by value beside their cached sizes, so aliasing of nested objects and their reuse after `Clear` are not captured.
- LazyNames.FileTables.FindFieldByLowercaseName: the once-flag is a plain field; two threads racing to the first lookup are not modelled.
- PlayerSights.SCSight.MergeFrom: nested players are kept by value, as the users of an SCFrame are.
- A step of the arena joins one access to the list head or the hint with the thread-private work around it and the addition to the counter of allocated space; the walk over the thread list and the creation of a first block are one step, since other threads only add records in front.
- The arena's memory is blocks and offsets; raw pointers, the system allocator's failures and memory-order effects are not modelled, and the counters of allocated space do not wrap.
- `CodedInputStream`'s total-size limit of 64 MB (a message body holds 128 KB), its unrolled fast paths (taken to equal the slow loops) and its refilling from a stream.
- Text of error messages, warnings and logging; option interpretation; reserved ranges; placeholders for unknown names; the underlay and fallback database behind a pool, which appear as the map of symbols that can be found.
- The descriptor database's file and extension maps and its wrappers: plain map insertions.
- Sockets, accept and select loops, timers, Unity input, rendering and positions.
- Reassembly of received streams: the code's general case does not hold (`cell.cpp:274` shifts only the body, `tcp_client.cpp:137` reads a length from a buffer nothing fills).
- "Running only when all players are ready": the code counts ready messages, so nothing is claimed about players.
- `CloseWithoutWait` and a worker that closes its own service: surplus wake-ups and the mutex held while waiting put them outside the intended use.
- A failing system allocation, and the reference counts of pool blocks beyond what callers of Alloc and Free can make them.
- The queue keeps a message's socket number, so a message of a closed connection is served for a new one with the same number, as in the code if the number is reused.
