/** Every step of every thread finds the memory it needs and keeps the invariant. */
module ArenaSteps {
  import opened Options
  import opened Lists
  import opened ArenaModel
  import opened ArenaInvariant
  import opened ArenaMemory

  // ---------------------------------------------------------------- what a step leaves alone

  ghost predicate SparesBlocks(s: State, s': State, t: Tid) {
    forall b | b in s.blocks ::
      && b in s'.blocks && s'.blocks[b].owner == s.blocks[b].owner
      && (s.blocks[b].owner != t ==> s'.blocks[b] == s.blocks[b])
  }

  ghost predicate SparesOther(s: State, s': State, u: Tid) {
    && PcOf(s', u) == PcOf(s, u)
    && (u in s.infos ==> u in s'.infos && s'.infos[u] == s.infos[u])
    && (u in s.infos && s.infos[u].cleanup.Some? && s.infos[u].cleanup.value in s.chunks ==>
      s.infos[u].cleanup.value in s'.chunks &&
      s'.chunks[s.infos[u].cleanup.value] == s.chunks[s.infos[u].cleanup.value])
  }

  /** A step of thread `t` leaves every other thread's blocks, record, newest chunk and place alone. */
  ghost predicate Spares(s: State, s': State, t: Tid) {
    s'.config == s.config && SparesBlocks(s, s', t) && forall u | u != t :: SparesOther(s, s', u)
  }

  lemma HeadIsOwned(s: State, t: Tid)
    requires MemoryOk(s) && t in s.infos
    ensures s.infos[t].head in s.blocks && s.blocks[s.infos[t].head].owner == t
    ensures s.infos[t].cleanup.Some? ==>
      && s.infos[t].cleanup.value in s.chunks
      && s.infos[t].cleanup.value.block in s.blocks && s.blocks[s.infos[t].cleanup.value.block].owner == t
  {
    hide Link, Distinct, Capacity;
    assert ListOk(s.blocks, t, s.infos[t]);
    assert ChunkListOk(s.blocks, s.chunks, t, s.infos[t]);
  }

  lemma OtherPcOk(s: State, s': State, t: Tid, u: Tid)
    requires SparesBlocks(s, s', t) && SparesOther(s, s', u) && u != t && PcOk(s, u)
    requires u in s.infos ==> s.infos[u].head in s.blocks && s.blocks[s.infos[u].head].owner == u
    requires u in s.infos && s.infos[u].cleanup.Some? ==> s.infos[u].cleanup.value in s.chunks
    ensures PcOk(s', u)
  {
    hide ChunkBytes, PcOf;
    assert forall goal | ChunkWanted(s, u, goal) :: ChunkWanted(s', u, goal);
    hide ChunkWanted;
  }

  lemma InvFromParts(s: State, s': State, t: Tid)
    requires Inv(s) && MemoryOk(s') && ThreadsOk(s') && CachesOk(s') && Spares(s, s', t) && PcOk(s', t)
    ensures Inv(s')
  {
    hide MemoryOk, ThreadsOk, CachesOk, PcOk, SparesOther, SparesBlocks;
    forall u ensures PcOk(s', u) {
      if u != t {
        if u in s.infos { HeadIsOwned(s, u); }
        OtherPcOk(s, s', t, u);
      }
    }
  }

  lemma SameMemory(s: State, s': State)
    requires MemoryOk(s)
    requires s'.blocks == s.blocks && s'.infos == s.infos && s'.chunks == s.chunks && s'.regions == s.regions
    requires s'.registered == s.registered && s'.created == s.created && s'.spaceAllocated == s.spaceAllocated
    ensures MemoryOk(s')
  {
    hide BlocksOk, ListsOk, RegionsOk, CleanupOk, ChunkHome, TotalSize, TotalUsed, HandedOut, Distinct;
  }

  lemma ThreadsFrame(s: State, s': State)
    requires ThreadsOk(s) && s'.threads == s.threads && s'.published == s.published
    requires forall u :: u in s'.infos <==> u in s.infos
    requires forall u | u in s.infos :: s'.infos[u].next == s.infos[u].next
    requires forall u | u in s.infos :: PcOf(s', u).Pushing? == PcOf(s, u).Pushing?
    ensures ThreadsOk(s')
  {
    hide Link, First, Distinct, PcOf;
  }

  lemma CachesFrame(s: State, s': State, t: Tid)
    requires CachesOk(s) && SparesBlocks(s, s', t)
    requires s'.lifecycle == s.lifecycle && s'.generator == s.generator
    requires s'.hint == s.hint && s'.caches == s.caches
    ensures CachesOk(s')
  {
    assert forall u :: CacheOf(s', u) == CacheOf(s, u);
    hide CacheOf;
  }

  lemma CachesUpdated(s: State, s': State, t: Tid, b: BlockId)
    requires CachesOk(s) && SparesBlocks(s, s', t)
    requires s'.lifecycle == s.lifecycle && s'.generator == s.generator
    requires s'.hint == Some(b) && s'.caches == s.caches[t := Cache(s.lifecycle, b)]
    requires b in s'.blocks && s'.blocks[b].owner == t
    ensures CachesOk(s')
  {
    assert forall u :: CacheOf(s', u) == if u == t then Cache(s.lifecycle, b) else CacheOf(s, u);
    hide CacheOf;
  }

  /** A step that changes nothing but the thread's place. */
  lemma MoveKeepsInv(s: State, t: Tid, pc: Pc)
    requires Inv(s) && (t in s.infos ==> pc.Pushing? == PcOf(s, t).Pushing?)
    requires PcOk(Go(s, t, pc), t)
    ensures Inv(Go(s, t, pc))
  {
    hide MemoryOk, ThreadsOk, CachesOk, PcOk;
    var s' := Go(s, t, pc);
    SameMemory(s, s');
    ThreadsFrame(s, s');
    CachesFrame(s, s', t);
    InvFromParts(s, s', t);
  }

  lemma InvParts(s: State, t: Tid)
    requires Inv(s)
    ensures ConfigOk(s.config) && MemoryOk(s) && ThreadsOk(s) && CachesOk(s) && PcOk(s, t)
  {
    hide MemoryOk, ThreadsOk, CachesOk, PcOk;
  }

  lemma OthersKeepChunks(s: State, s': State, t: Tid)
    requires s'.config == s.config && SparesBlocks(s, s', t) && s'.chunks == s.chunks
    requires forall u | u != t :: PcOf(s', u) == PcOf(s, u)
    requires forall u | u != t && u in s.infos :: u in s'.infos && s'.infos[u] == s.infos[u]
    ensures Spares(s, s', t)
  {
    hide PcOf, SparesBlocks;
  }

  // ---------------------------------------------------------------- asking for a block

  /** On every fast path the block found is the thread's own and has the room asked for. */
  lemma CheckFinds(s: State, t: Tid, goal: Goal)
    requires Inv(s) && PcOf(s, t) == Wanting(goal)
    ensures Safe(s, Check(t))
    ensures var pc := CheckCaches(s, t, goal); !pc.Pushing? && PcOk(Go(s, t, pc), t)
  {
    hide Inv, ListsOk, RegionsOk, CleanupOk, ChunkHome, TotalSize, TotalUsed, HandedOut, ThreadsOk, ChunkBytes;
    InvParts(s, t);
  }

  /** A thread has a record exactly when its search of the shared list finds one. */
  lemma SearchFinds(s: State, t: Tid)
    requires ThreadsOk(s) && !PcOf(s, t).Pushing?
    ensures t in s.infos <==> t in s.published
  {
    hide Link, First, Distinct, PcOf;
    if t in s.published { var k :| 0 <= k < |s.published| && s.published[k] == t; }
  }

  lemma FirstBlockKeepsInv(s: State, t: Tid, given: BlockId, goal: Goal)
    requires Inv(s) && PcOf(s, t) == Searching(goal) && t !in s.infos && given !in s.blocks
    ensures var size := NewBlockSize(s.config, None, THREAD_INFO_SIZE + Need(goal));
      Inv(Go(FirstBlock(s, t, given, size), t, Pushing(goal, None)))
  {
    hide Inv, MemoryOk, CachesOk, ThreadsOk, ChunkBytes;
    InvParts(s, t);
    var size := NewBlockSize(s.config, None, THREAD_INFO_SIZE + Need(goal));
    var f := FirstBlock(s, t, given, size);
    var s' := Go(f, t, Pushing(goal, None));
    assert PcOk(s', t);
    hide PcOk, Need;
    FirstBlockKeepsMemory(s, t, given, size);
    SameMemory(f, s');
    FirstBlockThreads(s, s', t);
    CachesFrame(s, s', t);
    OthersKeepChunks(s, s', t);
    InvFromParts(s, s', t);
  }

  lemma FirstBlockThreads(s: State, s': State, t: Tid)
    requires ThreadsOk(s) && t !in s.infos && s'.threads == s.threads && s'.published == s.published
    requires forall u :: u in s'.infos <==> u == t || u in s.infos
    requires forall u | u in s.infos :: s'.infos[u] == s.infos[u] && PcOf(s', u) == PcOf(s, u)
    requires PcOf(s', t).Pushing?
    ensures ThreadsOk(s')
  {
    hide Link, First, Distinct, PcOf;
    assert t !in s.published;
  }

  /** Writing a record's link changes nothing that memory depends on. */
  lemma NextReplacedMemory(s: State, s': State, t: Tid, next: Option<Tid>)
    requires MemoryOk(s) && t in s.infos && s'.infos == s.infos[t := s.infos[t].(next := next)]
    requires s'.blocks == s.blocks && s'.chunks == s.chunks && s'.regions == s.regions
    requires s'.registered == s.registered && s'.created == s.created && s'.spaceAllocated == s.spaceAllocated
    ensures MemoryOk(s')
  {
    hide BlocksOk, ListsOk, RegionsOk, ChunkListOk, ChunkHome, TotalSize, TotalUsed, HandedOut, Distinct, NodesOf;
    InfoReplacedLists(s.blocks, s.infos, t, s'.infos[t]);
    InfoReplacedAccounts(s.blocks, s.infos, s.created, t, s'.infos[t]);
    SameChunkList(s.blocks, s.chunks, t, s.infos[t], s'.infos[t]);
  }

  /** Linking a record that is not on the shared list yet leaves the list as it is. */
  lemma LinkThreads(s: State, s': State, t: Tid)
    requires ThreadsOk(s) && t in s.infos && PcOf(s, t).Pushing? && PcOf(s', t).Pushing?
    requires s'.threads == s.threads && s'.published == s.published
    requires s'.infos.Keys == s.infos.Keys && forall u | u in s.infos && u != t :: s'.infos[u] == s.infos[u]
    requires forall u | u != t :: PcOf(s', u) == PcOf(s, u)
    ensures ThreadsOk(s')
  {
    hide Link, First, Distinct, PcOf;
    assert t !in s.published;
    assert forall u :: u in s'.infos <==> u in s'.infos.Keys;
  }

  lemma LoadKeepsInv(s: State, t: Tid, goal: Goal)
    requires Inv(s) && PcOf(s, t) == Pushing(goal, None)
    ensures t in s.infos
    ensures Inv(Go(s.(infos := s.infos[t := s.infos[t].(next := s.threads)]), t, Pushing(goal, Some(s.threads))))
  {
    hide Inv, MemoryOk, CachesOk, ThreadsOk, ChunkBytes, Need;
    InvParts(s, t);
    var s' := Go(s.(infos := s.infos[t := s.infos[t].(next := s.threads)]), t, Pushing(goal, Some(s.threads)));
    assert PcOk(s', t);
    hide PcOk;
    NextReplacedMemory(s, s', t, s.threads);
    CachesFrame(s, s', t);
    LinkThreads(s, s', t);
    OthersKeepChunks(s, s', t);
    InvFromParts(s, s', t);
  }

  lemma PublishThreads(s: State, s': State, t: Tid)
    requires ThreadsOk(s) && t in s.infos && PcOf(s, t).Pushing? && s.infos[t].next == s.threads
    requires s'.infos == s.infos && s'.threads == Some(t) && s'.published == [t] + s.published
    requires !PcOf(s', t).Pushing? && forall u | u != t :: PcOf(s', u) == PcOf(s, u)
    ensures ThreadsOk(s')
  {
    LinksPushed(s.published, t);
    hide Link, First, PcOf;
    assert t !in s.published;
    DistinctPushed(s.published, t);
    hide Distinct;
    forall u ensures u in s'.published <==> u == t || u in s.published {
      if u in s.published { var k :| 0 <= k < |s.published| && s.published[k] == u; assert s'.published[k + 1] == u; }
      assert s'.published[0] == t;
    }
  }

  /** A successful compare-and-swap puts the record at the front of the list: what its link
      was set to is still the head. */
  lemma PublishKeepsInv(s: State, t: Tid, goal: Goal)
    requires Inv(s) && PcOf(s, t) == Pushing(goal, Some(s.threads))
    ensures Inv(Go(s.(threads := Some(t), published := [t] + s.published), t, Growing(t, goal)))
  {
    hide Inv, MemoryOk, CachesOk, ThreadsOk, ChunkBytes, Need;
    InvParts(s, t);
    var s' := Go(s.(threads := Some(t), published := [t] + s.published), t, Growing(t, goal));
    assert PcOk(s', t);
    hide PcOk;
    SameMemory(s, s');
    CachesFrame(s, s', t);
    PublishThreads(s, s', t);
    OthersKeepChunks(s, s', t);
    InvFromParts(s, s', t);
  }

  lemma RetryKeepsInv(s: State, t: Tid, goal: Goal, expected: Option<Option<Tid>>)
    requires Inv(s) && PcOf(s, t) == Pushing(goal, expected)
    ensures Inv(Go(s, t, Pushing(goal, None)))
  {
    hide Inv, MemoryOk, CachesOk, ThreadsOk, ChunkBytes, Need;
    InvParts(s, t);
    MoveKeepsInv(s, t, Pushing(goal, None));
  }

  lemma CacheHeadKeepsInv(s: State, t: Tid, goal: Goal)
    requires Inv(s) && PcOf(s, t) == Growing(t, goal) && t in s.infos && s.infos[t].head in s.blocks
    requires Avail(s.blocks[s.infos[t].head]) >= Need(goal)
    ensures Inv(Go(CacheBlock(s, t, s.infos[t].head), t, Holding(s.infos[t].head, goal)))
  {
    hide Inv, MemoryOk, CachesOk, ThreadsOk, ChunkBytes, Need;
    InvParts(s, t);
    HeadIsOwned(s, t);
    var s' := Go(CacheBlock(s, t, s.infos[t].head), t, Holding(s.infos[t].head, goal));
    assert PcOk(s', t);
    hide PcOk;
    SameMemory(s, s');
    CachesUpdated(s, s', t, s.infos[t].head);
    ThreadsFrame(s, s');
    OthersKeepChunks(s, s', t);
    InvFromParts(s, s', t);
  }

  lemma GrowNewKeepsInv(s: State, t: Tid, goal: Goal, given: BlockId, size: nat)
    requires Inv(s) && PcOf(s, t) == Growing(t, goal) && t in s.infos && given !in s.blocks
    requires size >= HEADER_SIZE + Need(goal)
    ensures Inv(Go(CacheBlock(PushBlock(s, t, given, size), t, given), t, Holding(given, goal)))
  {
    hide Inv, MemoryOk, CachesOk, ThreadsOk, ChunkBytes, Need;
    InvParts(s, t);
    var p := PushBlock(s, t, given, size);
    var s' := Go(CacheBlock(p, t, given), t, Holding(given, goal));
    assert PcOk(s', t);
    hide PcOk;
    PushBlockKeepsMemory(s, t, given, size);
    SameMemory(p, s');
    CachesUpdated(s, s', t, given);
    ThreadsFrame(s, s');
    OthersKeepChunks(s, s', t);
    InvFromParts(s, s', t);
  }

  // ---------------------------------------------------------------- using a block

  lemma TakeMemoryKeepsInv(s: State, t: Tid, b: BlockId, n: nat, cleanup: Option<nat>, pc: Pc)
    requires Inv(s) && PcOf(s, t) == Holding(b, GetMemory(n, cleanup))
    requires pc == Idle || (pc.Adding? && pc.block == b)
    ensures b in s.blocks && Inv(Go(AllocFromBlock(s, b, n, User), t, pc))
  {
    hide Inv, MemoryOk, CachesOk, ThreadsOk, ChunkBytes;
    InvParts(s, t);
    var a := AllocFromBlock(s, b, n, User);
    var s' := Go(a, t, pc);
    assert PcOk(s', t);
    AllocKeepsMemory(s, b, n, User);
    hide PcOk;
    SameMemory(a, s');
    CachesFrame(s, s', t);
    ThreadsFrame(s, s');
    OthersKeepChunks(s, s', t);
    InvFromParts(s, s', t);
  }

  /** The chunk that changes is the thread's own, so nobody else's newest chunk does. */
  lemma OthersKeepTheirChunks(s: State, s': State, t: Tid, at: Address, c: Chunk)
    requires MemoryOk(s) && s'.config == s.config && SparesBlocks(s, s', t) && s'.chunks == s.chunks[at := c]
    requires at.block in s.blocks && s.blocks[at.block].owner == t
    requires forall u | u != t :: PcOf(s', u) == PcOf(s, u)
    requires forall u | u != t && u in s.infos :: u in s'.infos && s'.infos[u] == s.infos[u]
    ensures Spares(s, s', t)
  {
    hide PcOf, SparesBlocks, MemoryOk;
    forall u | u != t ensures SparesOther(s, s', u) {
      if u in s.infos { HeadIsOwned(s, u); }
    }
  }

  lemma TakeChunkKeepsInv(s: State, t: Tid, b: BlockId, size: nat, node: Node)
    requires Inv(s) && PcOf(s, t) == Holding(b, GetChunk(size, node))
    ensures b in s.blocks && s.blocks[b].threadInfo == t && t in s.infos
    ensures Inv(Go(PushChunk(s, t, b, size, node), t, Idle))
  {
    hide Inv, MemoryOk, CachesOk, ThreadsOk, ChunkBytes;
    InvParts(s, t);
    OwnerHasRecord(s, b);
    var p := PushChunk(s, t, b, size, node);
    var s' := Go(p, t, Idle);
    assert PcOk(s', t);
    PushChunkKeepsMemory(s, t, b, size, node);
    hide PcOk;
    SameMemory(p, s');
    CachesFrame(s, s', t);
    ThreadsFrame(s, s');
    OthersKeepTheirChunks(s, s', t, Address(b, s.blocks[b].pos), p.chunks[Address(b, s.blocks[b].pos)]);
    InvFromParts(s, s', t);
  }

  lemma OwnerHasRecord(s: State, b: BlockId)
    requires MemoryOk(s)
    ensures b in s.blocks ==> s.blocks[b].threadInfo == s.blocks[b].owner && s.blocks[b].owner in s.infos
  {
  }

  lemma AppendKeepsInv(s: State, t: Tid, b: BlockId, node: Node)
    requires Inv(s) && PcOf(s, t) == Adding(b, node) && t in s.infos && s.infos[t].cleanup.Some?
    requires s.infos[t].cleanup.value in s.chunks
    requires |s.chunks[s.infos[t].cleanup.value].nodes| < s.chunks[s.infos[t].cleanup.value].size
    ensures Inv(Go(AppendNode(s, t, s.infos[t].cleanup.value, node), t, Idle))
  {
    hide Inv, MemoryOk, CachesOk, ThreadsOk, ChunkBytes;
    InvParts(s, t);
    var at := s.infos[t].cleanup.value;
    var p := AppendNode(s, t, at, node);
    var s' := Go(p, t, Idle);
    assert PcOk(s', t);
    hide PcOk;
    AppendNodeKeepsMemory(s, t, node);
    SameMemory(p, s');
    CachesFrame(s, s', t);
    ThreadsFrame(s, s');
    HeadIsOwned(s, t);
    OthersKeepTheirChunks(s, s', t, at, p.chunks[at]);
    InvFromParts(s, s', t);
  }

  /** A full list: the thread goes for a chunk of the next capacity, in this block if it fits. */
  lemma ExpandKeepsInv(s: State, t: Tid, b: BlockId, node: Node)
    requires Inv(s) && PcOf(s, t) == Adding(b, node) && t in s.infos && b in s.blocks
    requires NewestFull(s.chunks, s.infos[t])
    ensures var goal := GetChunk(NextChunkSize(s, s.infos[t].cleanup), node);
      && (Avail(s.blocks[b]) >= Need(goal) ==> Inv(Go(s, t, Holding(b, goal))))
      && Inv(Go(s, t, Wanting(goal)))
  {
    hide Inv, MemoryOk, CachesOk, ThreadsOk;
    InvParts(s, t);
    var goal := GetChunk(NextChunkSize(s, s.infos[t].cleanup), node);
    assert Need(goal) % 8 == 0;
    hide ChunkBytes, Need, NextChunkSize;
    assert PcOk(Go(s, t, Wanting(goal)), t);
    if Avail(s.blocks[b]) >= Need(goal) {
      assert PcOk(Go(s, t, Holding(b, goal)), t);
      hide PcOk;
      MoveKeepsInv(s, t, Holding(b, goal));
    }
    hide PcOk;
    MoveKeepsInv(s, t, Wanting(goal));
  }
}
