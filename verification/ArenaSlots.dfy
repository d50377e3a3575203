/** The arena's sizes and offsets in bytes: where the cleanup nodes lie in memory, how much
    each block and chunk gets, and which block each path of a request ends at. */
module ArenaSlots {
  import opened Options
  import opened Lists
  import opened ArenaModel
  import opened ArenaInvariant
  import opened ArenaSteps
  import opened ArenaRuns

  /** The bytes a goal asks for, in numbers. */
  function Bytes(goal: Goal): nat {
    match goal
    case GetMemory(n, _) => n
    case GetAny(_) => 0
    case GetChunk(size, _) => 24 + 16 * size
  }

  lemma ChunkBytesAre(i: nat)
    ensures ChunkBytes(i) == 24 + 16 * i
  {
    hide AlignUpTo8;
    AlignedStays(AlignUpTo8(24 + 16 * i), 3 + 2 * i);
  }

  lemma AlignedStays(r: nat, m: nat)
    requires r % 8 == 0 && 8 * m <= r < 8 * m + 8
    ensures r == 8 * m
  {
  }

  lemma NeedIs(goal: Goal)
    ensures Need(goal) == Bytes(goal)
  {
    if goal.GetChunk? { ChunkBytesAre(goal.size); }
    hide ChunkBytes;
  }

  // ---------------------------------------------------------------- cleanup nodes in memory

  /** The 16 bytes of node `k` of the chunk at `at` lie in the region. */
  predicate SlotInside(r: Region, at: Address, k: nat) {
    && r.at.block == at.block
    && r.at.offset <= at.offset + 24 + 16 * k
    && at.offset + 24 + 16 * k + 16 <= r.at.offset + r.length
  }

  /** No byte of the slot is in the region. */
  predicate SlotOutside(r: Region, at: Address, k: nat) {
    || r.at.block != at.block
    || r.at.offset + r.length <= at.offset + 24 + 16 * k
    || at.offset + 24 + 16 * k + 16 <= r.at.offset
  }

  lemma ChunkRegion(s: State, a: Address) returns (i: nat)
    requires MemoryOk(s) && a in s.chunks
    ensures i < |s.regions| && s.regions[i] == Region(a, 24 + 16 * s.chunks[a].size, Chunks)
  {
    hide BlocksOk, ListsOk, RegionsOk, CleanupOk, TotalSize, TotalUsed, HandedOut;
    ChunkBytesAre(s.chunks[a].size);
    hide ChunkBytes;
    i :| 0 <= i < |s.regions| && s.regions[i] == Region(a, ChunkBytes(s.chunks[a].size), Chunks);
  }

  lemma RegionsApart(s: State, i: nat, j: nat)
    requires MemoryOk(s) && i < |s.regions| && j < |s.regions| && i != j
    ensures Disjoint(s.regions[i], s.regions[j])
  {
    hide BlocksOk, ListsOk, CleanupOk, ChunkHome, TotalSize, TotalUsed, HandedOut;
    assert i < j ==> Disjoint(s.regions[i], s.regions[j]);
    assert j < i ==> Disjoint(s.regions[j], s.regions[i]);
  }

  /** In every reachable state each slot of each cleanup chunk, filled or still free, lies inside
      the memory handed out for that chunk, which is 24 bytes and 16 more for each slot, and
      shares no byte with anything else handed out: not with a user's memory, not with a thread's
      record, not with another chunk. */
  lemma ChunkHoldsItsNodes(before: State, t: Tid, states: seq<State>, steps: seq<Step>, n: nat, a: Address, k: nat)
    returns (i: nat)
    requires Run(before, t, states, steps) && n < |states|
    requires a in states[n].chunks && k < states[n].chunks[a].size
    ensures var s := states[n];
      && i < |s.regions| && s.regions[i].at == a && s.regions[i].use == Chunks
      && s.regions[i].length == 24 + 16 * s.chunks[a].size
      && SlotInside(s.regions[i], a, k)
      && forall j | 0 <= j < |s.regions| && j != i :: SlotOutside(s.regions[j], a, k)
  {
    hide Run, MemoryOk, ThreadsOk, CachesOk, PcOk;
    RunKeepsInv(before, t, states, steps, n);
    var s := states[n];
    i := ChunkRegion(s, a);
    forall j | 0 <= j < |s.regions| && j != i ensures SlotOutside(s.regions[j], a, k) {
      RegionsApart(s, i, j);
    }
  }

  /** No two cleanup nodes share a byte. */
  lemma NodesApart(before: State, t: Tid, states: seq<State>, steps: seq<Step>, n: nat,
      a: Address, k: nat, b: Address, l: nat)
    requires Run(before, t, states, steps) && n < |states|
    requires a in states[n].chunks && k < states[n].chunks[a].size
    requires b in states[n].chunks && l < states[n].chunks[b].size
    requires a != b || k != l
    ensures a.block != b.block || a.offset + 24 + 16 * k + 16 <= b.offset + 24 + 16 * l
      || b.offset + 24 + 16 * l + 16 <= a.offset + 24 + 16 * k
  {
    hide Run;
    if a != b {
      var i := ChunkHoldsItsNodes(before, t, states, steps, n, a, k);
      var j := ChunkHoldsItsNodes(before, t, states, steps, n, b, l);
    }
  }

  /** In every reachable state, the chunks of a thread, oldest first, have room for 8, 16, 32 and
      then 64 nodes each; all but the newest are full. */
  lemma ChunkCapacities(before: State, t: Tid, states: seq<State>, steps: seq<Step>, n: nat, u: Tid, age: nat)
    requires Run(before, t, states, steps) && n < |states|
    requires u in states[n].infos && age < |states[n].infos[u].chunks|
    ensures var s, list := states[n], states[n].infos[u].chunks;
      && var a := list[|list| - 1 - age];
         && a in s.chunks
         && s.chunks[a].size == (if age == 0 then 8 else if age == 1 then 16 else if age == 2 then 32 else 64)
         && 1 <= |s.chunks[a].nodes| <= s.chunks[a].size
         && (age < |list| - 1 ==> |s.chunks[a].nodes| == s.chunks[a].size)
  {
    hide Run, BlocksOk, ListsOk, RegionsOk, ChunkHome, TotalSize, TotalUsed, HandedOut, ThreadsOk, CachesOk, PcOk,
      Link, Distinct, NodesOf, Capacity;
    RunKeepsInv(before, t, states, steps, n);
    CapacitySequence(age);
    assert ChunkListOk(states[n].blocks, states[n].chunks, u, states[n].infos[u]);
  }

  // ---------------------------------------------------------------- what each step gives

  /** A new chunk takes 24 bytes and 16 for each node from the front of the free space of the
      caller's block, holds the one cleanup asked for, and is first on the caller's list. */
  lemma ChunkAnswered(s: State, t: Tid, size: nat, node: Node)
    requires Inv(s) && Enabled(s, Take(t)) && PcOf(s, t).goal == GetChunk(size, node)
    ensures Safe(s, Take(t))
    ensures var z, b := Next(s, Take(t)), PcOf(s, t).block;
      && b in s.blocks && s.blocks[b].owner == t && t in s.infos && b in z.blocks && t in z.infos
      && var a := Address(b, s.blocks[b].pos);
         && z.regions == s.regions + [Region(a, 24 + 16 * size, Chunks)]
         && z.blocks[b].pos == s.blocks[b].pos + 24 + 16 * size <= z.blocks[b].size
         && a in z.chunks && z.chunks[a] == Chunk([node], size, s.infos[t].cleanup)
         && z.infos[t].cleanup == Some(a) && PcOf(z, t).Idle?
  {
    hide Inv, MemoryOk, ThreadsOk, CachesOk, PcOk;
    TakeKeepsInv(s, t);
    InvParts(s, t);
    UsersOwn(s, t);
    OwnerHasRecord(s, PcOf(s, t).block);
    ChunkBytesAre(size);
    HasRoom(s, t);
    hide ChunkBytes;
  }

  lemma HasRoom(s: State, t: Tid)
    requires PcOf(s, t).Holding? && PcOk(s, t)
    ensures s.blocks[PcOf(s, t).block].size - s.blocks[PcOf(s, t).block].pos >= Bytes(PcOf(s, t).goal)
  {
    NeedIs(PcOf(s, t).goal);
    hide ChunkBytes;
  }

  /** The newest chunk of the thread has a slot left. */
  ghost predicate SlotLeft(s: State, t: Tid) {
    && t in s.infos && s.infos[t].cleanup.Some? && s.infos[t].cleanup.value in s.chunks
    && |s.chunks[s.infos[t].cleanup.value].nodes| < s.chunks[s.infos[t].cleanup.value].size
  }

  /** The cleanup has gone into the next slot of the newest chunk. */
  ghost predicate Filled(s: State, z: State, t: Tid, node: Node) {
    && SlotLeft(s, t) && PcOf(z, t).Idle?
    && var c := s.chunks[s.infos[t].cleanup.value];
       z.chunks == s.chunks[s.infos[t].cleanup.value := Chunk(c.nodes + [node], c.size, c.next)]
  }

  /** A chunk is wanted of 8 slots, or of twice as many as the newest has, at most 64: from the
      block at hand when it has the bytes for it, and otherwise asked for anew. */
  ghost predicate Expands(s: State, z: State, t: Tid, b: BlockId, node: Node) {
    && t in s.infos && b in s.blocks && (s.infos[t].cleanup.Some? ==> s.infos[t].cleanup.value in s.chunks)
    && var size :=
         if s.infos[t].cleanup.None? then 8
         else if s.chunks[s.infos[t].cleanup.value].size >= 32 then 64
         else 2 * s.chunks[s.infos[t].cleanup.value].size;
       PcOf(z, t) ==
         if s.blocks[b].size - s.blocks[b].pos < 24 + 16 * size then Wanting(GetChunk(size, node))
         else Holding(b, GetChunk(size, node))
  }

  /** Adding a cleanup fills a slot when there is one left, and otherwise asks for a chunk. */
  lemma AddNodeAnswers(s: State, t: Tid)
    requires Inv(s) && Enabled(s, AddNode(t))
    ensures Safe(s, AddNode(t))
    ensures if SlotLeft(s, t) then Filled(s, Next(s, AddNode(t)), t, PcOf(s, t).node)
      else Expands(s, Next(s, AddNode(t)), t, PcOf(s, t).block, PcOf(s, t).node)
  {
    hide Inv, MemoryOk, ThreadsOk, CachesOk, PcOk, AppendNode;
    AddNodeKeepsInv(s, t);
    InvParts(s, t);
    UsersOwn(s, t);
    OwnerHasRecord(s, PcOf(s, t).block);
    HeadIsOwned(s, t);
    NewestFits(s, t);
    if SlotLeft(s, t) {
      AppendedNode(s, t, PcOf(s, t).node);
    } else {
      ChunkBytesAre(NextChunkSize(s, s.infos[t].cleanup));
    }
    hide ChunkBytes;
  }

  lemma AppendedNode(s: State, t: Tid, node: Node)
    requires SlotLeft(s, t)
    ensures var at := s.infos[t].cleanup.value;
      AppendNode(s, t, at, node).pcs == s.pcs && AppendNode(s, t, at, node).chunks ==
        s.chunks[at := Chunk(s.chunks[at].nodes + [node], s.chunks[at].size, s.chunks[at].next)]
  {
  }

  /** The fast paths: the cached block when the cache is of this arena's lifecycle and it has room;
      otherwise, when the hint is the caller's own block, that one if it has room and a further
      block if not; otherwise a further block when the cache matched, and a search when it did not. */
  lemma CheckAnswers(s: State, t: Tid)
    requires Inv(s) && Enabled(s, Check(t))
    ensures Safe(s, Check(t))
    ensures var pc, goal := PcOf(Next(s, Check(t)), t), PcOf(s, t).goal;
      var cached := t in s.caches && s.caches[t].lifecycle == s.lifecycle;
      var hinted := s.hint.Some? && s.blocks[s.hint.value].owner == t;
      && (cached && s.blocks[s.caches[t].block].size - s.blocks[s.caches[t].block].pos >= Bytes(goal) ==>
            pc == Holding(s.caches[t].block, goal))
      && (!(cached && s.blocks[s.caches[t].block].size - s.blocks[s.caches[t].block].pos >= Bytes(goal)) ==>
            pc == if hinted && s.blocks[s.hint.value].size - s.blocks[s.hint.value].pos >= Bytes(goal)
                  then Holding(s.hint.value, goal)
                  else if hinted || cached then Growing(t, goal)
                  else Searching(goal))
  {
    hide Inv, ListsOk, RegionsOk, CleanupOk, ChunkHome, TotalSize, TotalUsed, HandedOut, ThreadsOk, PcOk, ChunkBytes;
    StepKeepsInv(s, Check(t));
    InvParts(s, t);
    assert 0 <= s.lifecycle;
    NeedIs(PcOf(s, t).goal);
  }

  /** Growing uses the newest block when it has room, and otherwise puts in front of it a block of
      twice its size, at most the limit, but never less than the 40 bytes of its header and
      what is asked for. Either way the block becomes the caller's cached one and the hint. */
  lemma GrowAnswers(s: State, t: Tid, given: BlockId)
    requires Inv(s) && Enabled(s, Grow(t, given))
    ensures Safe(s, Grow(t, given)) && t in s.infos && s.infos[t].head in s.blocks
    ensures var z, goal, head := Next(s, Grow(t, given)), PcOf(s, t).goal, s.infos[t].head;
      var last, need := s.blocks[head], Bytes(goal);
      var grows := last.size - last.pos < need;
      var doubled := if 2 * last.size <= s.config.maxBlockSize then 2 * last.size else s.config.maxBlockSize;
      var b := if grows then given else head;
      && PcOf(z, t) == Holding(b, goal) && z.hint == Some(b)
      && t in z.caches && z.caches[t] == Cache(s.lifecycle, b)
      && (!grows ==> z.blocks == s.blocks && z.infos == s.infos)
      && (grows ==>
            var size := if doubled >= 40 + need then doubled else 40 + need;
            && z.blocks == s.blocks[given := Block(t, t, Some(head), 40, size)]
            && z.infos == s.infos[t := s.infos[t].(head := given, blocks := [given] + s.infos[t].blocks)]
            && z.spaceAllocated == s.spaceAllocated + size)
  {
    hide Inv, MemoryOk, CachesOk, ThreadsOk, PcOk;
    StepKeepsInv(s, Grow(t, given));
    InvParts(s, t);
    GrowersOwn(s, t);
    HeadIsOwned(s, t);
    NeedIs(PcOf(s, t).goal);
    hide ChunkBytes, Need;
  }

  /** A search that finds no record makes a first block of the starting size, but never less than
      the 72 bytes of its header and the record and what is asked for. */
  lemma FindAnswers(s: State, t: Tid, given: BlockId)
    requires Inv(s) && Enabled(s, Find(t, given))
    ensures Safe(s, Find(t, given))
    ensures var z, goal := Next(s, Find(t, given)), PcOf(s, t).goal;
      var least := 72 + Bytes(goal);
      if t in s.infos then PcOf(z, t) == Growing(t, goal) && z.blocks == s.blocks && z.regions == s.regions
      else
        && PcOf(z, t) == Pushing(goal, None) && given in z.blocks && t in z.infos
        && z.blocks[given] ==
           Block(t, t, None, 72, if s.config.startBlockSize >= least then s.config.startBlockSize else least)
        && z.regions == s.regions + [Region(Address(given, 40), 32, Record)]
        && z.infos[t].head == given && z.infos[t].cleanup == None
  {
    hide Inv, MemoryOk, CachesOk, PcOk;
    StepKeepsInv(s, Find(t, given));
    InvParts(s, t);
    SearchFinds(s, t);
    NeedIs(PcOf(s, t).goal);
    hide ChunkBytes, Need, ThreadsOk;
  }
}
