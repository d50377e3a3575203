/** How large the arena's blocks get: each thread's blocks grow geometrically up to the limit, and
    no block is larger than the limit, the sizes configured or one request make it. */
module ArenaSizes {
  import opened Options
  import opened Lists
  import opened Numbers
  import opened ArenaModel
  import opened ArenaInvariant
  import opened ArenaMemory
  import opened ArenaSteps
  import opened ArenaRuns

  /** The most bytes any request asks a block for: `largest` by callers, or a full-size chunk. */
  function LargestNeed(largest: nat): nat {
    Max(largest, ChunkBytes(MAX_CLEANUP_LIST_ELEMENTS))
  }

  /** The largest block that configuration and requests can make. */
  function LargestBlock(c: Config, largest: nat): nat {
    Max(Max(c.maxBlockSize, c.startBlockSize),
        Max(c.initialSize, HEADER_SIZE + THREAD_INFO_SIZE + LargestNeed(largest)))
  }

  function GoalOf(pc: Pc): Option<Goal> {
    match pc
    case Idle => None
    case Adding(_, _) => None
    case _ => Some(pc.goal)
  }

  ghost predicate NeedsOk(s: State, largest: nat) {
    forall t :: GoalOf(PcOf(s, t)).Some? ==> Need(GoalOf(PcOf(s, t)).value) <= LargestNeed(largest)
  }

  ghost predicate BlocksBounded(s: State, largest: nat) {
    forall b | b in s.blocks :: s.blocks[b].size <= LargestBlock(s.config, largest)
  }

  /** Along one list, newest first, each block is twice the one before it or at the limit. */
  ghost predicate Grows(c: Config, blocks: map<BlockId, Block>, list: seq<BlockId>) {
    && (forall b | b in list :: b in blocks)
    && forall k | 0 <= k < |list| - 1 ::
      Min(2 * blocks[list[k + 1]].size, c.maxBlockSize) <= blocks[list[k]].size
  }

  ghost predicate ListsGrow(s: State) {
    forall t | t in s.infos :: Grows(s.config, s.blocks, s.infos[t].blocks)
  }

  ghost predicate SizesOk(s: State, largest: nat) {
    NeedsOk(s, largest) && BlocksBounded(s, largest) && ListsGrow(s)
  }

  // ---------------------------------------------------------------- steps

  /** No block is new and no list changes. */
  ghost predicate SameBlocks(s: State, z: State) {
    && z.config == s.config
    && (forall b | b in z.blocks :: b in s.blocks && z.blocks[b].size == s.blocks[b].size)
    && (forall b | b in s.blocks :: b in z.blocks)
    && (forall t | t in z.infos :: t in s.infos && z.infos[t].blocks == s.infos[t].blocks)
  }

  lemma SameBlocksKeepSizes(s: State, z: State, largest: nat)
    requires SameBlocks(s, z) && BlocksBounded(s, largest) && ListsGrow(s)
    ensures BlocksBounded(z, largest) && ListsGrow(z)
  {
    hide LargestBlock;
    forall t | t in z.infos ensures Grows(z.config, z.blocks, z.infos[t].blocks) {
      assert Grows(s.config, s.blocks, s.infos[t].blocks);
    }
  }

  /** The new first block of a thread. */
  lemma FirstBlockKeepsSizes(s: State, t: Tid, b: BlockId, size: nat, largest: nat)
    requires BlocksBounded(s, largest) && ListsGrow(s) && b !in s.blocks
    requires size <= LargestBlock(s.config, largest)
    ensures BlocksBounded(FirstBlock(s, t, b, size), largest) && ListsGrow(FirstBlock(s, t, b, size))
  {
    hide LargestBlock;
    var z := FirstBlock(s, t, b, size);
    forall u | u in z.infos ensures Grows(z.config, z.blocks, z.infos[u].blocks) {
      if u != t { assert Grows(s.config, s.blocks, s.infos[u].blocks); }
    }
  }

  lemma PushBlockKeepsSizes(s: State, t: Tid, b: BlockId, size: nat, largest: nat)
    requires BlocksBounded(s, largest) && ListsGrow(s) && b !in s.blocks && t in s.infos && s.infos[t].head in s.blocks
    requires First(s.infos[t].blocks) == Some(s.infos[t].head)
    requires Min(2 * s.blocks[s.infos[t].head].size, s.config.maxBlockSize) <= size <= LargestBlock(s.config, largest)
    ensures BlocksBounded(PushBlock(s, t, b, size), largest) && ListsGrow(PushBlock(s, t, b, size))
  {
    hide LargestBlock;
    var z := PushBlock(s, t, b, size);
    forall u | u in z.infos ensures Grows(z.config, z.blocks, z.infos[u].blocks) {
      assert Grows(s.config, s.blocks, s.infos[u].blocks);
      if u == t {
        var old_, list := s.infos[t].blocks, z.infos[t].blocks;
        forall k | 0 <= k < |list| - 1
          ensures Min(2 * z.blocks[list[k + 1]].size, z.config.maxBlockSize) <= z.blocks[list[k]].size
        {
          assert list[k + 1] == old_[k] && (k > 0 ==> list[k] == old_[k - 1]);
        }
      }
    }
  }

  /** A thread's next block: never smaller than the double of its newest one or the limit, and
      more than both only by what the request itself needs. */
  lemma NextBlockSize(s: State, t: Tid, given: BlockId)
    requires Inv(s) && Enabled(s, Grow(t, given)) && t in s.infos && s.infos[t].head in s.blocks
    requires Avail(s.blocks[s.infos[t].head]) < Need(PcOf(s, t).goal)
    ensures Safe(s, Grow(t, given))
    ensures var z, last, need := Next(s, Grow(t, given)), s.blocks[s.infos[t].head].size, Need(PcOf(s, t).goal);
      && t in z.infos && z.infos[t].head == given && given in z.blocks && z.blocks[given].next == Some(s.infos[t].head)
      && z.blocks[given].size >= Min(2 * last, s.config.maxBlockSize)
      && z.blocks[given].size >= 40 + need
      && (z.blocks[given].size > Min(2 * last, s.config.maxBlockSize) ==> z.blocks[given].size == 40 + need)
  {
    hide Inv, MemoryOk, CachesOk, ThreadsOk, PcOk, ChunkBytes, Need;
    StepKeepsInv(s, Grow(t, given));
    InvParts(s, t);
    GrowersOwn(s, t);
  }

  lemma GrowKeepsSizes(s: State, t: Tid, given: BlockId, largest: nat)
    requires Inv(s) && Enabled(s, Grow(t, given)) && SizesOk(s, largest)
    ensures Safe(s, Grow(t, given))
    ensures BlocksBounded(Next(s, Grow(t, given)), largest) && ListsGrow(Next(s, Grow(t, given)))
  {
    hide Inv, MemoryOk, CachesOk, ThreadsOk, PcOk, ChunkBytes, Need, BlocksBounded, ListsGrow, LargestNeed;
    StepKeepsInv(s, Grow(t, given));
    InvParts(s, t);
    GrowersOwn(s, t);
    HeadIsOwned(s, t);
    HeadFirst(s, t);
    var goal, head := PcOf(s, t).goal, s.infos[t].head;
    assert GoalOf(PcOf(s, t)) == Some(goal);
    var z := Next(s, Grow(t, given));
    if Avail(s.blocks[head]) >= Need(goal) {
      SameBlocksKeepSizes(s, z, largest);
    } else {
      var size := NewBlockSize(s.config, Some(s.blocks[head]), Need(goal));
      PushBlockKeepsSizes(s, t, given, size, largest);
      SameBlocksKeepSizes(PushBlock(s, t, given, size), z, largest);
    }
  }

  lemma HeadFirst(s: State, t: Tid)
    requires MemoryOk(s) && t in s.infos
    ensures First(s.infos[t].blocks) == Some(s.infos[t].head)
  {
    hide Link, Distinct;
    assert ListOk(s.blocks, t, s.infos[t]);
  }

  lemma FindKeepsSizes(s: State, t: Tid, given: BlockId, largest: nat)
    requires Inv(s) && Enabled(s, Find(t, given)) && SizesOk(s, largest)
    ensures BlocksBounded(Next(s, Find(t, given)), largest) && ListsGrow(Next(s, Find(t, given)))
  {
    hide Inv, ChunkBytes, Need, BlocksBounded, ListsGrow, LargestNeed;
    var goal := PcOf(s, t).goal;
    assert GoalOf(PcOf(s, t)) == Some(goal);
    var z := Next(s, Find(t, given));
    if t in s.published {
      SameBlocksKeepSizes(s, z, largest);
    } else {
      var size := NewBlockSize(s.config, None, THREAD_INFO_SIZE + Need(goal));
      FirstBlockKeepsSizes(s, t, given, size, largest);
      SameBlocksKeepSizes(FirstBlock(s, t, given, size), z, largest);
    }
  }

  lemma InitKeepsSizes(s: State, t: Tid, largest: nat)
    requires forall u :: PcOf(s, u).Idle?
    ensures SizesOk(Init(s, t), largest)
  {
    PcsKept(s, Init(s, t), t);
    hide PcOf, LargestNeed;
  }

  lemma OthersKeepBlocks(s: State, e: Step)
    requires Enabled(s, e) && Safe(s, e) && !e.Find? && !e.Grow? && !e.Reset? && !e.Take?
    ensures SameBlocks(s, Next(s, e))
  {
    hide Need, CheckCaches, ChunkBytes, NextChunkSize;
  }

  lemma TakeKeepsBlocks(s: State, e: Step)
    requires Enabled(s, e) && Safe(s, e) && e.Take?
    ensures SameBlocks(s, Next(s, e))
  {
    hide Need, ChunkBytes;
  }

  // ---------------------------------------------------------------- what is asked for

  /** The goals of other threads stay, and a thread's goal stays, ends, is a caller's new one or
      is a chunk of the next capacity. */
  lemma GoalsKept(s: State, e: Step, u: Tid)
    requires Inv(s) && Enabled(s, e) && Safe(s, e) && !e.Reset?
    ensures var before, after := GoalOf(PcOf(s, u)), GoalOf(PcOf(Next(s, e), u));
      || after == before || after == None
      || (e.Call? && after == Some(e.goal))
      || (after.value.GetChunk? && Need(after.value) <= ChunkBytes(MAX_CLEANUP_LIST_ELEMENTS))
  {
    hide Inv, ChunkBytes, Need, CheckCaches, NextChunkSize, NewBlockSize;
    match e
    case AddNode(t) => AddNodeGoal(s, t, u);
    case Check(t) => CheckGoal(s, t, u);
    case Find(t, given) => FindGoals(s, t, given, u);
    case Grow(t, given) => GrowGoals(s, t, given, u);
    case Take(t) => TakeGoals(s, t, u);
    case _ => OtherGoals(s, e, u);
  }

  lemma OtherGoals(s: State, e: Step, u: Tid)
    requires Enabled(s, e) && (e.Call? || e.Load? || e.CompareAndSwap? || e.OtherArena? || e.OtherInit?)
    requires Safe(s, e)
    ensures var after := GoalOf(PcOf(Next(s, e), u));
      after == GoalOf(PcOf(s, u)) || (e.Call? && after == Some(e.goal))
  {
    hide Need;
  }

  lemma FindGoals(s: State, t: Tid, given: BlockId, u: Tid)
    requires Enabled(s, Find(t, given)) && Safe(s, Find(t, given))
    ensures GoalOf(PcOf(Next(s, Find(t, given)), u)) == GoalOf(PcOf(s, u))
  {
    hide Need, NewBlockSize;
  }

  lemma GrowGoals(s: State, t: Tid, given: BlockId, u: Tid)
    requires Enabled(s, Grow(t, given)) && Safe(s, Grow(t, given))
    ensures GoalOf(PcOf(Next(s, Grow(t, given)), u)) == GoalOf(PcOf(s, u))
  {
    hide Need, NewBlockSize;
  }

  lemma TakeGoals(s: State, t: Tid, u: Tid)
    requires Enabled(s, Take(t)) && Safe(s, Take(t))
    ensures var after := GoalOf(PcOf(Next(s, Take(t)), u));
      after == GoalOf(PcOf(s, u)) || after == None
  {
    hide Need, ChunkBytes;
  }

  lemma CheckGoal(s: State, t: Tid, u: Tid)
    requires Enabled(s, Check(t)) && Safe(s, Check(t))
    ensures GoalOf(PcOf(Next(s, Check(t)), u)) == GoalOf(PcOf(s, u))
  {
    hide Need;
  }

  lemma ChunkNeedBounded(s: State, t: Tid, node: Node)
    requires MemoryOk(s) && t in s.infos
    ensures Need(GetChunk(NextChunkSize(s, s.infos[t].cleanup), node)) <= ChunkBytes(MAX_CLEANUP_LIST_ELEMENTS)
  {
    hide Link, Distinct, NextChunkSize, First;
    assert ChunkListOk(s.blocks, s.chunks, t, s.infos[t]);
    NextChunkSizeIsCapacity(s, t);
    CapacityBounds(|s.infos[t].chunks|);
  }

  lemma AddNodeGoal(s: State, t: Tid, u: Tid)
    requires Inv(s) && Enabled(s, AddNode(t)) && Safe(s, AddNode(t))
    ensures var before, after := GoalOf(PcOf(s, u)), GoalOf(PcOf(Next(s, AddNode(t)), u));
      || after == before || after == None
      || (after.value.GetChunk? && Need(after.value) <= ChunkBytes(MAX_CLEANUP_LIST_ELEMENTS))
  {
    hide Inv, MemoryOk, CachesOk, ThreadsOk, PcOk, ChunkBytes, Need, NextChunkSize;
    InvParts(s, t);
    UsersOwn(s, t);
    var Adding(b, node) := PcOf(s, t);
    OwnerHasRecord(s, b);
    ChunkNeedBounded(s, t, node);
  }

  lemma StepKeepsNeeds(s: State, e: Step, largest: nat)
    requires Inv(s) && Enabled(s, e) && Safe(s, e) && !e.Reset? && NeedsOk(s, largest)
    requires e.Call? ==> Need(e.goal) <= largest
    ensures NeedsOk(Next(s, e), largest)
  {
    hide Inv, Next, Enabled, Safe, Need, PcOf, GoalOf, ChunkBytes;
    forall u ensures GoalOf(PcOf(Next(s, e), u)).Some? ==>
      Need(GoalOf(PcOf(Next(s, e), u)).value) <= LargestNeed(largest)
    {
      GoalsKept(s, e, u);
    }
  }

  lemma StepKeepsSizes(s: State, e: Step, largest: nat)
    requires Inv(s) && Enabled(s, e) && SizesOk(s, largest)
    requires e.Call? ==> Need(e.goal) <= largest
    ensures Safe(s, e) && SizesOk(Next(s, e), largest)
  {
    hide Inv, Next, Enabled, Safe, NeedsOk, BlocksBounded, ListsGrow, Need, Init, SameBlocks;
    StepKeepsInv(s, e);
    match e
    case Reset(t) => ResetKeepsSizes(s, t, largest);
    case Find(t, given) => FindKeepsSizes(s, t, given, largest); StepKeepsNeeds(s, e, largest);
    case Grow(t, given) => GrowKeepsSizes(s, t, given, largest); StepKeepsNeeds(s, e, largest);
    case Take(_) =>
      TakeKeepsBlocks(s, e);
      SameBlocksKeepSizes(s, Next(s, e), largest);
      StepKeepsNeeds(s, e, largest);
    case _ =>
      OthersKeepBlocks(s, e);
      SameBlocksKeepSizes(s, Next(s, e), largest);
      StepKeepsNeeds(s, e, largest);
  }

  lemma ResetKeepsSizes(s: State, t: Tid, largest: nat)
    requires Enabled(s, Reset(t))
    ensures SizesOk(Next(s, Reset(t)), largest)
  {
    hide SizesOk, Init;
    InitKeepsSizes(s, t, largest);
  }

  // ---------------------------------------------------------------- whole runs

  lemma {:induction false} RunKeepsSizes(before: State, t: Tid, states: seq<State>, steps: seq<Step>, n: nat,
      largest: nat)
    requires Run(before, t, states, steps) && n < |states|
    requires forall i | 0 <= i < n && steps[i].Call? :: Need(steps[i].goal) <= largest
    ensures SizesOk(states[n], largest)
    decreases n
  {
    hide Inv, Init, Next, Enabled, Safe, PcOf, CacheOf, SizesOk, Need;
    if n == 0 {
      InitKeepsSizes(before, t, largest);
    } else {
      RunKeepsSizes(before, t, states, steps, n - 1, largest);
      RunKeepsInv(before, t, states, steps, n - 1);
      StepKeepsSizes(states[n - 1], steps[n - 1], largest);
    }
  }

  /** Block `k` of a thread links to the one made before it and is twice as large, or at the limit. */
  ghost predicate TwiceTheOlder(s: State, u: Tid, k: nat)
    requires u in s.infos && k + 1 < |s.infos[u].blocks|
  {
    var newer, older := s.infos[u].blocks[k], s.infos[u].blocks[k + 1];
    && newer in s.blocks && older in s.blocks && s.blocks[newer].next == Some(older)
    && Min(2 * s.blocks[older].size, s.config.maxBlockSize) <= s.blocks[newer].size
  }

  /** In every reachable state each block of a thread is at least twice the one made before it,
      or at the limit; and when callers ask for at most `largest` bytes at a time, no block is
      larger than the limit, the configured sizes, or the block that one such request needs. */
  lemma BlockSizesBounded(before: State, t: Tid, states: seq<State>, steps: seq<Step>, n: nat, largest: nat)
    requires Run(before, t, states, steps) && n < |states|
    requires forall i | 0 <= i < n && steps[i].Call? :: Need(steps[i].goal) <= largest
    ensures var s := states[n];
      && (forall b | b in s.blocks :: s.blocks[b].size <= LargestBlock(s.config, largest))
      && (forall u, k | u in s.infos && 0 <= k < |s.infos[u].blocks| - 1 :: TwiceTheOlder(s, u, k))
  {
    hide Run, Inv, NeedsOk, LargestBlock, MemoryOk;
    RunKeepsSizes(before, t, states, steps, n, largest);
    RunKeepsInv(before, t, states, steps, n);
    var s := states[n];
    InvParts(s, t);
    forall u, k | u in s.infos && 0 <= k < |s.infos[u].blocks| - 1 ensures TwiceTheOlder(s, u, k) {
      assert Grows(s.config, s.blocks, s.infos[u].blocks);
      LinkedToNext(s, u, k);
    }
  }

  lemma LinkedToNext(s: State, u: Tid, k: nat)
    requires MemoryOk(s) && u in s.infos && k + 1 < |s.infos[u].blocks|
    ensures s.infos[u].blocks[k] in s.blocks
    ensures s.blocks[s.infos[u].blocks[k]].next == Some(s.infos[u].blocks[k + 1])
  {
    assert ListOk(s.blocks, u, s.infos[u]);
    assert s.infos[u].blocks[k + 1..][0] == s.infos[u].blocks[k + 1];
  }
}
