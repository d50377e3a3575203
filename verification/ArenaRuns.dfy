/** What holds in every state that any interleaving of threads can reach. */
module ArenaRuns {
  import opened Options
  import opened Lists
  import opened ArenaModel
  import opened ArenaInvariant
  import opened ArenaMemory
  import opened ArenaSteps

  // ---------------------------------------------------------------- one step

  /** An enabled step of a call finds what it needs and keeps the invariant. */
  lemma AskStepKeepsInv(s: State, e: Step)
    requires Inv(s) && Enabled(s, e) && (e.Call? || e.Check? || e.Find?)
    ensures Safe(s, e) && Inv(Next(s, e))
  {
    hide Inv, MemoryOk, CachesOk, ThreadsOk, PcOk, ChunkBytes, Need, CheckCaches, NewBlockSize, FirstBlock;
    InvParts(s, e.t);
    match e
    case Call(t, goal) =>
      assert PcOk(Go(s, t, Wanting(goal)), t) by { CallPcOk(s, t, goal); }
      MoveKeepsInv(s, t, Wanting(goal));
    case Check(t) =>
      CheckFinds(s, t, PcOf(s, t).goal);
      MoveKeepsInv(s, t, CheckCaches(s, t, PcOf(s, t).goal));
    case Find(t, given) =>
      SearchFinds(s, t);
      if t in s.published {
        FoundPcOk(s, t);
        MoveKeepsInv(s, t, Growing(t, PcOf(s, t).goal));
      } else {
        FirstBlockKeepsInv(s, t, given, PcOf(s, t).goal);
      }
  }

  lemma CallPcOk(s: State, t: Tid, goal: Goal)
    requires !goal.GetChunk? && (goal.GetMemory? ==> goal.n % 8 == 0)
    ensures PcOk(Go(s, t, Wanting(goal)), t)
  {
  }

  lemma FoundPcOk(s: State, t: Tid)
    requires PcOf(s, t).Searching? && PcOk(s, t) && t in s.infos
    ensures PcOk(Go(s, t, Growing(t, PcOf(s, t).goal)), t)
  {
    hide ChunkBytes;
  }

  lemma GrowStepKeepsInv(s: State, e: Step)
    requires Inv(s) && Enabled(s, e) && (e.Load? || e.CompareAndSwap? || e.Grow?)
    ensures Safe(s, e) && Inv(Next(s, e))
  {
    hide Inv, MemoryOk, CachesOk, ThreadsOk, PcOk, ChunkBytes, Need, PushBlock, CacheBlock;
    InvParts(s, e.t);
    match e
    case Load(t) =>
      LoadKeepsInv(s, t, PcOf(s, t).goal);
    case CompareAndSwap(t) =>
      var Pushing(goal, expected) := PcOf(s, t);
      if s.threads == expected.value {
        PublishKeepsInv(s, t, goal);
      } else {
        RetryKeepsInv(s, t, goal, expected);
      }
    case Grow(t, given) =>
      GrowersOwn(s, t);
      HeadIsOwned(s, t);
      var goal, head := PcOf(s, t).goal, s.infos[t].head;
      if Avail(s.blocks[head]) >= Need(goal) {
        CacheHeadKeepsInv(s, t, goal);
      } else {
        GrowNewKeepsInv(s, t, goal, given, NewBlockSize(s.config, Some(s.blocks[head]), Need(goal)));
      }
  }

  lemma GrowersOwn(s: State, t: Tid)
    requires PcOf(s, t).Growing? && PcOk(s, t)
    ensures PcOf(s, t).info == t && t in s.infos
  {
    hide ChunkBytes;
  }

  lemma TakeKeepsInv(s: State, t: Tid)
    requires Inv(s) && Enabled(s, Take(t))
    ensures Safe(s, Take(t)) && Inv(Next(s, Take(t)))
  {
    hide Inv, MemoryOk, CachesOk, ThreadsOk, PcOk, ChunkBytes, Need, AllocFromBlock, PushChunk;
    InvParts(s, t);
    UsersOwn(s, t);
    var Holding(b, goal) := PcOf(s, t);
    OwnerHasRecord(s, b);
    match goal
    case GetMemory(n, cleanup) =>
      var at := Address(b, s.blocks[b].pos);
      TakeMemoryKeepsInv(s, t, b, n, cleanup,
        if cleanup.Some? then Adding(b, Node(Inside(at), cleanup.value)) else Idle);
    case GetAny(node) =>
      AddPcOk(s, t, b, node);
      MoveKeepsInv(s, t, Adding(b, node));
    case GetChunk(size, node) =>
      TakeChunkKeepsInv(s, t, b, size, node);
  }

  lemma AddPcOk(s: State, t: Tid, b: BlockId, node: Node)
    requires b in s.blocks && s.blocks[b].owner == t
    ensures PcOk(Go(s, t, Adding(b, node)), t)
  {
  }

  /** A block a thread holds or adds to is in this arena and is the thread's own. */
  lemma UsersOwn(s: State, t: Tid)
    requires (PcOf(s, t).Holding? || PcOf(s, t).Adding?) && PcOk(s, t)
    ensures PcOf(s, t).block in s.blocks && s.blocks[PcOf(s, t).block].owner == t
  {
    hide ChunkBytes;
  }

  lemma AddNodeKeepsInv(s: State, t: Tid)
    requires Inv(s) && Enabled(s, AddNode(t))
    ensures Safe(s, AddNode(t)) && Inv(Next(s, AddNode(t)))
  {
    hide Inv, MemoryOk, CachesOk, ThreadsOk, PcOk, ChunkBytes, AppendNode, NextChunkSize;
    InvParts(s, t);
    UsersOwn(s, t);
    var Adding(b, node) := PcOf(s, t);
    OwnerHasRecord(s, b);
    HeadIsOwned(s, t);
    NewestFits(s, t);
    var cleanup := s.infos[t].cleanup;
    if cleanup == None || |s.chunks[cleanup.value].nodes| == s.chunks[cleanup.value].size {
      ExpandKeepsInv(s, t, b, node);
    } else {
      AppendKeepsInv(s, t, b, node);
    }
  }

  lemma NewestFits(s: State, t: Tid)
    requires MemoryOk(s) && t in s.infos
    ensures s.infos[t].cleanup.Some? ==>
      && s.infos[t].cleanup.value in s.chunks
      && |s.chunks[s.infos[t].cleanup.value].nodes| <= s.chunks[s.infos[t].cleanup.value].size
  {
    hide Link, Distinct, Capacity;
    assert ChunkListOk(s.blocks, s.chunks, t, s.infos[t]);
  }

  // ---------------------------------------------------------------- starting over

  /** Starting over leaves an empty arena that no thread's cache refers to, except the cache of
      a caller that gave the initial block. Memory is well formed, and with it everything, exactly
      when an initial block, if there is one, has room for its header and a thread record. */
  lemma InitEstablishesInv(s: State, t: Tid)
    requires 0 <= s.generator && forall u :: PcOf(s, u).Idle? && CacheOf(s, u).lifecycle < s.generator
    ensures var z := Init(s, t);
      && ThreadsOk(z) && CachesOk(z) && (forall u :: PcOk(z, u))
      && (MemoryOk(z) <==> ConfigOk(s.config)) && (Inv(z) <==> ConfigOk(s.config))
  {
    hide MemoryOk, ThreadsOk, CachesOk;
    var empty := s.(lifecycle := s.generator, generator := s.generator + 1, hint := None, threads := None,
      spaceAllocated := 0, blocks := map[], infos := map[], chunks := map[], published := [], created := [],
      regions := [], registered := map[]);
    EmptyOk(s, empty);
    var z := Init(s, t);
    if s.config.initial.Some? {
      var b := s.config.initial.value;
      var first := FirstBlock(empty, t, b, s.config.initialSize);
      if ConfigOk(s.config) {
        FirstBlockKeepsMemory(empty, t, b, s.config.initialSize);
        SameMemory(first, z);
      } else {
        Overfull(z, b);
      }
      assert forall u :: PcOf(empty, u) == PcOf(s, u);
      OneThread(empty, first, z, t, b, s.config.initialSize);
    }
    PcsKept(s, z, t);
    hide PcOf;
    assert forall u :: PcOk(z, u);
  }

  lemma Overfull(s: State, b: BlockId)
    requires b in s.blocks && s.blocks[b].pos > s.blocks[b].size
    ensures !MemoryOk(s)
  {
  }

  /** Initialising leaves every block with its contents inside it exactly when the initial block,
      if there is one, has room for its header and a thread record. The constructor asks for the
      header only; with less room the record reaches past the end of the block. */
  lemma InitFitsIff(s: State, t: Tid)
    ensures var z := Init(s, t);
      && ((forall b | b in z.blocks :: z.blocks[b].pos <= z.blocks[b].size) <==> ConfigOk(s.config))
      && (ConfigOk(s.config) <==> s.config.initial == None || 72 <= s.config.initialSize)
    ensures !ConfigOk(s.config) ==>
      var z := Init(s, t);
      && s.config.initial.value in z.blocks && |z.regions| == 1
      && z.regions[0] == Region(Address(s.config.initial.value, 40), 32, Record)
      && 72 > z.blocks[s.config.initial.value].size
  {
    if s.config.initial.Some? {
      var b := s.config.initial.value;
      assert b in Init(s, t).blocks && Init(s, t).blocks[b].pos == HEADER_SIZE + THREAD_INFO_SIZE;
    }
  }

  lemma PcsKept(s: State, z: State, t: Tid)
    requires z == Init(s, t)
    ensures forall u :: PcOf(z, u) == PcOf(s, u)
  {
  }

  lemma EmptyOk(s: State, empty: State)
    requires empty == s.(lifecycle := s.generator, generator := s.generator + 1, hint := None, threads := None,
      spaceAllocated := 0, blocks := map[], infos := map[], chunks := map[], published := [], created := [],
      regions := [], registered := map[])
    requires 0 <= s.generator && forall u :: CacheOf(s, u).lifecycle < s.generator
    ensures MemoryOk(empty) && ThreadsOk(empty) && CachesOk(empty)
  {
    assert forall u :: CacheOf(empty, u) == CacheOf(s, u);
    hide CacheOf;
  }

  lemma OneThread(empty: State, first: State, z: State, t: Tid, b: BlockId, size: nat)
    requires CachesOk(empty) && empty.infos == map[] && empty.published == [] && empty.blocks == map[]
    requires forall u :: PcOf(empty, u).Idle?
    requires first == FirstBlock(empty, t, b, size)
    requires z == CacheBlock(first.(threads := Some(t), published := [t]), t, b)
    ensures ThreadsOk(z) && CachesOk(z)
  {
    assert forall u :: CacheOf(z, u) == if u == t then Cache(z.lifecycle, b) else CacheOf(empty, u);
    assert forall u :: PcOf(z, u) == PcOf(empty, u);
    hide CacheOf, PcOf;
    assert z.published[0] == t && z.published[1..] == [];
  }

  /** Another arena's traffic: it may take over a thread's cache and use up lifecycle ids. */
  lemma ElsewhereKeepsInv(s: State, s': State)
    requires Inv(s) && s' == s.(caches := s'.caches, generator := s'.generator) && CachesOk(s')
    ensures Inv(s')
  {
    hide MemoryOk, ThreadsOk, CachesOk, PcOk;
    SameMemory(s, s');
    SamePlaces(s, s');
    hide PcOf;
    ThreadsFrame(s, s');
    forall u ensures PcOk(s', u) { SamePcOk(s, s', u); }
  }

  lemma SamePlaces(s: State, s': State)
    requires s'.pcs == s.pcs
    ensures forall u :: PcOf(s', u) == PcOf(s, u)
  {
  }

  lemma OtherArenaKeepsCaches(s: State, t: Tid, id: int, block: BlockId)
    requires CachesOk(s) && 0 <= id < s.generator && id != s.lifecycle
    ensures CachesOk(s.(caches := s.caches[t := Cache(id, block)]))
  {
    var s' := s.(caches := s.caches[t := Cache(id, block)]);
    assert forall u :: CacheOf(s', u) == if u == t then Cache(id, block) else CacheOf(s, u);
    hide CacheOf;
  }

  lemma OtherInitKeepsCaches(s: State)
    requires CachesOk(s)
    ensures CachesOk(s.(generator := s.generator + 1))
  {
    var s' := s.(generator := s.generator + 1);
    assert forall u :: CacheOf(s', u) == CacheOf(s, u);
  }

  lemma SamePcOk(s: State, s': State, u: Tid)
    requires PcOk(s, u) && PcOf(s', u) == PcOf(s, u)
    requires s'.blocks == s.blocks && s'.infos == s.infos && s'.chunks == s.chunks
    ensures PcOk(s', u)
  {
    hide ChunkBytes, PcOf;
  }

  lemma InitKeepsInv(s: State, t: Tid)
    requires Inv(s) && Quiescent(s)
    ensures Inv(Init(s, t))
  {
    hide Inv, MemoryOk, ThreadsOk, PcOk, Init, Next;
    InvParts(s, t);
    hide PcOf, CacheOf;
    InitEstablishesInv(s, t);
  }

  /** Every enabled step finds the memory it reads where it expects it, and keeps the invariant. */
  lemma StepKeepsInv(s: State, e: Step)
    requires Inv(s) && Enabled(s, e)
    ensures Safe(s, e) && Inv(Next(s, e))
  {
    hide Inv, Init, Quiescent, CachesOk, MemoryOk, ThreadsOk, PcOk;
    match e
    case Call(_, _) => AskStepKeepsInv(s, e);
    case Check(_) => AskStepKeepsInv(s, e);
    case Find(_, _) => AskStepKeepsInv(s, e);
    case Load(_) => GrowStepKeepsInv(s, e);
    case CompareAndSwap(_) => GrowStepKeepsInv(s, e);
    case Grow(_, _) => GrowStepKeepsInv(s, e);
    case Take(t) => TakeKeepsInv(s, t);
    case AddNode(t) => AddNodeKeepsInv(s, t);
    case Reset(t) => InitKeepsInv(s, t);
    case OtherArena(t, id, block) =>
      InvParts(s, t);
      OtherArenaKeepsCaches(s, t, id, block);
      ElsewhereKeepsInv(s, Next(s, e));
    case OtherInit =>
      InvParts(s, 0);
      OtherInitKeepsCaches(s);
      ElsewhereKeepsInv(s, Next(s, e));
  }

  // ---------------------------------------------------------------- whole runs

  /** Before the arena exists: no thread is in a call, and caches carry only ids given out. */
  ghost predicate Startable(s: State) {
    ConfigOk(s.config) && 0 <= s.generator && forall u :: PcOf(s, u).Idle? && CacheOf(s, u).lifecycle < s.generator
  }

  /** Any interleaving: the threads' steps in any order that lets each of them happen. A step
      whose memory is missing may lead anywhere. */
  ghost predicate Run(before: State, t: Tid, states: seq<State>, steps: seq<Step>) {
    && Startable(before) && |states| == |steps| + 1 && states[0] == Init(before, t)
    && forall i | 0 <= i < |steps| ::
      && Enabled(states[i], steps[i])
      && (Safe(states[i], steps[i]) ==> states[i + 1] == Next(states[i], steps[i]))
  }

  lemma {:induction false} RunKeepsInv(before: State, t: Tid, states: seq<State>, steps: seq<Step>, n: nat)
    requires Run(before, t, states, steps) && n < |states|
    ensures Inv(states[n])
    ensures n < |steps| ==> Safe(states[n], steps[n]) && states[n + 1] == Next(states[n], steps[n])
    decreases n
  {
    hide Inv, Init, Next, Enabled, Safe, PcOf, CacheOf;
    if n == 0 {
      InitEstablishesInv(before, t);
    } else {
      RunKeepsInv(before, t, states, steps, n - 1);
      StepKeepsInv(states[n - 1], steps[n - 1]);
    }
    if n < |steps| {
      StepKeepsInv(states[n], steps[n]);
    }
  }

  /** In every reachable state, each piece of memory handed out -- to users, for thread records
      and for cleanup chunks -- starts at a multiple of 8 in a block of this arena, past the
      header and inside the block, and shares no byte with any other. */
  lemma RegionsNeverOverlap(before: State, t: Tid, states: seq<State>, steps: seq<Step>, n: nat, i: nat, j: nat)
    requires Run(before, t, states, steps) && n < |states|
    requires i < |states[n].regions| && j < |states[n].regions| && i != j
    ensures var r := states[n].regions[i];
      && r.at.block in states[n].blocks && r.at.offset % 8 == 0 && 40 <= r.at.offset
      && r.at.offset + r.length <= states[n].blocks[r.at.block].size
    ensures Disjoint(states[n].regions[i], states[n].regions[j])
  {
    hide Run, ListsOk, CleanupOk, ChunkHome, TotalSize, TotalUsed, HandedOut, ThreadsOk, CachesOk, PcOk;
    RunKeepsInv(before, t, states, steps, n);
    assert RegionOk(states[n].blocks, states[n].regions[i]);
    assert i < j ==> Disjoint(states[n].regions[i], states[n].regions[j]);
    assert j < i ==> Disjoint(states[n].regions[j], states[n].regions[i]);
  }

  /** In every reachable state, the block a thread got from any of the three paths belongs to
      this arena's current incarnation, is the thread's own and has the room it asked for. */
  lemma BlockFoundIsOwn(before: State, t: Tid, states: seq<State>, steps: seq<Step>, n: nat, u: Tid)
    requires Run(before, t, states, steps) && n < |states| && PcOf(states[n], u).Holding?
    ensures var Holding(b, goal) := PcOf(states[n], u);
      && b in states[n].blocks && states[n].blocks[b].owner == u && states[n].blocks[b].threadInfo == u
      && states[n].blocks[b].size - states[n].blocks[b].pos >= Need(goal)
      && (goal.GetMemory? ==> states[n].blocks[b].size - states[n].blocks[b].pos >= goal.n)
      && (goal.GetChunk? ==> states[n].blocks[b].size - states[n].blocks[b].pos >= 24 + 16 * goal.size)
  {
    hide Run, ListsOk, RegionsOk, CleanupOk, ChunkHome, TotalSize, TotalUsed, HandedOut, ThreadsOk, CachesOk;
    RunKeepsInv(before, t, states, steps, n);
    assert PcOk(states[n], u);
  }

  /** In every reachable state, a thread's cache that carries this arena's lifecycle id names a
      block of the thread's own in the current incarnation, and so does the hint for some thread. */
  lemma CachesNeverStale(before: State, t: Tid, states: seq<State>, steps: seq<Step>, n: nat, u: Tid)
    requires Run(before, t, states, steps) && n < |states|
    ensures var s := states[n];
      && (CacheOf(s, u).lifecycle == s.lifecycle ==>
        CacheOf(s, u).block in s.blocks && s.blocks[CacheOf(s, u).block].owner == u)
      && (s.hint.Some? ==> s.hint.value in s.blocks && s.blocks[s.hint.value].owner in s.infos)
  {
    hide Run, ListsOk, RegionsOk, CleanupOk, ChunkHome, TotalSize, TotalUsed, HandedOut, ThreadsOk, PcOk;
    RunKeepsInv(before, t, states, steps, n);
  }

  /** Memory stays handed out until the arena starts over. */
  lemma OnlyResetForgets(s: State, e: Step)
    requires Inv(s) && Enabled(s, e) && !e.Reset?
    ensures Safe(s, e)
    ensures Remembers(s, Next(s, e))
  {
    hide Inv, Next, Enabled, Safe;
    StepKeepsInv(s, e);
    match e
    case Find(_, _) => FindForgetsNothing(s, e);
    case Grow(_, _) => GrowForgetsNothing(s, e);
    case Take(_) => TakeForgetsNothing(s, e);
    case _ => KeepsBlocks(s, e);
  }

  ghost predicate Remembers(s: State, z: State) {
    && s.regions <= z.regions
    && forall b | b in s.blocks :: b in z.blocks && z.blocks[b].size == s.blocks[b].size
  }

  lemma FindForgetsNothing(s: State, e: Step)
    requires e.Find? && Enabled(s, e) && Safe(s, e)
    ensures Remembers(s, Next(s, e))
  {
    hide Need, NewBlockSize, Safe;
  }

  lemma GrowForgetsNothing(s: State, e: Step)
    requires e.Grow? && Enabled(s, e) && Safe(s, e)
    ensures Remembers(s, Next(s, e))
  {
    hide Need, NewBlockSize;
  }

  lemma TakeForgetsNothing(s: State, e: Step)
    requires e.Take? && Enabled(s, e) && Safe(s, e)
    ensures Remembers(s, Next(s, e))
  {
    hide Need, ChunkBytes;
  }

  lemma KeepsBlocks(s: State, e: Step)
    requires Enabled(s, e) && Safe(s, e) && !e.Find? && !e.Grow? && !e.Take? && !e.Reset?
    ensures Remembers(s, Next(s, e))
  {
    hide Need, CheckCaches, ChunkBytes, NextChunkSize;
  }

  /** A request for memory is answered with exactly one new region: as many bytes as asked for,
      in a block of the caller's own; a cleanup asked for along with it is for that address. */
  lemma RequestAnswered(s: State, t: Tid, n: nat, cleanup: Option<nat>)
    requires Inv(s) && Enabled(s, Take(t)) && PcOf(s, t).goal == GetMemory(n, cleanup)
    ensures Safe(s, Take(t))
    ensures var z := Next(s, Take(t));
      && |z.regions| == |s.regions| + 1 && z.regions[..|s.regions|] == s.regions
      && var r := z.regions[|s.regions|];
         && r.length == n && r.use == User && r.at.block in z.blocks && z.blocks[r.at.block].owner == t
         && (cleanup == None ==> PcOf(z, t).Idle?)
         && (cleanup.Some? ==> Pending(PcOf(z, t)) == Some(Node(Inside(r.at), cleanup.value)))
  {
    hide Inv, MemoryOk, ThreadsOk, CachesOk, PcOk, ChunkBytes, Need, PushChunk;
    TakeKeepsInv(s, t);
    InvParts(s, t);
    UsersOwn(s, t);
  }

  /** The cleanup a thread's call still has to register. */
  function Pending(pc: Pc): Option<Node> {
    match pc
    case Adding(_, node) => Some(node)
    case Idle => None
    case _ =>
      match pc.goal
      case GetMemory(_, _) => None
      case GetAny(node) => Some(node)
      case GetChunk(_, node) => Some(node)
  }

  /** Nothing is registered for `u` and what is pending stays so; or its pending cleanup is
      added to its registrations and its call is over. */
  predicate KeptOrRegistered(s: State, z: State, u: Tid) {
    var pending := Pending(PcOf(s, u));
    || (Registered(z, u) == Registered(s, u) && (pending.Some? ==> Pending(PcOf(z, u)) == pending))
    || (pending.Some? && Registered(z, u) == Registered(s, u) + [pending.value] && PcOf(z, u).Idle?)
  }

  /** A cleanup is registered exactly once, by the step that ends its call: a step changes the
      registrations of its own thread only, and only to add the cleanup pending there, which is
      then pending no more; while it is not added it stays pending. */
  lemma RegisteredOnce(s: State, e: Step, u: Tid)
    requires Inv(s) && Enabled(s, e) && !e.Reset?
    ensures Safe(s, e)
    ensures KeptOrRegistered(s, Next(s, e), u)
  {
    hide Inv, Next, CheckCaches, ChunkBytes, Need, NextChunkSize, NewBlockSize, PcOk, MemoryOk;
    StepKeepsInv(s, e);
    match e
    case Take(t) => TakeRegisters(s, t, u);
    case AddNode(t) => AddNodeRegisters(s, t, u);
    case Check(t) => CheckRegisters(s, t, u);
    case Find(_, _) => FindOrGrowRegisters(s, e, u);
    case Grow(_, _) => FindOrGrowRegisters(s, e, u);
    case _ => OthersRegister(s, e, u);
  }

  lemma CheckRegisters(s: State, t: Tid, u: Tid)
    requires Enabled(s, Check(t)) && Safe(s, Check(t))
    ensures KeptOrRegistered(s, Next(s, Check(t)), u)
  {
    hide Need;
  }

  lemma FindOrGrowRegisters(s: State, e: Step, u: Tid)
    requires Enabled(s, e) && Safe(s, e) && (e.Find? || e.Grow?)
    ensures KeptOrRegistered(s, Next(s, e), u)
  {
    hide Need, NewBlockSize;
  }

  lemma OthersRegister(s: State, e: Step, u: Tid)
    requires Enabled(s, e) && Safe(s, e)
    requires e.Call? || e.Load? || e.CompareAndSwap? || e.OtherArena? || e.OtherInit?
    ensures KeptOrRegistered(s, Next(s, e), u)
  {
    hide Need;
  }

  lemma TakeRegisters(s: State, t: Tid, u: Tid)
    requires Inv(s) && Enabled(s, Take(t)) && Safe(s, Take(t))
    ensures KeptOrRegistered(s, Next(s, Take(t)), u)
  {
    hide Inv, MemoryOk, ThreadsOk, CachesOk, PcOk, ChunkBytes, Need, NextChunkSize;
    InvParts(s, t);
    UsersOwn(s, t);
    OwnerHasRecord(s, PcOf(s, t).block);
  }

  lemma AddNodeRegisters(s: State, t: Tid, u: Tid)
    requires Inv(s) && Enabled(s, AddNode(t)) && Safe(s, AddNode(t))
    ensures KeptOrRegistered(s, Next(s, AddNode(t)), u)
  {
    hide Inv, MemoryOk, ThreadsOk, CachesOk, PcOk, ChunkBytes, Need, NextChunkSize;
    InvParts(s, t);
    UsersOwn(s, t);
    OwnerHasRecord(s, PcOf(s, t).block);
  }

  /** The capacities the growth rule gives: 8, 16, 32, then 64 for ever. */
  lemma {:induction false} CapacitySequence(n: nat)
    ensures Capacity(n) == if n == 0 then 8 else if n == 1 then 16 else if n == 2 then 32 else 64
  {
    if n > 0 { CapacitySequence(n - 1); }
  }
}
