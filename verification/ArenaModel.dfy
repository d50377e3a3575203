/** A concurrent arena allocator as a state machine. Each step holds one access to the shared
    list head or hint together with the thread-private work around it, so every interleaving
    of threads is a sequence of steps. Memory is a set of blocks; records inside blocks are
    named by (block, offset) addresses. */
module ArenaModel {
  import opened Options
  import opened Numbers

  type Tid = nat
  type BlockId = nat

  /** A byte position inside a block. */
  datatype Address = Address(block: BlockId, offset: nat)

  /** Sizes of the records on a 64-bit machine; all multiples of 8. */
  const HEADER_SIZE: nat := 40
  const THREAD_INFO_SIZE: nat := 32
  const MIN_CLEANUP_LIST_ELEMENTS: nat := 8
  const MAX_CLEANUP_LIST_ELEMENTS: nat := 64

  function AlignUpTo8(n: nat): (r: nat)
    ensures r % 8 == 0 && n <= r < n + 8
  {
    (n + 7) / 8 * 8
  }

  /** A chunk of `i` cleanup nodes: three words, then two words a node. */
  function ChunkBytes(i: nat): (r: nat)
    ensures r % 8 == 0
  {
    AlignUpTo8(24 + 16 * i)
  }

  // ---------------------------------------------------------------- state

  datatype Elem = Inside(at: Address) | Outside(pointer: nat)

  datatype Node = Node(elem: Elem, cleanup: nat)

  /** `nodes` is the used part of the array; `size` its capacity. */
  datatype Chunk = Chunk(nodes: seq<Node>, size: nat, next: Option<Address>)

  datatype Block = Block(owner: Tid, threadInfo: Tid, next: Option<BlockId>, pos: nat, size: nat)

  /** A thread's record, named by its thread. The two sequences spell out the linked lists
      that start at `head` and `cleanup`. */
  datatype Info = Info(head: BlockId, cleanup: Option<Address>, next: Option<Tid>,
                       blocks: seq<BlockId>, chunks: seq<Address>)

  datatype Use = Record | Chunks | User

  /** Memory that has been handed out. */
  datatype Region = Region(at: Address, length: nat, use: Use)

  datatype Cache = Cache(lifecycle: int, block: BlockId)

  datatype Goal =
    | GetMemory(n: nat, cleanup: Option<nat>)
    | GetAny(node: Node)
    | GetChunk(size: nat, node: Node)

  /** Where a thread is inside an arena call. */
  datatype Pc =
    | Idle
    | Wanting(goal: Goal)
    | Searching(goal: Goal)
    | Pushing(goal: Goal, expected: Option<Option<Tid>>)
    | Growing(info: Tid, goal: Goal)
    | Holding(block: BlockId, goal: Goal)
    | Adding(block: BlockId, node: Node)

  datatype Config = Config(startBlockSize: nat, maxBlockSize: nat, initial: Option<BlockId>, initialSize: nat)

  datatype State = State(
    config: Config,
    lifecycle: int,
    generator: int,
    hint: Option<BlockId>,
    threads: Option<Tid>,
    spaceAllocated: nat,
    blocks: map<BlockId, Block>,
    infos: map<Tid, Info>,
    chunks: map<Address, Chunk>,
    caches: map<Tid, Cache>,
    pcs: map<Tid, Pc>,
    // history
    published: seq<Tid>,
    created: seq<Tid>,
    regions: seq<Region>,
    registered: map<Tid, seq<Node>>)

  function PcOf(s: State, t: Tid): Pc {
    if t in s.pcs then s.pcs[t] else Idle
  }

  function CacheOf(s: State, t: Tid): Cache {
    if t in s.caches then s.caches[t] else Cache(-1, 0)
  }

  function Registered(s: State, t: Tid): seq<Node> {
    if t in s.registered then s.registered[t] else []
  }

  function Avail(b: Block): int {
    b.size - b.pos
  }

  /** The bytes a goal asks its block for. */
  function Need(goal: Goal): nat {
    match goal
    case GetMemory(n, _) => n
    case GetAny(_) => 0
    case GetChunk(size, _) => ChunkBytes(size)
  }

  // ---------------------------------------------------------------- pieces of steps

  function NewBlockSize(c: Config, last: Option<Block>, minBytes: nat): (size: nat)
    ensures size >= HEADER_SIZE + minBytes
  {
    var preferred := if last.Some? then Min(2 * last.value.size, c.maxBlockSize) else c.startBlockSize;
    Max(preferred, HEADER_SIZE + minBytes)
  }

  /** Carves `n` bytes off the front of a block's free space. */
  function AllocFromBlock(s: State, b: BlockId, n: nat, use: Use): State
    requires b in s.blocks
  {
    var k := s.blocks[b];
    s.(blocks := s.blocks[b := k.(pos := k.pos + n)],
       regions := s.regions + [Region(Address(b, k.pos), n, use)])
  }

  /** A thread's first block, with the thread's record at its front, not yet published. */
  function FirstBlock(s: State, t: Tid, b: BlockId, size: nat): State {
    s.(blocks := s.blocks[b := Block(t, t, None, HEADER_SIZE + THREAD_INFO_SIZE, size)],
       infos := s.infos[t := Info(b, None, None, [b], [])],
       created := s.created + [t],
       regions := s.regions + [Region(Address(b, HEADER_SIZE), THREAD_INFO_SIZE, Record)],
       spaceAllocated := s.spaceAllocated + size)
  }

  /** A further block at the head of a thread's list. */
  function PushBlock(s: State, t: Tid, b: BlockId, size: nat): State
    requires t in s.infos
  {
    var i := s.infos[t];
    s.(blocks := s.blocks[b := Block(t, t, Some(i.head), HEADER_SIZE, size)],
       infos := s.infos[t := i.(head := b, blocks := [b] + i.blocks)],
       spaceAllocated := s.spaceAllocated + size)
  }

  function CacheBlock(s: State, t: Tid, b: BlockId): State {
    s.(caches := s.caches[t := Cache(s.lifecycle, b)], hint := Some(b))
  }

  function Go(s: State, t: Tid, pc: Pc): State {
    s.(pcs := s.pcs[t := pc])
  }

  function AppendNode(s: State, t: Tid, chunk: Address, node: Node): State
    requires chunk in s.chunks
  {
    var c := s.chunks[chunk];
    s.(chunks := s.chunks[chunk := c.(nodes := c.nodes + [node])],
       registered := s.registered[t := Registered(s, t) + [node]])
  }

  /** A new chunk at the front of the owner's cleanup list, holding its first node. */
  function PushChunk(s: State, t: Tid, b: BlockId, size: nat, node: Node): State
    requires b in s.blocks && t in s.infos
  {
    var at, i := Address(b, s.blocks[b].pos), s.infos[t];
    var a := AllocFromBlock(s, b, ChunkBytes(size), Chunks);
    a.(chunks := s.chunks[at := Chunk([node], size, i.cleanup)],
       infos := s.infos[t := i.(cleanup := Some(at), chunks := [at] + i.chunks)],
       registered := s.registered[t := Registered(s, t) + [node]])
  }

  function NextChunkSize(s: State, cleanup: Option<Address>): (n: nat) {
    if cleanup.Some? && cleanup.value in s.chunks
    then Min(2 * s.chunks[cleanup.value].size, MAX_CLEANUP_LIST_ELEMENTS)
    else MIN_CLEANUP_LIST_ELEMENTS
  }

  // ---------------------------------------------------------------- steps

  datatype Step =
    | Call(t: Tid, goal: Goal)
    | Check(t: Tid)
    | Find(t: Tid, given: BlockId)
    | Load(t: Tid)
    | CompareAndSwap(t: Tid)
    | Grow(t: Tid, given: BlockId)
    | Take(t: Tid)
    | AddNode(t: Tid)
    | Reset(t: Tid)
    | OtherArena(t: Tid, lifecycle: int, block: BlockId)
    | OtherInit

  /** No thread is inside a call; resetting the arena and asking for its totals need this. */
  ghost predicate Quiescent(s: State) {
    forall t :: PcOf(s, t).Idle?
  }

  /** Whether a step can happen now; blocks come from the heap, so a new one is at an address
      where none of the arena's blocks is. */
  ghost predicate Enabled(s: State, e: Step) {
    match e
    case Call(t, goal) =>
      PcOf(s, t).Idle? && !goal.GetChunk? && (goal.GetMemory? ==> goal.n % 8 == 0)
    case Check(t) => PcOf(s, t).Wanting?
    case Find(t, given) => PcOf(s, t).Searching? && given !in s.blocks && s.config.initial != Some(given)
    case Load(t) => PcOf(s, t).Pushing? && PcOf(s, t).expected == None
    case CompareAndSwap(t) => PcOf(s, t).Pushing? && PcOf(s, t).expected != None
    case Grow(t, given) => PcOf(s, t).Growing? && given !in s.blocks && s.config.initial != Some(given)
    case Take(t) => PcOf(s, t).Holding?
    case AddNode(t) => PcOf(s, t).Adding?
    case Reset(t) => Quiescent(s)
    case OtherArena(t, id, _) => PcOf(s, t).Idle? && 0 <= id < s.generator && id != s.lifecycle
    case OtherInit => true
  }

  /** The fast paths of a block request: the thread's own cache, then the shared hint. */
  function CheckCaches(s: State, t: Tid, goal: Goal): Pc
    requires CacheOf(s, t).lifecycle == s.lifecycle ==> CacheOf(s, t).block in s.blocks
    requires s.hint.Some? ==> s.hint.value in s.blocks
  {
    var c := CacheOf(s, t);
    var cached := c.lifecycle == s.lifecycle;
    if cached && Avail(s.blocks[c.block]) >= Need(goal) then Holding(c.block, goal)
    else if s.hint.Some? && s.blocks[s.hint.value].owner == t then
      if Avail(s.blocks[s.hint.value]) >= Need(goal) then Holding(s.hint.value, goal)
      else Growing(s.blocks[s.hint.value].threadInfo, goal)
    else if cached then Growing(s.blocks[c.block].threadInfo, goal)
    else Searching(goal)
  }

  /** A freshly initialised arena: a new lifecycle id, no threads, and the initial block, if
      there is one, owned by the calling thread. */
  function Init(s: State, t: Tid): State {
    var empty := s.(lifecycle := s.generator, generator := s.generator + 1, hint := None, threads := None,
      spaceAllocated := 0, blocks := map[], infos := map[], chunks := map[], published := [], created := [],
      regions := [], registered := map[]);
    if s.config.initial == None then empty
    else
      var first := FirstBlock(empty, t, s.config.initial.value, s.config.initialSize);
      CacheBlock(first.(threads := Some(t), published := [t]), t, s.config.initial.value)
  }

  /** What a step needs to find in memory; the invariant below provides it. */
  ghost predicate Safe(s: State, e: Step) {
    match e
    case Check(t) =>
      && (CacheOf(s, t).lifecycle == s.lifecycle ==> CacheOf(s, t).block in s.blocks)
      && (s.hint.Some? ==> s.hint.value in s.blocks)
    case Load(t) => t in s.infos
    case Grow(t, _) =>
      PcOf(s, t).Growing? ==> PcOf(s, t).info in s.infos && s.infos[PcOf(s, t).info].head in s.blocks
    case Take(t) =>
      PcOf(s, t).Holding? ==>
        PcOf(s, t).block in s.blocks && s.blocks[PcOf(s, t).block].threadInfo in s.infos
    case AddNode(t) =>
      PcOf(s, t).Adding? ==>
        && PcOf(s, t).block in s.blocks && s.blocks[PcOf(s, t).block].threadInfo in s.infos
        && var c := s.infos[s.blocks[PcOf(s, t).block].threadInfo].cleanup;
           c.Some? ==> c.value in s.chunks
    case _ => true
  }

  function Next(s: State, e: Step): State
    requires Enabled(s, e) && Safe(s, e)
  {
    match e
    case Call(t, goal) => Go(s, t, Wanting(goal))
    case Check(t) => Go(s, t, CheckCaches(s, t, PcOf(s, t).goal))
    case Find(t, given) =>
      var goal := PcOf(s, t).goal;
      if t in s.published then Go(s, t, Growing(t, goal))
      else Go(FirstBlock(s, t, given, NewBlockSize(s.config, None, THREAD_INFO_SIZE + Need(goal))), t,
        Pushing(goal, None))
    case Load(t) =>
      Go(s.(infos := s.infos[t := s.infos[t].(next := s.threads)]), t, Pushing(PcOf(s, t).goal, Some(s.threads)))
    case CompareAndSwap(t) =>
      if s.threads == PcOf(s, t).expected.value
      then Go(s.(threads := Some(t), published := [t] + s.published), t, Growing(t, PcOf(s, t).goal))
      else Go(s, t, Pushing(PcOf(s, t).goal, None))
    case Grow(t, given) =>
      var Growing(i, goal) := PcOf(s, t);
      var head := s.infos[i].head;
      if Avail(s.blocks[head]) >= Need(goal) then Go(CacheBlock(s, t, head), t, Holding(head, goal))
      else
        var size := NewBlockSize(s.config, Some(s.blocks[head]), Need(goal));
        Go(CacheBlock(PushBlock(s, i, given, size), t, given), t, Holding(given, goal))
    case Take(t) =>
      var Holding(b, goal) := PcOf(s, t);
      (match goal
       case GetMemory(n, cleanup) =>
         var at := Address(b, s.blocks[b].pos);
         var a := AllocFromBlock(s, b, n, User);
         Go(a, t, if cleanup.Some? then Adding(b, Node(Inside(at), cleanup.value)) else Idle)
       case GetAny(node) => Go(s, t, Adding(b, node))
       case GetChunk(size, node) => Go(PushChunk(s, s.blocks[b].threadInfo, b, size, node), t, Idle))
    case AddNode(t) =>
      var Adding(b, node) := PcOf(s, t);
      var i := s.blocks[b].threadInfo;
      var cleanup := s.infos[i].cleanup;
      if cleanup == None || |s.chunks[cleanup.value].nodes| == s.chunks[cleanup.value].size then
        var size := NextChunkSize(s, cleanup);
        if Avail(s.blocks[b]) < ChunkBytes(size) then Go(s, t, Wanting(GetChunk(size, node)))
        else Go(s, t, Holding(b, GetChunk(size, node)))
      else Go(AppendNode(s, i, cleanup.value, node), t, Idle)
    case Reset(t) => Init(s, t)
    case OtherArena(t, id, block) => s.(caches := s.caches[t := Cache(id, block)])
    case OtherInit => s.(generator := s.generator + 1)
  }
}
