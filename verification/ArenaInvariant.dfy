/** What every step of every thread keeps: ownership of blocks, the linked lists, disjoint
    regions, caches that never go stale, cleanup lists and the accounts. */
module ArenaInvariant {
  import opened Options
  import opened Lists
  import opened ArenaModel
  import opened Numbers

  // ---------------------------------------------------------------- the invariant

  /** Every block has an owner whose list it is on, and its free space starts at a multiple of 8. */
  ghost predicate BlocksOk(blocks: map<BlockId, Block>, infos: map<Tid, Info>) {
    forall b | b in blocks ::
      && blocks[b].threadInfo == blocks[b].owner && blocks[b].owner in infos
      && b in infos[blocks[b].owner].blocks
      && HEADER_SIZE <= blocks[b].pos <= blocks[b].size && blocks[b].pos % 8 == 0
  }

  /** The blocks of one thread, newest first, linked by `next`. */
  ghost predicate ListOk(blocks: map<BlockId, Block>, t: Tid, i: Info) {
    && First(i.blocks) == Some(i.head) && Distinct(i.blocks)
    && (forall k | 0 <= k < |i.blocks| :: i.blocks[k] in blocks && blocks[i.blocks[k]].owner == t)
    && (forall k | 0 <= k < |i.blocks| :: blocks[i.blocks[k]].next == Link(i.blocks, k))
  }

  ghost predicate ListsOk(blocks: map<BlockId, Block>, infos: map<Tid, Info>) {
    forall t | t in infos :: ListOk(blocks, t, infos[t])
  }

  ghost predicate RegionOk(blocks: map<BlockId, Block>, r: Region) {
    && r.at.block in blocks && r.at.offset % 8 == 0 && HEADER_SIZE <= r.at.offset
    && r.at.offset + r.length <= blocks[r.at.block].pos
  }

  /** No byte belongs to both. */
  predicate Disjoint(r: Region, q: Region) {
    r.at.block != q.at.block || r.at.offset + r.length <= q.at.offset || q.at.offset + q.length <= r.at.offset
  }

  ghost predicate RegionsOk(blocks: map<BlockId, Block>, regions: seq<Region>) {
    && (forall i | 0 <= i < |regions| :: RegionOk(blocks, regions[i]))
    && (forall i, j | 0 <= i < j < |regions| :: Disjoint(regions[i], regions[j]))
  }

  /** The nodes of a chunk list, oldest first. */
  function NodesOf(chunks: map<Address, Chunk>, list: seq<Address>): seq<Node> {
    if list == [] then []
    else NodesOf(chunks, list[1..]) + (if list[0] in chunks then chunks[list[0]].nodes else [])
  }

  /** The cleanup chunks of one thread, newest first: all but the newest are full, and
      capacities grow 8, 16, 32, 64, 64, ... */
  ghost predicate ChunkListOk(blocks: map<BlockId, Block>, chunks: map<Address, Chunk>, t: Tid, i: Info) {
    && i.cleanup == First(i.chunks) && Distinct(i.chunks)
    && forall k | 0 <= k < |i.chunks| ::
      && i.chunks[k] in chunks
      && i.chunks[k].block in blocks && blocks[i.chunks[k].block].owner == t
      && chunks[i.chunks[k]].next == Link(i.chunks, k)
      && 1 <= |chunks[i.chunks[k]].nodes| <= chunks[i.chunks[k]].size
      && (k > 0 ==> |chunks[i.chunks[k]].nodes| == chunks[i.chunks[k]].size)
      && chunks[i.chunks[k]].size == Capacity(|i.chunks| - 1 - k)
  }

  function Capacity(age: nat): nat {
    if age == 0 then MIN_CLEANUP_LIST_ELEMENTS else Min(2 * Capacity(age - 1), MAX_CLEANUP_LIST_ELEMENTS)
  }

  ghost predicate ChunkHome(blocks: map<BlockId, Block>, chunks: map<Address, Chunk>, regions: seq<Region>) {
    forall a | a in chunks ::
      && a.block in blocks && a.offset < blocks[a.block].pos
      && Region(a, ChunkBytes(chunks[a].size), Chunks) in regions
  }

  ghost predicate CleanupOk(blocks: map<BlockId, Block>, infos: map<Tid, Info>, chunks: map<Address, Chunk>,
      registered: map<Tid, seq<Node>>) {
    && (forall t | t in infos ::
      && ChunkListOk(blocks, chunks, t, infos[t])
      && NodesOf(chunks, infos[t].chunks) == if t in registered then registered[t] else [])
    && (forall t | t in registered :: t in infos)
  }

  function SizeOf(blocks: map<BlockId, Block>, list: seq<BlockId>): nat {
    if list == [] then 0
    else (if list[0] in blocks then blocks[list[0]].size else 0) + SizeOf(blocks, list[1..])
  }

  function UsedOf(blocks: map<BlockId, Block>, list: seq<BlockId>): int {
    if list == [] then 0
    else (if list[0] in blocks then blocks[list[0]].pos - HEADER_SIZE else 0) + UsedOf(blocks, list[1..])
  }

  /** The total size of the blocks of some threads. */
  function TotalSize(blocks: map<BlockId, Block>, infos: map<Tid, Info>, threads: seq<Tid>): nat {
    if threads == [] then 0 else
    var first := if threads[0] in infos then SizeOf(blocks, infos[threads[0]].blocks) else 0;
    first + TotalSize(blocks, infos, threads[1..])
  }

  /** The bytes handed out in the blocks of some threads, their records not counted. */
  function TotalUsed(blocks: map<BlockId, Block>, infos: map<Tid, Info>, threads: seq<Tid>): int {
    if threads == [] then 0 else
    var first := if threads[0] in infos then UsedOf(blocks, infos[threads[0]].blocks) - THREAD_INFO_SIZE else 0;
    first + TotalUsed(blocks, infos, threads[1..])
  }

  /** The length of every region except thread records. */
  function HandedOut(regions: seq<Region>): nat {
    if regions == [] then 0
    else (if regions[0].use == Record then 0 else regions[0].length) + HandedOut(regions[1..])
  }

  /** Memory: everything about blocks, lists, regions, cleanups and accounts. */
  ghost predicate MemoryOk(s: State) {
    && BlocksOk(s.blocks, s.infos)
    && ListsOk(s.blocks, s.infos)
    && RegionsOk(s.blocks, s.regions)
    && CleanupOk(s.blocks, s.infos, s.chunks, s.registered)
    && ChunkHome(s.blocks, s.chunks, s.regions)
    && Distinct(s.created) && (forall t :: t in s.created <==> t in s.infos)
    && s.spaceAllocated == TotalSize(s.blocks, s.infos, s.created)
    && HandedOut(s.regions) == TotalUsed(s.blocks, s.infos, s.created)
  }

  /** The shared list of thread records; a record not on it belongs to a thread still pushing it. */
  ghost predicate ThreadsOk(s: State) {
    && s.threads == First(s.published) && Distinct(s.published)
    && (forall k | 0 <= k < |s.published| ::
      s.published[k] in s.infos && s.infos[s.published[k]].next == Link(s.published, k))
    && (forall t | t in s.infos :: t in s.published <==> !PcOf(s, t).Pushing?)
  }

  /** No cache that carries this arena's lifecycle id is stale. */
  ghost predicate CachesOk(s: State) {
    && 0 <= s.lifecycle < s.generator
    && (s.hint.Some? ==> s.hint.value in s.blocks)
    && (forall t :: CacheOf(s, t).lifecycle < s.generator)
    && (forall t | CacheOf(s, t).lifecycle == s.lifecycle ::
      CacheOf(s, t).block in s.blocks && s.blocks[CacheOf(s, t).block].owner == t)
  }

  /** The thread's cleanup list is out of room and the goal asks for the next capacity. */
  ghost predicate ChunkWanted(s: State, t: Tid, goal: Goal) {
    goal.GetChunk? ==>
      && t in s.infos
      && goal.size == NextChunkSize(s, s.infos[t].cleanup)
      && (s.infos[t].cleanup.Some? ==>
        s.infos[t].cleanup.value in s.chunks &&
        |s.chunks[s.infos[t].cleanup.value].nodes| == s.chunks[s.infos[t].cleanup.value].size)
  }

  ghost predicate PcOk(s: State, t: Tid) {
    match PcOf(s, t)
    case Idle => true
    case Wanting(goal) => Need(goal) % 8 == 0 && ChunkWanted(s, t, goal)
    case Searching(goal) => Need(goal) % 8 == 0 && ChunkWanted(s, t, goal)
    case Pushing(goal, expected) =>
      && (expected.Some? ==> t in s.infos && s.infos[t].next == expected.value)
      && Need(goal) % 8 == 0 && ChunkWanted(s, t, goal)
      && t in s.infos && s.infos[t].head in s.blocks && Avail(s.blocks[s.infos[t].head]) >= Need(goal)
    case Growing(i, goal) => Need(goal) % 8 == 0 && ChunkWanted(s, t, goal) && i == t && t in s.infos
    case Holding(b, goal) =>
      && Need(goal) % 8 == 0 && ChunkWanted(s, t, goal)
      && b in s.blocks && s.blocks[b].owner == t && Avail(s.blocks[b]) >= Need(goal)
    case Adding(b, _) => b in s.blocks && s.blocks[b].owner == t
  }

  /** The initial block, when given, must have room for its header and a thread record. */
  predicate ConfigOk(c: Config) {
    c.initial.Some? ==> HEADER_SIZE + THREAD_INFO_SIZE <= c.initialSize
  }

  ghost predicate Inv(s: State) {
    && ConfigOk(s.config) && MemoryOk(s) && ThreadsOk(s) && CachesOk(s) && (forall t :: PcOk(s, t))
  }

  // ---------------------------------------------------------------- sums

  lemma {:induction false} SumsFrame(blocks: map<BlockId, Block>, blocks': map<BlockId, Block>, list: seq<BlockId>)
    requires forall b | b in list :: b in blocks && b in blocks' && blocks'[b] == blocks[b]
    ensures SizeOf(blocks', list) == SizeOf(blocks, list) && UsedOf(blocks', list) == UsedOf(blocks, list)
  {
    if list != [] {
      SumsFrame(blocks, blocks', list[1..]);
    }
  }

  lemma {:induction false} TotalsFrame(blocks: map<BlockId, Block>, blocks': map<BlockId, Block>,
      infos: map<Tid, Info>, infos': map<Tid, Info>, threads: seq<Tid>)
    requires forall t | t in threads :: t in infos && t in infos' && infos'[t].blocks == infos[t].blocks
    requires forall t, b | t in threads && b in infos[t].blocks ::
      b in blocks && b in blocks' && blocks'[b] == blocks[b]
    ensures TotalSize(blocks', infos', threads) == TotalSize(blocks, infos, threads)
    ensures TotalUsed(blocks', infos', threads) == TotalUsed(blocks, infos, threads)
  {
    if threads != [] {
      SumsFrame(blocks, blocks', infos[threads[0]].blocks);
      TotalsFrame(blocks, blocks', infos, infos', threads[1..]);
    }
  }

  lemma {:induction false} HandedOutSnoc(regions: seq<Region>, r: Region)
    ensures HandedOut(regions + [r]) == HandedOut(regions) + if r.use == Record then 0 else r.length
  {
    if regions == [] {
      assert regions + [r] == [r] && [r][1..] == [];
    } else {
      assert (regions + [r])[1..] == regions[1..] + [r];
      HandedOutSnoc(regions[1..], r);
    }
  }

  lemma {:induction false} TotalsSnoc(blocks: map<BlockId, Block>, infos: map<Tid, Info>, threads: seq<Tid>, t: Tid)
    requires t in infos
    ensures TotalSize(blocks, infos, threads + [t]) ==
      TotalSize(blocks, infos, threads) + SizeOf(blocks, infos[t].blocks)
    ensures TotalUsed(blocks, infos, threads + [t]) ==
      TotalUsed(blocks, infos, threads) + UsedOf(blocks, infos[t].blocks) - THREAD_INFO_SIZE
  {
    if threads == [] {
      assert threads + [t] == [t] && [t][1..] == [];
    } else {
      assert (threads + [t])[1..] == threads[1..] + [t];
      TotalsSnoc(blocks, infos, threads[1..], t);
    }
  }

  /** Moving one block's position moves only that block's share of the sums. */
  lemma {:induction false} SumsUpdate(blocks: map<BlockId, Block>, list: seq<BlockId>, b: BlockId, k: Block)
    requires b in blocks && Distinct(list) && k.size == blocks[b].size
    ensures SizeOf(blocks[b := k], list) == SizeOf(blocks, list)
    ensures UsedOf(blocks[b := k], list) == UsedOf(blocks, list) + if b in list then k.pos - blocks[b].pos else 0
  {
    if list != [] {
      SumsUpdate(blocks, list[1..], b, k);
    }
  }

  lemma {:induction false} TotalsUpdate(blocks: map<BlockId, Block>, infos: map<Tid, Info>, threads: seq<Tid>,
      t: Tid, b: BlockId, k: Block)
    requires b in blocks && Distinct(threads) && k.size == blocks[b].size
    requires forall u | u in threads :: u in infos && Distinct(infos[u].blocks) && (b in infos[u].blocks <==> u == t)
    ensures TotalSize(blocks[b := k], infos, threads) == TotalSize(blocks, infos, threads)
    ensures TotalUsed(blocks[b := k], infos, threads) ==
      TotalUsed(blocks, infos, threads) + if t in threads then k.pos - blocks[b].pos else 0
  {
    if threads != [] {
      assert threads[0] in threads;
      SumsUpdate(blocks, infos[threads[0]].blocks, b, k);
      TotalsUpdate(blocks, infos, threads[1..], t, b, k);
    }
  }

  /** A new block at the head of one thread's list adds its own share to the sums. */
  lemma {:induction false} TotalsPush(blocks: map<BlockId, Block>, infos: map<Tid, Info>, threads: seq<Tid>,
      t: Tid, i: Info, b: BlockId, k: Block)
    requires Distinct(threads) && t in infos && i.blocks == [b] + infos[t].blocks && b !in blocks
    requires forall u | u in threads :: u in infos && forall c | c in infos[u].blocks :: c in blocks
    ensures TotalSize(blocks[b := k], infos[t := i], threads) ==
      TotalSize(blocks, infos, threads) + if t in threads then k.size else 0
    ensures TotalUsed(blocks[b := k], infos[t := i], threads) ==
      TotalUsed(blocks, infos, threads) + if t in threads then k.pos - HEADER_SIZE else 0
  {
    if threads != [] {
      var u := threads[0];
      assert u in threads;
      SumsFrame(blocks, blocks[b := k], infos[u].blocks);
      assert u == t ==> i.blocks[0] == b && i.blocks[1..] == infos[t].blocks;
      TotalsPush(blocks, infos, threads[1..], t, i, b, k);
    }
  }
}
