/** Each way the allocator changes its blocks, lists and chunks keeps them well formed. */
module ArenaMemory {
  import opened Options
  import opened Lists
  import opened ArenaModel
  import opened ArenaInvariant

  // ---------------------------------------------------------------- one component at a time

  /** A block is on exactly its owner's list. */
  lemma OnOwnersListOnly(blocks: map<BlockId, Block>, infos: map<Tid, Info>, b: BlockId, u: Tid)
    requires BlocksOk(blocks, infos) && ListsOk(blocks, infos) && b in blocks && u in infos
    ensures b in infos[u].blocks <==> u == blocks[b].owner
    ensures Distinct(infos[u].blocks) && forall c | c in infos[u].blocks :: c in blocks
  {
    hide Link, First;
    assert ListOk(blocks, u, infos[u]);
  }

  lemma ListsMembers(blocks: map<BlockId, Block>, infos: map<Tid, Info>, u: Tid)
    requires ListsOk(blocks, infos) && u in infos
    ensures Distinct(infos[u].blocks) && forall c | c in infos[u].blocks :: c in blocks
  {
    hide Link, First;
    assert ListOk(blocks, u, infos[u]);
  }

  /** Blocks may move their positions, and new blocks may appear, under unchanged lists. */
  ghost predicate Grown(blocks: map<BlockId, Block>, blocks': map<BlockId, Block>) {
    forall b | b in blocks :: b in blocks' && blocks[b].pos <= blocks'[b].pos &&
      blocks'[b] == blocks[b].(pos := blocks'[b].pos)
  }

  lemma ListFrame(blocks: map<BlockId, Block>, blocks': map<BlockId, Block>, t: Tid, i: Info)
    requires Grown(blocks, blocks') && ListOk(blocks, t, i)
    ensures ListOk(blocks', t, i)
  {
    hide Link, First, Distinct;
  }

  lemma ListsFrame(blocks: map<BlockId, Block>, blocks': map<BlockId, Block>, infos: map<Tid, Info>)
    requires Grown(blocks, blocks') && ListsOk(blocks, infos)
    ensures ListsOk(blocks', infos)
  {
    hide ListOk, Grown;
    forall t | t in infos ensures ListOk(blocks', t, infos[t]) { ListFrame(blocks, blocks', t, infos[t]); }
  }

  lemma RegionFrame(blocks: map<BlockId, Block>, blocks': map<BlockId, Block>, r: Region)
    requires Grown(blocks, blocks') && RegionOk(blocks, r)
    ensures RegionOk(blocks', r)
  {
  }

  lemma RegionsFrame(blocks: map<BlockId, Block>, blocks': map<BlockId, Block>, regions: seq<Region>)
    requires Grown(blocks, blocks') && RegionsOk(blocks, regions)
    ensures RegionsOk(blocks', regions)
  {
    hide RegionOk, Grown, Disjoint;
    forall i | 0 <= i < |regions| ensures RegionOk(blocks', regions[i]) { RegionFrame(blocks, blocks', regions[i]); }
  }

  /** A region that starts where its block's free space started is apart from all older ones. */
  lemma RegionsPushed(blocks: map<BlockId, Block>, blocks': map<BlockId, Block>, regions: seq<Region>, r: Region)
    requires Grown(blocks, blocks') && RegionsOk(blocks, regions)
    requires r.at.block in blocks ==> blocks[r.at.block].pos <= r.at.offset
    requires RegionOk(blocks', r)
    ensures RegionsOk(blocks', regions + [r])
  {
    RegionsFrame(blocks, blocks', regions);
    hide Grown;
    forall i | 0 <= i < |regions| ensures Disjoint(regions[i], r) {
      assert RegionOk(blocks, regions[i]);
    }
  }

  lemma ChunkListFrame(blocks: map<BlockId, Block>, blocks': map<BlockId, Block>, chunks: map<Address, Chunk>,
      chunks': map<Address, Chunk>, t: Tid, i: Info)
    requires Grown(blocks, blocks') && ChunkListOk(blocks, chunks, t, i)
    requires forall a | a in i.chunks && a in chunks :: a in chunks' && chunks'[a] == chunks[a]
    ensures ChunkListOk(blocks', chunks', t, i)
    ensures NodesOf(chunks', i.chunks) == NodesOf(chunks, i.chunks)
  {
    hide Link, First, Distinct, Capacity;
    assert forall a | a in i.chunks :: a in chunks;
    NodesFrame(chunks, chunks', i.chunks);
  }

  lemma {:induction false} NodesFrame(chunks: map<Address, Chunk>, chunks': map<Address, Chunk>, list: seq<Address>)
    requires forall a | a in list :: a in chunks && a in chunks' && chunks'[a] == chunks[a]
    ensures NodesOf(chunks', list) == NodesOf(chunks, list)
  {
    if list != [] {
      NodesFrame(chunks, chunks', list[1..]);
    }
  }

  lemma CleanupFrame(blocks: map<BlockId, Block>, blocks': map<BlockId, Block>, infos: map<Tid, Info>,
      chunks: map<Address, Chunk>, registered: map<Tid, seq<Node>>)
    requires Grown(blocks, blocks') && CleanupOk(blocks, infos, chunks, registered)
    ensures CleanupOk(blocks', infos, chunks, registered)
  {
    hide ChunkListOk, NodesOf, Grown;
    forall t | t in infos ensures ChunkListOk(blocks', chunks, t, infos[t]) {
      ChunkListFrame(blocks, blocks', chunks, chunks, t, infos[t]);
    }
  }

  lemma ChunkHomeFrame(blocks: map<BlockId, Block>, blocks': map<BlockId, Block>, chunks: map<Address, Chunk>,
      regions: seq<Region>, more: seq<Region>)
    requires Grown(blocks, blocks') && ChunkHome(blocks, chunks, regions)
    ensures ChunkHome(blocks', chunks, regions + more)
  {
    hide ChunkBytes;
  }

  // ---------------------------------------------------------------- carving

  lemma AllocAccounts(s: State, b: BlockId, n: nat, use: Use)
    requires MemoryOk(s) && b in s.blocks && use != Record
    ensures var a := AllocFromBlock(s, b, n, use);
      && a.spaceAllocated == TotalSize(a.blocks, a.infos, a.created)
      && HandedOut(a.regions) == TotalUsed(a.blocks, a.infos, a.created)
  {
    hide ListsOk, RegionsOk, CleanupOk, ChunkHome, Link, First;
    var k := s.blocks[b].(pos := s.blocks[b].pos + n);
    var r := Region(Address(b, s.blocks[b].pos), n, use);
    forall u | u in s.created
      ensures u in s.infos && Distinct(s.infos[u].blocks) && (b in s.infos[u].blocks <==> u == s.blocks[b].owner)
    {
      OnOwnersListOnly(s.blocks, s.infos, b, u);
    }
    hide Distinct;
    TotalsUpdate(s.blocks, s.infos, s.created, s.blocks[b].owner, b, k);
    HandedOutSnoc(s.regions, r);
  }

  lemma BlockMoved(blocks: map<BlockId, Block>, infos: map<Tid, Info>, b: BlockId, n: nat)
    requires BlocksOk(blocks, infos) && b in blocks && n % 8 == 0 && n <= Avail(blocks[b])
    ensures BlocksOk(blocks[b := blocks[b].(pos := blocks[b].pos + n)], infos)
    ensures Grown(blocks, blocks[b := blocks[b].(pos := blocks[b].pos + n)])
    ensures HEADER_SIZE <= blocks[b].pos && blocks[b].pos % 8 == 0
  {
  }

  /** Carving an aligned piece off a block with room for it keeps memory well formed: the new
      region is past the header, inside the block and apart from every other region. */
  lemma AllocKeepsMemory(s: State, b: BlockId, n: nat, use: Use)
    requires MemoryOk(s) && b in s.blocks && n % 8 == 0 && n <= Avail(s.blocks[b]) && use != Record
    ensures MemoryOk(AllocFromBlock(s, b, n, use))
  {
    hide BlocksOk, ListsOk, RegionsOk, CleanupOk, ChunkHome, Link, First, Distinct, TotalSize, TotalUsed, HandedOut;
    var a := AllocFromBlock(s, b, n, use);
    var r := Region(Address(b, s.blocks[b].pos), n, use);
    BlockMoved(s.blocks, s.infos, b, n);
    hide Grown;
    ListsFrame(s.blocks, a.blocks, s.infos);
    RegionsPushed(s.blocks, a.blocks, s.regions, r);
    CleanupFrame(s.blocks, a.blocks, s.infos, s.chunks, s.registered);
    ChunkHomeFrame(s.blocks, a.blocks, s.chunks, s.regions, [r]);
    AllocAccounts(s, b, n, use);
  }

  // ---------------------------------------------------------------- new blocks

  lemma FirstBlockAccounts(s: State, t: Tid, b: BlockId, size: nat)
    requires MemoryOk(s) && t !in s.infos && b !in s.blocks
    ensures var f := FirstBlock(s, t, b, size);
      && f.spaceAllocated == TotalSize(f.blocks, f.infos, f.created)
      && HandedOut(f.regions) == TotalUsed(f.blocks, f.infos, f.created)
  {
    hide ListsOk, RegionsOk, CleanupOk, ChunkHome, BlocksOk, Link, First;
    var f := FirstBlock(s, t, b, size);
    forall u | u in s.created
      ensures u in s.infos && u in f.infos && f.infos[u].blocks == s.infos[u].blocks
      ensures forall c | c in s.infos[u].blocks :: c in s.blocks && c in f.blocks && f.blocks[c] == s.blocks[c]
    {
      ListsMembers(s.blocks, s.infos, u);
    }
    TotalsFrame(s.blocks, f.blocks, s.infos, f.infos, s.created);
    TotalsSnoc(f.blocks, f.infos, s.created, t);
    assert SizeOf(f.blocks, [b]) == size && UsedOf(f.blocks, [b]) == THREAD_INFO_SIZE by { assert [b][1..] == []; }
    HandedOutSnoc(s.regions, Region(Address(b, HEADER_SIZE), THREAD_INFO_SIZE, Record));
  }

  /** A new thread's record, whose lists are well formed, joins the others. */
  lemma InfoAdded(blocks: map<BlockId, Block>, infos: map<Tid, Info>, chunks: map<Address, Chunk>,
      registered: map<Tid, seq<Node>>, t: Tid, i: Info)
    requires ListsOk(blocks, infos) && CleanupOk(blocks, infos, chunks, registered)
    requires ListOk(blocks, t, i) && ChunkListOk(blocks, chunks, t, i)
    requires NodesOf(chunks, i.chunks) == if t in registered then registered[t] else []
    ensures ListsOk(blocks, infos[t := i]) && CleanupOk(blocks, infos[t := i], chunks, registered)
  {
    hide ListOk, ChunkListOk, NodesOf;
  }

  lemma BlocksAdded(blocks: map<BlockId, Block>, infos: map<Tid, Info>, b: BlockId, k: Block, i: Info)
    requires BlocksOk(blocks, infos) && b !in blocks
    requires k.threadInfo == k.owner && HEADER_SIZE <= k.pos <= k.size && k.pos % 8 == 0
    requires b in i.blocks
    requires k.owner in infos ==> forall c | c in infos[k.owner].blocks :: c in i.blocks
    ensures BlocksOk(blocks[b := k], infos[k.owner := i])
  {
  }

  lemma FirstBlockKeepsMemory(s: State, t: Tid, b: BlockId, size: nat)
    requires MemoryOk(s) && t !in s.infos && b !in s.blocks && HEADER_SIZE + THREAD_INFO_SIZE <= size
    ensures MemoryOk(FirstBlock(s, t, b, size))
  {
    hide BlocksOk, ListsOk, RegionsOk, ChunkHome, TotalSize, TotalUsed, HandedOut, NodesOf, Link, First,
      ListOk, ChunkListOk;
    var f := FirstBlock(s, t, b, size);
    FirstBlockAccounts(s, t, b, size);
    assert Grown(s.blocks, f.blocks);
    hide Grown;
    ListsFrame(s.blocks, f.blocks, s.infos);
    RegionsPushed(s.blocks, f.blocks, s.regions, Region(Address(b, HEADER_SIZE), THREAD_INFO_SIZE, Record));
    CleanupFrame(s.blocks, f.blocks, s.infos, s.chunks, s.registered);
    ChunkHomeFrame(s.blocks, f.blocks, s.chunks, s.regions,
      [Region(Address(b, HEADER_SIZE), THREAD_INFO_SIZE, Record)]);
    FreshInfoOk(f, t, b);
    assert t !in s.registered;
    InfoAdded(f.blocks, s.infos, s.chunks, s.registered, t, f.infos[t]);
    assert b in [b];
    BlocksAdded(s.blocks, s.infos, b, f.blocks[b], f.infos[t]);
  }

  lemma FreshInfoOk(f: State, t: Tid, b: BlockId)
    requires b in f.blocks && f.blocks[b].owner == t && f.blocks[b].next == None
    ensures ListOk(f.blocks, t, Info(b, None, None, [b], []))
    ensures ChunkListOk(f.blocks, f.chunks, t, Info(b, None, None, [b], []))
    ensures NodesOf(f.chunks, []) == []
  {
  }

  lemma PushBlockList(s: State, t: Tid, b: BlockId, k: Block)
    requires t in s.infos && b !in s.blocks && ListOk(s.blocks, t, s.infos[t])
    requires k.owner == t && k.next == Some(s.infos[t].head)
    ensures ListOk(s.blocks[b := k], t, s.infos[t].(head := b, blocks := [b] + s.infos[t].blocks))
  {
    var i := s.infos[t];
    LinksPushed(i.blocks, b);
    hide Link;
    DistinctPushed(i.blocks, b);
  }

  lemma PushBlockAccounts(s: State, t: Tid, b: BlockId, size: nat)
    requires MemoryOk(s) && t in s.infos && b !in s.blocks
    ensures var p := PushBlock(s, t, b, size);
      && p.spaceAllocated == TotalSize(p.blocks, p.infos, p.created)
      && HandedOut(p.regions) == TotalUsed(p.blocks, p.infos, p.created)
  {
    hide ListsOk, RegionsOk, CleanupOk, ChunkHome, BlocksOk, Link, First, TotalSize, TotalUsed;
    var p := PushBlock(s, t, b, size);
    forall u | u in s.created
      ensures u in s.infos && forall c | c in s.infos[u].blocks :: c in s.blocks
    {
      ListsMembers(s.blocks, s.infos, u);
    }
    hide Distinct;
    TotalsPush(s.blocks, s.infos, s.created, t, p.infos[t], b, p.blocks[b]);
  }

  lemma PushBlockKeepsMemory(s: State, t: Tid, b: BlockId, size: nat)
    requires MemoryOk(s) && t in s.infos && b !in s.blocks && HEADER_SIZE <= size
    ensures MemoryOk(PushBlock(s, t, b, size))
  {
    hide BlocksOk, RegionsOk, ChunkHome, TotalSize, TotalUsed, HandedOut, NodesOf, Link, First, Distinct, ListOk,
      Capacity, ChunkListOk;
    var p := PushBlock(s, t, b, size);
    PushBlockAccounts(s, t, b, size);
    assert Grown(s.blocks, p.blocks);
    hide Grown;
    assert ListOk(s.blocks, t, s.infos[t]);
    PushBlockList(s, t, b, p.blocks[b]);
    ListsFrame(s.blocks, p.blocks, s.infos);
    RegionsFrame(s.blocks, p.blocks, s.regions);
    CleanupFrame(s.blocks, p.blocks, s.infos, s.chunks, s.registered);
    ChunkHomeFrame(s.blocks, p.blocks, s.chunks, s.regions, []);
    assert p.regions == s.regions + [];
    SameChunkList(p.blocks, p.chunks, t, s.infos[t], p.infos[t]);
    InfoAdded(p.blocks, s.infos, p.chunks, p.registered, t, p.infos[t]);
    assert p.infos[t].blocks[0] == b && forall c | c in s.infos[t].blocks :: c in [b] + s.infos[t].blocks;
    BlocksAdded(s.blocks, s.infos, b, p.blocks[b], p.infos[t]);
  }

  lemma SameChunkList(blocks: map<BlockId, Block>, chunks: map<Address, Chunk>, t: Tid, i: Info, j: Info)
    requires ChunkListOk(blocks, chunks, t, i) && j.cleanup == i.cleanup && j.chunks == i.chunks
    ensures ChunkListOk(blocks, chunks, t, j)
  {
    hide Link, First, Distinct, Capacity;
  }

  // ---------------------------------------------------------------- cleanup chunks

  /** No chunk is where a block's free space starts. */
  lemma ChunkAddressFresh(s: State, b: BlockId)
    requires ChunkHome(s.blocks, s.chunks, s.regions) && b in s.blocks
    ensures Address(b, s.blocks[b].pos) !in s.chunks
  {
  }

  lemma {:induction false} CapacityBounds(n: nat)
    ensures MIN_CLEANUP_LIST_ELEMENTS <= Capacity(n) <= MAX_CLEANUP_LIST_ELEMENTS
  {
    if n > 0 { CapacityBounds(n - 1); }
  }

  /** The capacity chosen for the next chunk continues the growth sequence. */
  lemma NextChunkSizeIsCapacity(s: State, t: Tid)
    requires t in s.infos && ChunkListOk(s.blocks, s.chunks, t, s.infos[t])
    ensures NextChunkSize(s, s.infos[t].cleanup) == Capacity(|s.infos[t].chunks|)
  {
    hide Link, Distinct;
  }

  predicate NewestFull(chunks: map<Address, Chunk>, i: Info) {
    i.cleanup.Some? ==>
      i.cleanup.value in chunks && |chunks[i.cleanup.value].nodes| == chunks[i.cleanup.value].size
  }

  lemma PushedChunkList(blocks: map<BlockId, Block>, chunks: map<Address, Chunk>, t: Tid, i: Info,
      at: Address, node: Node)
    requires ChunkListOk(blocks, chunks, t, i) && NewestFull(chunks, i)
    requires at !in chunks && at.block in blocks && blocks[at.block].owner == t
    ensures var c := Chunk([node], Capacity(|i.chunks|), i.cleanup);
      var j := i.(cleanup := Some(at), chunks := [at] + i.chunks);
      && ChunkListOk(blocks, chunks[at := c], t, j)
      && NodesOf(chunks[at := c], j.chunks) == NodesOf(chunks, i.chunks) + [node]
  {
    var c := Chunk([node], Capacity(|i.chunks|), i.cleanup);
    LinksPushed(i.chunks, at);
    CapacityBounds(|i.chunks|);
    assert ([at] + i.chunks)[1..] == i.chunks;
    NodesFrame(chunks, chunks[at := c], i.chunks);
    hide Link, Capacity;
    DistinctPushed(i.chunks, at);
  }

  /** One thread's chunk list changes; the chunks of the others are left alone. */
  lemma CleanupReplaced(blocks: map<BlockId, Block>, infos: map<Tid, Info>, chunks: map<Address, Chunk>,
      registered: map<Tid, seq<Node>>, t: Tid, i: Info, at: Address, c: Chunk, nodes: seq<Node>)
    requires CleanupOk(blocks, infos, chunks, registered) && t in infos
    requires at.block in blocks && blocks[at.block].owner == t
    requires ChunkListOk(blocks, chunks[at := c], t, i) && NodesOf(chunks[at := c], i.chunks) == nodes
    ensures CleanupOk(blocks, infos[t := i], chunks[at := c], registered[t := nodes])
  {
    hide Link, First, Capacity, Distinct, NodesOf;
    forall u | u in infos && u != t
      ensures ChunkListOk(blocks, chunks[at := c], u, infos[u])
      ensures NodesOf(chunks[at := c], infos[u].chunks) == NodesOf(chunks, infos[u].chunks)
    {
      assert ChunkListOk(blocks, chunks, u, infos[u]);
      assert forall a | a in infos[u].chunks :: a != at;
      ChunkListFrame(blocks, blocks, chunks, chunks[at := c], u, infos[u]);
    }
    hide ChunkListOk;
  }

  lemma InfoReplacedAccounts(blocks: map<BlockId, Block>, infos: map<Tid, Info>, created: seq<Tid>, t: Tid, i: Info)
    requires ListsOk(blocks, infos) && t in infos && i.blocks == infos[t].blocks
    requires forall u | u in created :: u in infos
    ensures TotalSize(blocks, infos[t := i], created) == TotalSize(blocks, infos, created)
    ensures TotalUsed(blocks, infos[t := i], created) == TotalUsed(blocks, infos, created)
  {
    forall u, c | u in created && c in infos[u].blocks ensures c in blocks {
      ListsMembers(blocks, infos, u);
    }
    hide ListsOk;
    TotalsFrame(blocks, blocks, infos, infos[t := i], created);
  }

  /** Only the cleanup part of a record changed. */
  lemma InfoReplacedLists(blocks: map<BlockId, Block>, infos: map<Tid, Info>, t: Tid, i: Info)
    requires BlocksOk(blocks, infos) && ListsOk(blocks, infos) && t in infos
    requires i.blocks == infos[t].blocks && i.head == infos[t].head
    ensures BlocksOk(blocks, infos[t := i]) && ListsOk(blocks, infos[t := i])
  {
    hide Link, First, Distinct;
    assert ListOk(blocks, t, infos[t]);
  }

  /** Opening a cleanup chunk in room just carved off, with one node in it. */
  lemma PushChunkKeepsMemory(s: State, t: Tid, b: BlockId, size: nat, node: Node)
    requires MemoryOk(s) && b in s.blocks && t in s.infos && s.blocks[b].owner == t
    requires ChunkBytes(size) <= Avail(s.blocks[b]) && size == NextChunkSize(s, s.infos[t].cleanup)
    requires NewestFull(s.chunks, s.infos[t])
    ensures MemoryOk(PushChunk(s, t, b, size, node))
  {
    hide BlocksOk, ListsOk, RegionsOk, TotalSize, TotalUsed, HandedOut, NodesOf, Link, First, Distinct,
      Capacity, ChunkListOk, NextChunkSize, ChunkHome, NewestFull;
    var at, i := Address(b, s.blocks[b].pos), s.infos[t];
    var a := AllocFromBlock(s, b, ChunkBytes(size), Chunks);
    var p := PushChunk(s, t, b, size, node);
    AllocKeepsMemory(s, b, ChunkBytes(size), Chunks);
    hide ChunkBytes;
    ChunkAddressFresh(s, b);
    NextChunkSizeIsCapacity(s, t);
    var j := i.(cleanup := Some(at), chunks := [at] + i.chunks);
    PushedChunkList(a.blocks, a.chunks, t, i, at, node);
    CleanupReplaced(a.blocks, a.infos, a.chunks, a.registered, t, j, at, p.chunks[at], Registered(s, t) + [node]);
    InfoReplacedAccounts(a.blocks, a.infos, a.created, t, j);
    InfoReplacedLists(a.blocks, a.infos, t, j);
    ChunkHomeAdded(a.blocks, a.chunks, a.regions, at, p.chunks[at]);
  }

  lemma ChunkHomeAdded(blocks: map<BlockId, Block>, chunks: map<Address, Chunk>, regions: seq<Region>, at: Address,
      c: Chunk)
    requires ChunkHome(blocks, chunks, regions) && regions != []
    requires regions[|regions| - 1] == Region(at, ChunkBytes(c.size), Chunks)
    requires at.block in blocks && at.offset < blocks[at.block].pos
    ensures ChunkHome(blocks, chunks[at := c], regions)
  {
    hide ChunkBytes;
    assert regions[|regions| - 1] in regions;
  }

  lemma AppendedChunkList(blocks: map<BlockId, Block>, chunks: map<Address, Chunk>, t: Tid, i: Info, node: Node)
    requires ChunkListOk(blocks, chunks, t, i) && i.cleanup.Some? && i.cleanup.value in chunks
    requires |chunks[i.cleanup.value].nodes| < chunks[i.cleanup.value].size
    ensures var c := chunks[i.cleanup.value];
      var more := chunks[i.cleanup.value := c.(nodes := c.nodes + [node])];
      && ChunkListOk(blocks, more, t, i)
      && NodesOf(more, i.chunks) == NodesOf(chunks, i.chunks) + [node]
      && i.cleanup.value.block in blocks && blocks[i.cleanup.value.block].owner == t
  {
    hide Link, Capacity;
    var at, c := i.cleanup.value, chunks[i.cleanup.value];
    assert i.chunks[0] == at;
    assert forall a | a in i.chunks[1..] :: a != at && a in chunks;
    NodesFrame(chunks, chunks[at := c.(nodes := c.nodes + [node])], i.chunks[1..]);
  }

  /** Filling the next slot of the newest chunk. */
  lemma AppendNodeKeepsMemory(s: State, t: Tid, node: Node)
    requires MemoryOk(s) && t in s.infos && s.infos[t].cleanup.Some? && s.infos[t].cleanup.value in s.chunks
    requires |s.chunks[s.infos[t].cleanup.value].nodes| < s.chunks[s.infos[t].cleanup.value].size
    ensures MemoryOk(AppendNode(s, t, s.infos[t].cleanup.value, node))
  {
    hide BlocksOk, ListsOk, RegionsOk, TotalSize, TotalUsed, HandedOut, NodesOf, Link, First, Distinct,
      Capacity, ChunkListOk, ChunkBytes;
    var at := s.infos[t].cleanup.value;
    var p := AppendNode(s, t, at, node);
    AppendedChunkList(s.blocks, s.chunks, t, s.infos[t], node);
    CleanupReplaced(s.blocks, s.infos, s.chunks, s.registered, t, s.infos[t], at, p.chunks[at],
      Registered(s, t) + [node]);
    assert p.infos == s.infos[t := s.infos[t]];
    assert ChunkHome(p.blocks, p.chunks, p.regions);
  }
}
