/** The walks over the arena's linked lists: finding a thread's record, adding up the space
    used, running the cleanups, freeing the blocks, and starting over. */
module ArenaLists {
  import opened Options
  import opened Lists
  import opened ArenaModel
  import opened ArenaInvariant
  import opened ArenaMemory
  import opened ArenaSteps
  import opened ArenaRuns
  import opened Numbers

  // ---------------------------------------------------------------- what the walks compute

  function Reversed<T>(list: seq<T>): seq<T> {
    if list == [] then [] else Reversed(list[1..]) + [list[0]]
  }

  /** Every cleanup of the listed threads, newest first within each thread. */
  function CleanupOrder(s: State, threads: seq<Tid>): seq<Node> {
    if threads == [] then [] else Reversed(Registered(s, threads[0])) + CleanupOrder(s, threads[1..])
  }

  /** The blocks of the listed threads but the one the user gave. */
  function Freed(s: State, threads: seq<Tid>): seq<BlockId> {
    if threads == [] then [] else
    var first := if threads[0] in s.infos then Without(s.infos[threads[0]].blocks, s.config.initial) else [];
    first + Freed(s, threads[1..])
  }

  function Without(list: seq<BlockId>, initial: Option<BlockId>): seq<BlockId> {
    if list == [] then []
    else if Some(list[0]) == initial then Without(list[1..], initial)
    else [list[0]] + Without(list[1..], initial)
  }

  lemma {:induction false} ReversedSnoc<T>(list: seq<T>, x: T)
    ensures Reversed(list + [x]) == [x] + Reversed(list)
  {
    if list == [] {
      assert list + [x] == [x];
      assert Reversed([x]) == [x];
    } else {
      assert (list + [x])[1..] == list[1..] + [x];
      ReversedSnoc(list[1..], x);
    }
  }

  /** The last is first. */
  lemma {:induction false} ReversedAt<T>(list: seq<T>, k: nat)
    requires k < |list|
    ensures |Reversed(list)| == |list| && Reversed(list)[k] == list[|list| - 1 - k]
  {
    if |list| > 1 { ReversedAt(list[1..], if k < |list| - 1 then k else 0); }
  }

  lemma {:induction false} ReversedConcat<T>(a: seq<T>, b: seq<T>)
    ensures Reversed(a + b) == Reversed(b) + Reversed(a)
  {
    if b == [] {
      assert a + b == a;
    } else {
      var last := b[|b| - 1];
      assert a + b == (a + b[..|b| - 1]) + [last] && b == b[..|b| - 1] + [last];
      ReversedSnoc(a + b[..|b| - 1], last);
      ReversedConcat(a, b[..|b| - 1]);
      ReversedSnoc(b[..|b| - 1], last);
    }
  }

  // ---------------------------------------------------------------- published threads

  lemma PublishedAt(s: State, k: nat)
    requires ThreadsOk(s) && k <= |s.published|
    ensures k < |s.published| ==>
      && s.published[k] in s.infos && s.infos[s.published[k]].next == First(s.published[k + 1..])
      && First(s.published[k..]) == Some(s.published[k])
    ensures k == |s.published| ==> First(s.published[k..]) == None
  {
    hide Distinct;
  }

  /** When no thread is inside a call, the shared list holds every record exactly once. */
  lemma QuiescentPublishesAll(s: State)
    requires Inv(s) && Quiescent(s)
    ensures Distinct(s.published) && Distinct(s.created)
    ensures forall t :: (t in s.published <==> t in s.infos) && (t in s.created <==> t in s.infos)
    ensures forall t | t in s.registered :: t in s.published
  {
    hide BlocksOk, ListsOk, RegionsOk, ChunkHome, ChunkListOk, CachesOk, PcOk, Link, First, TotalSize, TotalUsed,
      HandedOut, NodesOf;
    forall t ensures t in s.published <==> t in s.infos {
      if t in s.published { var k :| 0 <= k < |s.published| && s.published[k] == t; }
    }
  }

  lemma {:induction false} TotalsSplit(s: State, a: seq<Tid>, t: Tid, b: seq<Tid>)
    requires t in s.infos
    ensures TotalSize(s.blocks, s.infos, a + [t] + b) ==
      TotalSize(s.blocks, s.infos, a + b) + SizeOf(s.blocks, s.infos[t].blocks)
    ensures TotalUsed(s.blocks, s.infos, a + [t] + b) ==
      TotalUsed(s.blocks, s.infos, a + b) + UsedOf(s.blocks, s.infos[t].blocks) - THREAD_INFO_SIZE
  {
    if a == [] {
      assert a + [t] + b == [t] + b && a + b == b && ([t] + b)[1..] == b;
    } else {
      assert (a + [t] + b)[1..] == a[1..] + [t] + b && (a + b)[1..] == a[1..] + b;
      TotalsSplit(s, a[1..], t, b);
    }
  }

  /** The totals do not depend on the order in which the threads are listed. */
  lemma {:induction false} TotalsPermuted(s: State, p: seq<Tid>, q: seq<Tid>)
    requires Distinct(p) && Distinct(q) && (forall t :: t in p <==> t in q)
    requires forall t | t in p :: t in s.infos
    ensures TotalSize(s.blocks, s.infos, p) == TotalSize(s.blocks, s.infos, q)
    ensures TotalUsed(s.blocks, s.infos, p) == TotalUsed(s.blocks, s.infos, q)
    decreases |p|
  {
    assert |q| > 0 ==> q[0] in q;
    if p != [] {
      var t := p[0];
      assert t in q;
      var k :| 0 <= k < |q| && q[k] == t;
      var rest := q[..k] + q[k + 1..];
      assert q == q[..k] + [t] + q[k + 1..];
      TotalsSplit(s, q[..k], t, q[k + 1..]);
      Removed(q, k);
      forall u ensures u in p[1..] <==> u in rest {
        if u in p[1..] { assert u in p && u != t; }
        if u in rest { assert u in p; }
      }
      TotalsPermuted(s, p[1..], rest);
    }
  }

  lemma Removed(q: seq<Tid>, k: nat)
    requires k < |q| && Distinct(q)
    ensures Distinct(q[..k] + q[k + 1..])
    ensures forall u :: u in q[..k] + q[k + 1..] <==> u in q && u != q[k]
  {
    var rest := q[..k] + q[k + 1..];
    forall u | u in q && u != q[k] ensures u in rest {
      var j :| 0 <= j < |q| && q[j] == u;
      assert j < k ==> rest[j] == u;
      assert k < j ==> rest[j - 1] == u;
    }
  }

  lemma QuiescentTotals(s: State)
    requires Inv(s) && Quiescent(s)
    ensures TotalSize(s.blocks, s.infos, s.published) == s.spaceAllocated
    ensures TotalUsed(s.blocks, s.infos, s.published) == HandedOut(s.regions)
  {
    hide Inv, Distinct, TotalSize, TotalUsed, HandedOut, Quiescent;
    QuiescentPublishesAll(s);
    TotalsPermuted(s, s.published, s.created);
    AccountsOf(s);
  }

  lemma AccountsOf(s: State)
    requires Inv(s)
    ensures s.spaceAllocated == TotalSize(s.blocks, s.infos, s.created)
    ensures HandedOut(s.regions) == TotalUsed(s.blocks, s.infos, s.created)
  {
    hide BlocksOk, ListsOk, RegionsOk, CleanupOk, ChunkHome, TotalSize, TotalUsed, HandedOut, ThreadsOk, CachesOk, PcOk,
      Distinct;
  }

  /** One step along the published threads, and its end. */
  lemma OrderStep(s: State, k: nat)
    requires k <= |s.published|
    ensures k < |s.published| ==>
      CleanupOrder(s, s.published[k..]) ==
      Reversed(Registered(s, s.published[k])) + CleanupOrder(s, s.published[k + 1..])
    ensures k == |s.published| ==> CleanupOrder(s, s.published[k..]) == []
  {
    hide Reversed;
    assert k < |s.published| ==> s.published[k..][1..] == s.published[k + 1..];
  }

  lemma FreedStep(s: State, k: nat)
    requires k <= |s.published|
    ensures k < |s.published| && s.published[k] in s.infos ==>
      Freed(s, s.published[k..]) ==
      Without(s.infos[s.published[k]].blocks, s.config.initial) + Freed(s, s.published[k + 1..])
    ensures k == |s.published| ==> Freed(s, s.published[k..]) == []
  {
    hide Without;
    assert k < |s.published| ==> s.published[k..][1..] == s.published[k + 1..];
  }

  lemma TotalsStep(s: State, k: nat)
    requires k <= |s.published|
    ensures k < |s.published| && s.published[k] in s.infos ==>
      && TotalSize(s.blocks, s.infos, s.published[k..]) ==
        SizeOf(s.blocks, s.infos[s.published[k]].blocks) + TotalSize(s.blocks, s.infos, s.published[k + 1..])
      && TotalUsed(s.blocks, s.infos, s.published[k..]) ==
        UsedOf(s.blocks, s.infos[s.published[k]].blocks) - THREAD_INFO_SIZE +
        TotalUsed(s.blocks, s.infos, s.published[k + 1..])
    ensures k == |s.published| ==>
      TotalSize(s.blocks, s.infos, s.published[k..]) == 0 && TotalUsed(s.blocks, s.infos, s.published[k..]) == 0
  {
    hide SizeOf, UsedOf;
    assert k < |s.published| ==> s.published[k..][1..] == s.published[k + 1..];
  }

  // ---------------------------------------------------------------- the walks

  /** The record of a thread, if the shared list has one. */
  method FindThreadInfo(s: State, me: Tid) returns (found: Option<Tid>)
    requires Inv(s)
    ensures found == if me in s.published then Some(me) else None
    ensures !PcOf(s, me).Pushing? ==> (found.Some? <==> me in s.infos)
  {
    hide Inv, MemoryOk, CachesOk, PcOk, Link, First, ThreadsOk, PcOf, Distinct;
    InvParts(s, me);
    ghost var k := 0;
    assert s.published[0..] == s.published;
    PublishedAt(s, 0);
    assert s.threads == First(s.published) by { ThreadsHead(s); }
    if !PcOf(s, me).Pushing? { SearchFinds(s, me); }
    var info := s.threads;
    while info.Some?
      invariant k <= |s.published| && info == First(s.published[k..])
      invariant me !in s.published[..k]
      decreases |s.published| - k
    {
      PublishedAt(s, k);
      if info.value == me {
        return info;
      }
      info := s.infos[info.value].next;
      k := k + 1;
    }
    PublishedAt(s, k);
    assert s.published[..k] == s.published;
    return None;
  }

  lemma ThreadsHead(s: State)
    requires ThreadsOk(s)
    ensures s.threads == First(s.published)
  {
    hide Distinct, Link;
  }

  /** Unsigned 64-bit wrap-around. */
  function Wrap(n: int): (r: nat)
    ensures r < TWO_TO_64 && (0 <= n < TWO_TO_64 ==> r == n)
  {
    n % TWO_TO_64
  }

  lemma WrapAdd(a: int, b: int)
    ensures Wrap(Wrap(a) + b) == Wrap(a + b)
  {
    var q := a / TWO_TO_64;
    assert a == q * TWO_TO_64 + Wrap(a);
    WrapShift(Wrap(a) + b, q);
  }

  lemma WrapStep(used: nat, own: int, rest: int)
    ensures Wrap(Wrap(Wrap(used - THREAD_INFO_SIZE) + own) + rest) == Wrap(used + (own - THREAD_INFO_SIZE + rest))
  {
    hide Wrap;
    WrapAdd(Wrap(used - THREAD_INFO_SIZE) + own, rest);
    WrapAdd(used - THREAD_INFO_SIZE, own + rest);
  }

  lemma WrapShift(n: int, q: int)
    ensures Wrap(n + q * TWO_TO_64) == Wrap(n)
  {
    var m := n + q * TWO_TO_64;
    var a, b := n / TWO_TO_64, m / TWO_TO_64;
    assert n == a * TWO_TO_64 + Wrap(n) && m == b * TWO_TO_64 + Wrap(m);
    assert (b - a - q) * TWO_TO_64 == Wrap(n) - Wrap(m);
    assert b - a - q == 0;
  }

  /** Where the walk of one thread's blocks is. */
  lemma BlockAt(s: State, t: Tid, k: nat)
    requires ListsOk(s.blocks, s.infos) && t in s.infos && k <= |s.infos[t].blocks|
    ensures Some(s.infos[t].head) == First(s.infos[t].blocks)
    ensures k < |s.infos[t].blocks| ==>
      && s.infos[t].blocks[k] in s.blocks
      && s.blocks[s.infos[t].blocks[k]].next == First(s.infos[t].blocks[k + 1..])
      && First(s.infos[t].blocks[k..]) == Some(s.infos[t].blocks[k])
    ensures k == |s.infos[t].blocks| ==> First(s.infos[t].blocks[k..]) == None
  {
    hide Distinct;
    assert ListOk(s.blocks, t, s.infos[t]);
  }

  /** The inner walk of SpaceUsed: the bytes used in one thread's blocks. */
  method BlocksUsed(s: State, t: Tid, start: nat) returns (used: nat)
    requires ListsOk(s.blocks, s.infos) && t in s.infos
    ensures used == Wrap(start + UsedOf(s.blocks, s.infos[t].blocks))
  {
    hide ListsOk, Wrap, First;
    used := Wrap(start);
    ghost var k := 0;
    ghost var list := s.infos[t].blocks;
    BlockAt(s, t, 0);
    assert list[0..] == list;
    WrapAdd(start, UsedOf(s.blocks, list));
    var b := Some(s.infos[t].head);
    while b.Some?
      invariant k <= |list| && b == First(list[k..])
      invariant Wrap(used + UsedOf(s.blocks, list[k..])) == Wrap(start + UsedOf(s.blocks, list))
      invariant used == Wrap(used)
      decreases |list| - k
    {
      BlockAt(s, t, k);
      var here := s.blocks[b.value].pos - HEADER_SIZE;
      assert list[k..][1..] == list[k + 1..];
      WrapAdd(used + here, UsedOf(s.blocks, list[k + 1..]));
      used := Wrap(used + here);
      b := s.blocks[b.value].next;
      k := k + 1;
    }
    BlockAt(s, t, k);
  }

  lemma SpaceStep(s: State, k: nat, used: nat)
    requires k < |s.published| && s.published[k] in s.infos
    ensures var more := Wrap(Wrap(used - THREAD_INFO_SIZE) + UsedOf(s.blocks, s.infos[s.published[k]].blocks));
      && Wrap(more + TotalUsed(s.blocks, s.infos, s.published[k + 1..])) ==
        Wrap(used + TotalUsed(s.blocks, s.infos, s.published[k..]))
      && Wrap(more) == more
  {
    hide Wrap, TotalUsed, UsedOf;
    TotalsStep(s, k);
    WrapStep(used, UsedOf(s.blocks, s.infos[s.published[k]].blocks),
      TotalUsed(s.blocks, s.infos, s.published[k + 1..]));
  }

  /** The space used: what was handed out and not for thread records, when no thread is inside
      a call. The subtraction may wrap below zero before the additions bring it back. */
  method SpaceUsed(s: State) returns (used: nat)
    requires Inv(s)
    ensures used == Wrap(TotalUsed(s.blocks, s.infos, s.published))
    ensures Quiescent(s) && HandedOut(s.regions) < TWO_TO_64 ==> used == HandedOut(s.regions)
  {
    hide Inv, MemoryOk, ListsOk, CachesOk, Wrap, First, ThreadsOk, Quiescent, HandedOut, PcOk, TotalUsed, UsedOf;
    InvParts(s, 0);
    if Quiescent(s) { QuiescentTotals(s); }
    ListsOf(s);
    used := 0;
    ghost var k := 0;
    assert s.published[0..] == s.published;
    PublishedAt(s, 0);
    ThreadsHead(s);
    var info := s.threads;
    while info.Some?
      invariant k <= |s.published| && info == First(s.published[k..])
      invariant Wrap(used + TotalUsed(s.blocks, s.infos, s.published[k..])) ==
        Wrap(TotalUsed(s.blocks, s.infos, s.published))
      invariant used == Wrap(used)
      decreases |s.published| - k
    {
      PublishedAt(s, k);
      SpaceStep(s, k, used);
      used := BlocksUsed(s, info.value, Wrap(used - THREAD_INFO_SIZE));
      info := s.infos[info.value].next;
      k := k + 1;
    }
    PublishedAt(s, k);
    TotalsStep(s, k);
  }

  lemma ListsOf(s: State)
    requires MemoryOk(s)
    ensures ListsOk(s.blocks, s.infos)
    ensures CleanupOk(s.blocks, s.infos, s.chunks, s.registered)
  {
    hide BlocksOk, ListsOk, RegionsOk, CleanupOk, ChunkHome, TotalSize, TotalUsed, HandedOut, Distinct;
  }

  /** Where the walk of one thread's chunks is. */
  lemma ChunkAt(s: State, t: Tid, k: nat)
    requires CleanupOk(s.blocks, s.infos, s.chunks, s.registered) && t in s.infos && k <= |s.infos[t].chunks|
    ensures s.infos[t].cleanup == First(s.infos[t].chunks)
    ensures NodesOf(s.chunks, s.infos[t].chunks) == Registered(s, t)
    ensures k < |s.infos[t].chunks| ==>
      && s.infos[t].chunks[k] in s.chunks
      && s.chunks[s.infos[t].chunks[k]].next == First(s.infos[t].chunks[k + 1..])
      && First(s.infos[t].chunks[k..]) == Some(s.infos[t].chunks[k])
    ensures k == |s.infos[t].chunks| ==> First(s.infos[t].chunks[k..]) == None
  {
    hide Distinct, Capacity;
    assert ChunkListOk(s.blocks, s.chunks, t, s.infos[t]);
  }

  lemma NodesStep(s: State, chunks: seq<Address>, k: nat)
    requires k <= |chunks|
    ensures k < |chunks| && chunks[k] in s.chunks ==>
      NodesOf(s.chunks, chunks[k..]) == NodesOf(s.chunks, chunks[k + 1..]) + s.chunks[chunks[k]].nodes
    ensures k == |chunks| ==> NodesOf(s.chunks, chunks[k..]) == []
  {
    assert k < |chunks| ==> chunks[k..][1..] == chunks[k + 1..];
  }

  lemma ReversedShort<T>(list: seq<T>)
    ensures Reversed<Node>([]) == []
    ensures |list| == 1 ==> Reversed(list) == list
  {
    if |list| == 1 { assert list[1..] == []; }
  }

  /** The inner walks of CleanupList: one thread's cleanups, the latest registered first. */
  method CleanupThread(s: State, t: Tid) returns (ran: seq<Node>)
    requires CleanupOk(s.blocks, s.infos, s.chunks, s.registered) && t in s.infos
    ensures ran == Reversed(Registered(s, t))
  {
    hide CleanupOk, First, Reversed, NodesOf;
    ran := [];
    ghost var k := 0;
    ghost var chunks := s.infos[t].chunks;
    ChunkAt(s, t, 0);
    assert chunks[0..] == chunks;
    var list := s.infos[t].cleanup;
    while list.Some?
      invariant k <= |chunks| && list == First(chunks[k..])
      invariant ran + Reversed(NodesOf(s.chunks, chunks[k..])) == Reversed(Registered(s, t))
      decreases |chunks| - k
    {
      ChunkAt(s, t, k);
      var nodes := s.chunks[list.value].nodes;
      ghost var before := ran;
      NodesStep(s, chunks, k);
      ReversedConcat(NodesOf(s.chunks, chunks[k + 1..]), nodes);
      var i := 0;
      assert nodes[|nodes|..] == [];
      ReversedShort(nodes);
      while i < |nodes|
        invariant i <= |nodes| && ran == before + Reversed(nodes[|nodes| - i..])
      {
        var node := nodes[|nodes| - 1 - i];
        assert nodes[|nodes| - 1 - i..] == [node] + nodes[|nodes| - i..];
        ReversedConcat([node], nodes[|nodes| - i..]);
        ReversedShort([node]);
        ran := ran + [node];
        i := i + 1;
      }
      assert nodes[0..] == nodes;
      list := s.chunks[list.value].next;
      k := k + 1;
    }
    ChunkAt(s, t, k);
    NodesStep(s, chunks, k);
    ReversedShort(chunks);
  }

  /** Runs every cleanup of every published thread once, in reverse order of registration
      within a thread. */
  method CleanupList(s: State) returns (ran: seq<Node>)
    requires Inv(s)
    ensures ran == CleanupOrder(s, s.published)
  {
    hide Inv, MemoryOk, CachesOk, CleanupOk, First, ThreadsOk, PcOk, CleanupOrder, Reversed;
    InvParts(s, 0);
    ListsOf(s);
    ran := [];
    ghost var k := 0;
    assert s.published[0..] == s.published;
    PublishedAt(s, 0);
    ThreadsHead(s);
    var info := s.threads;
    while info.Some?
      invariant k <= |s.published| && info == First(s.published[k..])
      invariant ran + CleanupOrder(s, s.published[k..]) == CleanupOrder(s, s.published)
      decreases |s.published| - k
    {
      PublishedAt(s, k);
      OrderStep(s, k);
      var some := CleanupThread(s, info.value);
      ran := ran + some;
      info := s.infos[info.value].next;
      k := k + 1;
    }
    PublishedAt(s, k);
    OrderStep(s, k);
  }

  /** The inner walk of FreeBlocks: gives back one thread's blocks and adds up their sizes. */
  method FreeThread(s: State, t: Tid) returns (size: nat, freed: seq<BlockId>)
    requires ListsOk(s.blocks, s.infos) && t in s.infos
    ensures size == SizeOf(s.blocks, s.infos[t].blocks)
    ensures freed == Without(s.infos[t].blocks, s.config.initial)
  {
    hide ListsOk, First;
    size, freed := 0, [];
    ghost var k := 0;
    ghost var list := s.infos[t].blocks;
    BlockAt(s, t, 0);
    assert list[0..] == list;
    var b := Some(s.infos[t].head);
    while b.Some?
      invariant k <= |list| && b == First(list[k..])
      invariant size + SizeOf(s.blocks, list[k..]) == SizeOf(s.blocks, list)
      invariant freed + Without(list[k..], s.config.initial) == Without(list, s.config.initial)
      decreases |list| - k
    {
      BlockAt(s, t, k);
      assert list[k..][1..] == list[k + 1..];
      size := size + s.blocks[b.value].size;
      if b != s.config.initial {
        freed := freed + [b.value];
      }
      b := s.blocks[b.value].next;
      k := k + 1;
    }
    BlockAt(s, t, k);
  }

  /** Gives every block back but the one the user gave, and returns the size of them all. */
  method FreeBlocks(s: State) returns (size: nat, freed: seq<BlockId>)
    requires Inv(s)
    ensures size == TotalSize(s.blocks, s.infos, s.published)
    ensures freed == Freed(s, s.published)
  {
    hide Inv, MemoryOk, CachesOk, ListsOk, First, ThreadsOk, PcOk, TotalSize, Freed, Without, SizeOf;
    InvParts(s, 0);
    ListsOf(s);
    size, freed := 0, [];
    ghost var k := 0;
    assert s.published[0..] == s.published;
    PublishedAt(s, 0);
    ThreadsHead(s);
    var info := s.threads;
    while info.Some?
      invariant k <= |s.published| && info == First(s.published[k..])
      invariant size + TotalSize(s.blocks, s.infos, s.published[k..]) == TotalSize(s.blocks, s.infos, s.published)
      invariant freed + Freed(s, s.published[k..]) == Freed(s, s.published)
      decreases |s.published| - k
    {
      PublishedAt(s, k);
      FreedStep(s, k);
      TotalsStep(s, k);
      var next := s.infos[info.value].next;
      var some, blocks := FreeThread(s, info.value);
      size, freed := size + some, freed + blocks;
      info := next;
      k := k + 1;
    }
    PublishedAt(s, k);
    FreedStep(s, k);
    TotalsStep(s, k);
  }

  lemma {:induction false} WithoutMeans(list: seq<BlockId>, initial: Option<BlockId>)
    requires Distinct(list)
    ensures Distinct(Without(list, initial))
    ensures forall b :: b in Without(list, initial) <==> b in list && Some(b) != initial
  {
    if list != [] {
      WithoutMeans(list[1..], initial);
      var rest := Without(list[1..], initial);
      assert forall b :: b in list <==> b == list[0] || b in list[1..];
      if Some(list[0]) != initial {
        assert list[0] !in list[1..];
        assert list[0] !in rest;
      }
    }
  }

  lemma DistinctConcat<T>(a: seq<T>, b: seq<T>)
    requires Distinct(a) && Distinct(b) && forall x | x in a :: x !in b
    ensures Distinct(a + b)
  {
    forall i, j | 0 <= i < j < |a + b| ensures (a + b)[i] != (a + b)[j] {
      if i < |a| <= j { assert a[i] in a && b[j - |a|] in b; }
    }
  }

  lemma {:induction false} FreedMeans(s: State, threads: seq<Tid>)
    requires BlocksOk(s.blocks, s.infos) && ListsOk(s.blocks, s.infos) && Distinct(threads)
    requires forall t | t in threads :: t in s.infos
    ensures Distinct(Freed(s, threads))
    ensures forall b :: b in Freed(s, threads) <==>
      b in s.blocks && s.blocks[b].owner in threads && Some(b) != s.config.initial
  {
    hide ListsOk, Without;
    if threads != [] {
      var t, rest := threads[0], threads[1..];
      FreedMeans(s, rest);
      ListsMembers(s.blocks, s.infos, t);
      var own := s.infos[t].blocks;
      WithoutMeans(own, s.config.initial);
      assert t !in rest;
      forall b | b in s.blocks ensures b in own <==> s.blocks[b].owner == t {
        OnOwnersListOnly(s.blocks, s.infos, b, t);
      }
      DistinctConcat(Without(own, s.config.initial), Freed(s, rest));
      assert forall u :: u in threads <==> u == t || u in rest;
    }
  }

  /** Starting over: every cleanup registered since the last time runs exactly once, latest
      first within a thread; every block but the user's is given back exactly once; and the
      size returned is the space that was allocated. */
  method ResetArena(s: State, t: Tid) returns (z: State, size: nat, ran: seq<Node>, freed: seq<BlockId>)
    requires Inv(s) && Quiescent(s)
    ensures z == Init(s, t) && Inv(z)
    ensures size == s.spaceAllocated
    ensures ran == CleanupOrder(s, s.published) && Distinct(s.published)
    ensures forall u | u in s.registered :: u in s.published
    ensures Distinct(freed) && forall b :: b in freed <==> b in s.blocks && Some(b) != s.config.initial
  {
    hide Inv, Init, Quiescent, MemoryOk, CachesOk, TotalSize, CleanupOrder, Freed, PcOk, ThreadsOk, BlocksOk, ListsOk,
      CleanupOk, Distinct;
    QuiescentPublishesAll(s);
    QuiescentTotals(s);
    ran := CleanupList(s);
    size, freed := FreeBlocks(s);
    InvParts(s, t);
    ListsOf(s);
    BlocksOf(s);
    FreedMeans(s, s.published);
    InitKeepsInv(s, t);
    z := Init(s, t);
  }

  lemma BlocksOf(s: State)
    requires MemoryOk(s)
    ensures BlocksOk(s.blocks, s.infos)
    ensures forall b | b in s.blocks :: s.blocks[b].owner in s.infos
  {
    hide ListsOk, RegionsOk, CleanupOk, ChunkHome, TotalSize, TotalUsed, HandedOut, Distinct;
  }
}
