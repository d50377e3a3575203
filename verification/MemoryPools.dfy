/** Fixed-size block pools with a free list through the blocks themselves, and the manager that
    routes a request to the pool of its size class. */
module MemoryPools {
  import opened Options
  import opened Lists
  import opened Numbers

  /** A block from the system, with how many owners it has and the bytes after its header. */
  datatype OsBlock = OsBlock(refs: nat, room: nat)

  /** What a caller holds: the payload of a pool's block, or of a block from the system. */
  datatype Pointer = InPool(pool: nat, index: nat) | FromOs(block: nat)

  // ---------------------------------------------------------------- the free list on values

  /** `free` spells out the chain from `header`: it visits no block twice, ends, and visits
      exactly the blocks nobody owns. */
  ghost predicate FreeListOk(next: seq<Option<nat>>, refs: seq<nat>, header: Option<nat>, free: seq<nat>) {
    && |next| == |refs| && header == First(free) && Distinct(free)
    && (forall k | 0 <= k < |free| :: free[k] < |next| && next[free[k]] == Link(free, k))
    && (forall i | 0 <= i < |refs| :: i in free <==> refs[i] == 0)
  }

  lemma HeaderMeans(next: seq<Option<nat>>, refs: seq<nat>, header: Option<nat>, free: seq<nat>)
    requires FreeListOk(next, refs, header, free)
    ensures header == None <==> free == []
  {
    hide Link, Distinct;
  }

  /** Taking the first free block. */
  lemma PopKeepsList(next: seq<Option<nat>>, refs: seq<nat>, header: Option<nat>, free: seq<nat>)
    requires FreeListOk(next, refs, header, free) && free != []
    ensures header == Some(free[0]) && free[0] < |next| && refs[free[0]] == 0
    ensures FreeListOk(next, refs[free[0] := 1], next[free[0]], free[1..])
  {
    LinksPushed<nat>(free[1..], free[0]);
    assert [free[0]] + free[1..] == free;
    hide Link;
    assert free[0] in free && free[0] !in free[1..];
    assert next[free[0]] == First(free[1..]);
    forall i | 0 <= i < |refs| ensures i in free[1..] <==> refs[free[0] := 1][i] == 0 {
      assert i in free <==> i == free[0] || i in free[1..];
    }
  }

  /** Giving back a block its last owner let go. */
  lemma PushKeepsList(next: seq<Option<nat>>, refs: seq<nat>, header: Option<nat>, free: seq<nat>, i: nat)
    requires FreeListOk(next, refs, header, free) && i < |refs| && refs[i] == 1
    ensures FreeListOk(next[i := header], refs[i := 0], Some(i), [i] + free)
  {
    hide Link;
    LinksPushed<nat>(free, i);
    DistinctPushed(free, i);
    var more: seq<nat> := [i] + free;
    forall k | 0 <= k < |more| ensures more[k] < |next| && next[i := header][more[k]] == Link(more, k) {
      if k > 0 {
        var j := k - 1;
        assert more[k] == free[j] && free[j] in free && free[j] != i;
        assert Link<nat>(more, k) == Link<nat>(free, j) && next[free[j]] == Link(free, j);
      } else {
        assert more[k] == i && Link<nat>(more, 0) == First(free);
      }
    }
  }

  lemma DropKeepsList(next: seq<Option<nat>>, refs: seq<nat>, header: Option<nat>, free: seq<nat>, i: nat)
    requires FreeListOk(next, refs, header, free) && i < |refs| && refs[i] > 1
    ensures FreeListOk(next, refs[i := refs[i] - 1], header, free)
  {
    hide Link, First, Distinct;
  }

  function Counting(n: nat): seq<nat> {
    seq(n, i => i)
  }

  /** The blocks of the pool somebody owns. */
  function InUse(refs: seq<nat>): (live: set<nat>)
    ensures forall i :: i in live <==> 0 <= i < |refs| && refs[i] > 0
  {
    if refs == [] then {}
    else
      var n := |refs| - 1;
      InUse(refs[..n]) + if refs[n] > 0 then {n} else {}
  }

  function Members(list: seq<nat>): (s: set<nat>)
    ensures forall x :: x in s <==> x in list
  {
    if list == [] then {} else {list[0]} + Members(list[1..])
  }

  lemma {:induction false} DistinctMembers(list: seq<nat>)
    requires Distinct(list)
    ensures |Members(list)| == |list|
  {
    if list != [] {
      DistinctMembers(list[1..]);
      assert list[0] !in list[1..];
      assert |{list[0]} + Members(list[1..])| == 1 + |Members(list[1..])|;
    }
  }

  function Upto(n: nat): (s: set<nat>)
    ensures forall x :: x in s <==> 0 <= x < n
    ensures |s| == n
  {
    if n == 0 then {} else Upto(n - 1) + {n - 1}
  }

  /** Free blocks and owned blocks together are all the blocks. */
  lemma FreeAndLiveAreAll(next: seq<Option<nat>>, refs: seq<nat>, header: Option<nat>, free: seq<nat>)
    requires FreeListOk(next, refs, header, free)
    ensures |free| + |InUse(refs)| == |refs|
  {
    hide Link, First, Members, Upto, InUse;
    DistinctMembers(free);
    assert forall k | 0 <= k < |free| :: free[k] < |refs|;
    assert Members(free) + InUse(refs) == Upto(|refs|);
    assert Members(free) !! InUse(refs);
    assert |Members(free) + InUse(refs)| == |Members(free)| + |InUse(refs)|;
  }

  // ---------------------------------------------------------------- where payloads lie

  const HEADER_BYTES: nat := 32
  const WORD_BYTES: nat := 8

  /** The payload size of a pool asked for `size`: the next multiple of the word size. */
  function RoundedSize(size: nat): nat {
    size / WORD_BYTES * WORD_BYTES + if size % WORD_BYTES != 0 then WORD_BYTES else 0
  }

  lemma RoundedSizeMeans(size: nat)
    ensures RoundedSize(size) % WORD_BYTES == 0 && size <= RoundedSize(size) < size + WORD_BYTES
  {
  }

  /** The first byte of a block's payload in its pool's memory. */
  function PayloadAt(size: nat, index: nat): nat {
    index * (size + HEADER_BYTES) + HEADER_BYTES
  }

  lemma {:induction false} TimesGrows(a: nat, b: nat, stride: nat)
    requires a < b
    ensures a * stride + stride <= b * stride
    decreases b - a
  {
    assert (a + 1) * stride == a * stride + stride;
    if a + 1 < b {
      TimesGrows(a + 1, b, stride);
    }
  }

  /** Payloads of different blocks of a pool, and their headers, share no byte and stay inside
      the memory the pool asked for. */
  lemma PayloadsApart(size: nat, count: nat, i: nat, j: nat)
    requires i < j < count
    ensures 32 <= PayloadAt(size, i) && PayloadAt(size, i) + size <= PayloadAt(size, j) - 32
    ensures PayloadAt(size, j) + size <= (size + 32) * count
    ensures PayloadAt(size, 0) == 32 && PayloadAt(size, count - 1) + size == (size + 32) * count
  {
    assert (count - 1) * (size + 32) + (size + 32) == count * (size + 32);
    var stride := size + HEADER_BYTES;
    TimesGrows(i, j, stride);
    TimesGrows(j, count, stride);
    assert stride * count == count * stride;
  }

  /** A stretch of bytes: of a pool's memory, or of a block from the system. */
  datatype Span = Span(home: Pointer, offset: nat, length: nat)

  /** Where the payload of a pointer lies, for pools with these payload sizes. */
  function SpanOf(p: Pointer, sizes: seq<nat>, room: nat): Span
    requires p.InPool? ==> p.pool < |sizes|
  {
    match p
    case InPool(k, i) => Span(InPool(k, 0), PayloadAt(sizes[k], i), sizes[k])
    case FromOs(b) => Span(FromOs(b), HEADER_BYTES, room)
  }

  predicate SpansApart(a: Span, b: Span) {
    a.home != b.home || a.offset + a.length <= b.offset || b.offset + b.length <= a.offset
  }

  /** Different pointers, whether from one pool, two pools or the system, have payloads that
      share no byte. */
  lemma PointersApart(p: Pointer, q: Pointer, sizes: seq<nat>, roomP: nat, roomQ: nat)
    requires p != q && (p.InPool? ==> p.pool < |sizes|) && (q.InPool? ==> q.pool < |sizes|)
    ensures SpansApart(SpanOf(p, sizes, roomP), SpanOf(q, sizes, roomQ))
  {
    if p.InPool? && q.InPool? && p.pool == q.pool {
      if p.index < q.index {
        PayloadsApart(sizes[p.pool], q.index + 1, p.index, q.index);
      } else {
        PayloadsApart(sizes[p.pool], p.index + 1, q.index, p.index);
      }
    }
  }

  // ---------------------------------------------------------------- the pool

  /** Blocks obtained from the system and not yet given back. */
  class Heap {
    var live: map<nat, OsBlock>

    constructor ()
      ensures live == map[]
    {
      live := map[];
    }
  }

  class Pool {
    const heap: Heap
    const id: nat
    const size: nat
    const count: nat
    const next: array<Option<nat>>
    const refs: array<nat>
    /** The pool each block says it belongs to. */
    const homes: array<nat>
    var header: Option<nat>
    var ready: bool
    /** The free list, spelled out. */
    ghost var free: seq<nat>

    ghost predicate Shaped() {
      && next.Length == refs.Length == homes.Length == count && count > 0 && refs != homes
    }

    ghost predicate Valid()
      reads this, next, refs, homes
    {
      && Shaped()
      && (!ready ==> header == None && free == [] && forall i | 0 <= i < count :: refs[i] == 0)
      && (ready ==> FreeListOk(next[..], refs[..], header, free) && forall i | 0 <= i < count :: homes[i] == id)
    }

    constructor (heap: Heap, id: nat, size: nat, count: nat)
      requires count > 0
      ensures Valid() && !ready
      ensures this.heap == heap && this.id == id && this.size == RoundedSize(size) && this.count == count
      ensures fresh(next) && fresh(refs) && fresh(homes)
    {
      this.heap, this.id, this.size, this.count := heap, id, RoundedSize(size), count;
      next := new Option<nat>[count](_ => None);
      refs := new nat[count](_ => 0);
      homes := new nat[count](_ => 0);
      header, ready, free := None, false, [];
    }

    /** Chains all blocks, the first one first. */
    method Init()
      requires Valid() && !ready
      modifies this`header, this`ready, this`free, next, refs, homes
      ensures Valid() && ready && free == Counting(count) && refs[..] == old(refs[..])
    {
      header := Some(0);
      homes[0], refs[0], next[0] := id, 0, None;
      var i := 1;
      while i < count
        invariant 1 <= i <= count && header == Some(0)
        invariant forall k | 0 <= k < i :: homes[k] == id && refs[k] == 0
        invariant forall k | 0 <= k < i :: next[k] == if k + 1 < i then Some(k + 1) else None
      {
        homes[i], refs[i], next[i] := id, 0, None;
        next[i - 1] := Some(i);
        i := i + 1;
      }
      free := Counting(count);
      ready := true;
      CountedList(next[..], refs[..], count);
    }

    /** A block of the pool when one is free, and one from the system otherwise. */
    method Alloc(bytes: nat, given: nat) returns (p: Pointer)
      requires Valid() && given !in heap.live
      modifies this`header, this`ready, this`free, next, refs, homes, heap
      ensures Valid() && ready
      ensures var before := if old(ready) then old(free) else Counting(count);
        if before == [] then
          p == FromOs(given) && free == [] && heap.live == old(heap.live)[given := OsBlock(1, bytes)] &&
          refs[..] == old(refs[..])
        else
          && p == InPool(id, before[0]) && before[0] < count && free == before[1..] && heap.live == old(heap.live)
          && old(refs[before[0]]) == 0 && refs[..] == old(refs[..])[before[0] := 1]
    {
      hide FreeListOk, Counting;
      if !ready {
        Init();
      }
      HeaderMeans(next[..], refs[..], header, free);
      if header == None {
        heap.live := heap.live[given := OsBlock(1, bytes)];
        return FromOs(given);
      }
      var i := TakeFirst();
      p := InPool(id, i);
    }

    method TakeFirst() returns (i: nat)
      requires Valid() && ready && free != []
      modifies this`header, this`free, refs
      ensures Valid() && ready && i == old(free[0]) && i < count && free == old(free[1..])
      ensures old(refs[i]) == 0 && refs[..] == old(refs[..])[i := 1]
    {
      hide FreeListOk;
      PopKeepsList(next[..], refs[..], header, free);
      i := header.value;
      header := next[i];
      refs[i] := refs[i] + 1;
      free := free[1..];
    }

    /** Lets one owner go; a block nobody owns any more is free again. */
    method Free(index: nat)
      requires Valid() && ready && index < count && refs[index] > 0
      modifies this`header, this`free, next, refs
      ensures Valid() && ready
      ensures refs[..] == old(refs[..])[index := old(refs[index]) - 1]
      ensures free == if old(refs[index]) == 1 then [index] + old(free) else old(free)
    {
      hide FreeListOk;
      if refs[index] == 1 {
        PushKeepsList(next[..], refs[..], header, free, index);
      } else {
        DropKeepsList(next[..], refs[..], header, free, index);
      }
      refs[index] := refs[index] - 1;
      if refs[index] != 0 {
        return;
      }
      next[index] := header;
      header := Some(index);
      free := [index] + free;
    }
  }

  lemma CountingLinks(n: nat)
    ensures forall k | 0 <= k < n :: Link(Counting(n), k) == if k + 1 < n then Some(k + 1) else None
  {
    forall k | 0 <= k < n ensures Link(Counting(n), k) == if k + 1 < n then Some(k + 1) else None {
      assert k + 1 < n ==> Counting(n)[k + 1..][0] == k + 1;
    }
  }

  lemma CountedList(next: seq<Option<nat>>, refs: seq<nat>, n: nat)
    requires |next| == |refs| == n && n > 0 && (forall i | 0 <= i < n :: refs[i] == 0)
    requires forall k | 0 <= k < n :: next[k] == if k + 1 < n then Some(k + 1) else None
    ensures FreeListOk(next, refs, Some(0), Counting(n))
  {
    hide Link;
    CountingLinks(n);
    forall i | 0 <= i < n ensures i in Counting(n) {
      assert Counting(n)[i] == i;
    }
  }

  // ---------------------------------------------------------------- size classes

  const CLASS_SIZES: seq<nat> := [32, 64, 128, 256, 512, 1024]
  const CLASS_COUNTS: seq<nat> := [3000000, 3000000, 3000000, 100000, 100000, 100000]
  const MAX_POOLED: nat := 1024

  /** The smallest class that holds this many bytes. */
  function ClassOf(bytes: nat): (k: nat)
    requires bytes <= MAX_POOLED
    ensures k < |CLASS_SIZES| && bytes <= CLASS_SIZES[k] && (k > 0 ==> CLASS_SIZES[k - 1] < bytes)
  {
    if bytes <= 32 then 0 else if bytes <= 64 then 1 else if bytes <= 128 then 2
    else if bytes <= 256 then 3 else if bytes <= 512 then 4 else 5
  }

  ghost predicate NewPoolOk(p: Pool, heap: Heap, k: nat)
    reads p, p.next, p.refs, p.homes
  {
    && p.Valid() && p.ready && p.heap == heap && p.id == k
    && k < |CLASS_SIZES| && p.size == CLASS_SIZES[k] && p.count == CLASS_COUNTS[k]
  }

  predicate Unowned(p: Pool)
    reads p.refs
  {
    forall i | 0 <= i < p.refs.Length :: p.refs[i] == 0
  }

  ghost predicate NewPools(made: seq<Pool>, heap: Heap)
    reads set k | 0 <= k < |made| :: made[k], set k | 0 <= k < |made| :: made[k].next
    reads set k | 0 <= k < |made| :: made[k].refs, set k | 0 <= k < |made| :: made[k].homes
  {
    && (forall k | 0 <= k < |made| :: NewPoolOk(made[k], heap, k))
    && forall j, k | 0 <= j < k < |made| :: PoolsApart(made[j], made[k])
  }

  /** The two pools share no field and no array. */
  predicate PoolsApart(p: Pool, q: Pool) {
    && p != q && p.next != q.next
    && p.refs != q.refs && p.refs != q.homes && p.homes != q.refs && p.homes != q.homes
  }

  // ---------------------------------------------------------------- what is in use

  /** The owners of a pointer, from the counts in the pools' blocks and the system's blocks. */
  function OwnersIn(refs: seq<seq<nat>>, live: map<nat, OsBlock>, p: Pointer): nat {
    match p
    case InPool(k, i) => if k < |refs| && i < |refs[k]| then refs[k][i] else 0
    case FromOs(b) => if b in live then live[b].refs else 0
  }

  predicate LiveIn(refs: seq<seq<nat>>, live: map<nat, OsBlock>, p: Pointer) {
    match p
    case InPool(_, _) => OwnersIn(refs, live, p) > 0
    case FromOs(b) => b in live
  }

  function RoomIn(live: map<nat, OsBlock>, p: Pointer): nat {
    match p
    case InPool(k, _) => if k < |CLASS_SIZES| then CLASS_SIZES[k] else 0
    case FromOs(b) => if b in live then live[b].room else 0
  }

  /** What is in use: for each pointer its owners and the room of its payload. */
  type Holdings = imap<Pointer, OsBlock>

  ghost function HeldIn(refs: seq<seq<nat>>, live: map<nat, OsBlock>): Holdings {
    imap p | LiveIn(refs, live, p) :: OsBlock(OwnersIn(refs, live, p), RoomIn(live, p))
  }

  /** A new pointer, with one owner and room for the request: a block of some pool, of that
      pool's class, or a block from the system. Nothing else changes. */
  ghost predicate Gains(before: Holdings, after: Holdings, p: Pointer, bytes: nat) {
    && p !in before && p in after && after[p].refs == 1 && bytes <= after[p].room
    && after == before[p := after[p]]
    && (p.InPool? ==> p.pool < |CLASS_SIZES| && after[p].room == CLASS_SIZES[p.pool])
  }

  /** One owner of a pointer fewer; the last one takes it out of use. Nothing else changes. */
  ghost predicate Loses(before: Holdings, after: Holdings, p: Pointer) {
    && p in before
    && if before[p].refs > 1 then after == before[p := before[p].(refs := before[p].refs - 1)]
       else after == imap q | q in before && q != p :: before[q]
  }

  /** One count changed. */
  function Counted(refs: seq<seq<nat>>, k: nat, i: nat, n: nat): seq<seq<nat>>
    requires k < |refs| && i < |refs[k]|
  {
    var row: seq<nat> := refs[k][i := n];
    refs[k := row]
  }

  lemma OwnersSet(refs: seq<seq<nat>>, live: map<nat, OsBlock>, k: nat, i: nat, n: nat)
    requires k < |refs| && i < |refs[k]|
    ensures var more := Counted(refs, k, i, n);
      forall q :: OwnersIn(more, live, q) == if q == InPool(k, i) then n else OwnersIn(refs, live, q)
  {
  }

  lemma PoolBlockGained(refs: seq<seq<nat>>, live: map<nat, OsBlock>, k: nat, i: nat, bytes: nat)
    requires |refs| == |CLASS_SIZES| && k < |refs| && i < |refs[k]| && refs[k][i] == 0 && bytes <= CLASS_SIZES[k]
    ensures Gains(HeldIn(refs, live), HeldIn(Counted(refs, k, i, 1), live), InPool(k, i), bytes)
  {
    OwnersSet(refs, live, k, i, 1);
    hide OwnersIn;
    assert forall q :: LiveIn(Counted(refs, k, i, 1), live, q) <==> LiveIn(refs, live, q) || q == InPool(k, i);
  }

  lemma OsBlockGained(refs: seq<seq<nat>>, live: map<nat, OsBlock>, b: nat, bytes: nat)
    requires b !in live
    ensures Gains(HeldIn(refs, live), HeldIn(refs, live[b := OsBlock(1, bytes)]), FromOs(b), bytes)
  {
    var more := live[b := OsBlock(1, bytes)];
    assert forall q | q != FromOs(b) :: OwnersIn(refs, more, q) == OwnersIn(refs, live, q);
    assert forall q :: LiveIn(refs, more, q) <==> LiveIn(refs, live, q) || q == FromOs(b);
  }

  lemma PoolBlockLost(refs: seq<seq<nat>>, live: map<nat, OsBlock>, k: nat, i: nat)
    requires k < |refs| && i < |refs[k]| && refs[k][i] > 0
    ensures Loses(HeldIn(refs, live), HeldIn(Counted(refs, k, i, refs[k][i] - 1), live), InPool(k, i))
  {
    OwnersSet(refs, live, k, i, refs[k][i] - 1);
    assert OwnersIn(refs, live, InPool(k, i)) == refs[k][i];
    hide OwnersIn;
    var less := Counted(refs, k, i, refs[k][i] - 1);
    assert forall q | q != InPool(k, i) :: LiveIn(less, live, q) <==> LiveIn(refs, live, q);
  }

  lemma OsBlockLost(refs: seq<seq<nat>>, live: map<nat, OsBlock>, b: nat)
    requires b in live && live[b].refs > 0
    ensures Loses(HeldIn(refs, live), HeldIn(refs, WithoutOwner(live, b)), FromOs(b))
  {
    var less := WithoutOwner(live, b);
    assert forall q | q != FromOs(b) :: OwnersIn(refs, less, q) == OwnersIn(refs, live, q);
    assert forall q | q != FromOs(b) :: LiveIn(refs, less, q) <==> LiveIn(refs, live, q);
  }

  /** The system's blocks after one lost an owner. */
  function WithoutOwner(live: map<nat, OsBlock>, b: nat): map<nat, OsBlock>
    requires b in live && live[b].refs > 0
  {
    if live[b].refs == 1 then live - {b} else live[b := live[b].(refs := live[b].refs - 1)]
  }

  /** What the two relations say of each pointer. */
  lemma HeldMeans(refs: seq<seq<nat>>, live: map<nat, OsBlock>, p: Pointer)
    ensures LiveIn(refs, live, p) <==> p in HeldIn(refs, live)
    ensures p in HeldIn(refs, live) ==>
      HeldIn(refs, live)[p] == OsBlock(OwnersIn(refs, live, p), RoomIn(live, p))
    ensures p !in HeldIn(refs, live) ==> OwnersIn(refs, live, p) == 0
  {
  }

  lemma NothingHeld(refs: seq<seq<nat>>)
    requires forall k, i | 0 <= k < |refs| && 0 <= i < |refs[k]| :: refs[k][i] == 0
    ensures HeldIn(refs, map[]) == imap[]
  {
  }

  lemma GainsMean(refs: seq<seq<nat>>, refs': seq<seq<nat>>, live: map<nat, OsBlock>, live': map<nat, OsBlock>,
      p: Pointer, bytes: nat)
    requires Gains(HeldIn(refs, live), HeldIn(refs', live'), p, bytes)
    ensures !LiveIn(refs, live, p) && LiveIn(refs', live', p)
    ensures OwnersIn(refs', live', p) == 1 && bytes <= RoomIn(live', p)
    ensures forall q :: q != p ==> OwnersIn(refs', live', q) == OwnersIn(refs, live, q)
    ensures forall q :: q != p ==> (LiveIn(refs', live', q) <==> LiveIn(refs, live, q))
    ensures forall q :: q != p && LiveIn(refs', live', q) ==> RoomIn(live', q) == RoomIn(live, q)
  {
    hide HeldIn, OwnersIn, LiveIn, RoomIn;
    HeldMeans(refs, live, p);
    HeldMeans(refs', live', p);
    forall q | q != p
      ensures OwnersIn(refs', live', q) == OwnersIn(refs, live, q)
      ensures LiveIn(refs', live', q) <==> LiveIn(refs, live, q)
      ensures LiveIn(refs', live', q) ==> RoomIn(live', q) == RoomIn(live, q)
    {
      HeldMeans(refs, live, q);
      HeldMeans(refs', live', q);
    }
  }

  lemma LosesMean(refs: seq<seq<nat>>, refs': seq<seq<nat>>, live: map<nat, OsBlock>, live': map<nat, OsBlock>,
      p: Pointer)
    requires Loses(HeldIn(refs, live), HeldIn(refs', live'), p) && OwnersIn(refs, live, p) > 0
    ensures OwnersIn(refs', live', p) == OwnersIn(refs, live, p) - 1
    ensures LiveIn(refs', live', p) <==> OwnersIn(refs, live, p) > 1
    ensures forall q :: q != p ==> OwnersIn(refs', live', q) == OwnersIn(refs, live, q)
    ensures forall q :: q != p ==> (LiveIn(refs', live', q) <==> LiveIn(refs, live, q))
    ensures forall q :: LiveIn(refs', live', q) ==> RoomIn(live', q) == RoomIn(live, q)
  {
    hide HeldIn, OwnersIn, LiveIn, RoomIn;
    HeldMeans(refs, live, p);
    HeldMeans(refs', live', p);
    forall q | q != p
      ensures OwnersIn(refs', live', q) == OwnersIn(refs, live, q)
      ensures LiveIn(refs', live', q) <==> LiveIn(refs, live, q)
      ensures LiveIn(refs', live', q) ==> RoomIn(live', q) == RoomIn(live, q)
    {
      HeldMeans(refs, live, q);
      HeldMeans(refs', live', q);
    }
  }

  // ---------------------------------------------------------------- runs of requests and returns

  datatype Event = Got(p: Pointer, bytes: nat) | GaveBack(p: Pointer)

  /** What is in use before, between and after requests answered and pointers given back. */
  ghost predicate Run(held: seq<Holdings>, events: seq<Event>) {
    && |held| == |events| + 1 && held[0] == imap[]
    && forall i | 0 <= i < |events| ::
      match events[i]
      case Got(p, bytes) => Gains(held[i], held[i + 1], p, bytes)
      case GaveBack(p) => Loses(held[i], held[i + 1], p)
  }

  /** The requests answered and not given back: for each pointer, the bytes asked for. */
  function Asked(events: seq<Event>, n: nat): map<Pointer, nat>
    requires n <= |events|
  {
    if n == 0 then map[]
    else match events[n - 1]
      case Got(p, bytes) => Asked(events, n - 1)[p := bytes]
      case GaveBack(p) => Asked(events, n - 1) - {p}
  }

  /** In every run, what is in use is exactly what was handed out and not given back, each with
      one owner and at least the room that was asked for. */
  lemma {:induction false} InUseIsAsked(held: seq<Holdings>, events: seq<Event>, n: nat)
    requires Run(held, events) && n <= |events|
    ensures forall p :: p in held[n] <==> p in Asked(events, n)
    ensures forall p | p in held[n] :: held[n][p].refs == 1 && Asked(events, n)[p] <= held[n][p].room
    ensures forall p | p in held[n] && p.InPool? ::
      p.pool < |CLASS_SIZES| && held[n][p].room == CLASS_SIZES[p.pool]
  {
    if n > 0 {
      InUseIsAsked(held, events, n - 1);
      match events[n - 1]
      case Got(p, bytes) =>
        assert Gains(held[n - 1], held[n], p, bytes);
      case GaveBack(p) =>
        assert Loses(held[n - 1], held[n], p);
    }
  }

  /** In every run, the payloads in use share no byte, and each is as long as was asked for. */
  lemma PayloadsInUseApart(held: seq<Holdings>, events: seq<Event>, n: nat, p: Pointer, q: Pointer)
    requires Run(held, events) && n <= |events| && p in held[n] && q in held[n] && p != q
    ensures p in Asked(events, n) && (p.InPool? ==> p.pool < |CLASS_SIZES|) && (q.InPool? ==> q.pool < |CLASS_SIZES|)
    ensures Asked(events, n)[p] <= SpanOf(p, CLASS_SIZES, held[n][p].room).length
    ensures SpansApart(SpanOf(p, CLASS_SIZES, held[n][p].room), SpanOf(q, CLASS_SIZES, held[n][q].room))
  {
    hide Asked, Gains, Loses;
    InUseIsAsked(held, events, n);
    PointersApart(p, q, CLASS_SIZES, held[n][p].room, held[n][q].room);
  }

  class MemManager {
    const heap: Heap
    const pools: seq<Pool>
    /** For each size, its class. */
    const table: array<nat>

    ghost predicate PoolOk(k: nat)
      requires k < |pools|
      reads pools[k], pools[k].next, pools[k].refs, pools[k].homes
    {
      NewPoolOk(pools[k], heap, k) && pools[k].refs != table && pools[k].homes != table
    }

    ghost predicate Apart() {
      forall j, k | 0 <= j < k < |pools| :: PoolsApart(pools[j], pools[k])
    }

    ghost function Memory(): set<object> {
      (set k | 0 <= k < |pools| :: pools[k] as object) + (set k | 0 <= k < |pools| :: pools[k].next as object) +
      (set k | 0 <= k < |pools| :: pools[k].refs as object) + (set k | 0 <= k < |pools| :: pools[k].homes as object) +
      {heap as object}
    }

    ghost predicate Valid()
      reads table, Memory()
    {
      && |pools| == |CLASS_SIZES| && Apart() && (forall k | 0 <= k < |pools| :: PoolOk(k))
      && table.Length == MAX_POOLED + 1 && (forall n | 0 <= n <= MAX_POOLED :: table[n] == ClassOf(n))
      && (forall b | b in heap.live :: heap.live[b].refs > 0)
    }

    /** How many owners each block of each pool has. */
    ghost function Refs(): (refs: seq<seq<nat>>)
      reads set k | 0 <= k < |pools| :: pools[k].refs
      ensures |refs| == |pools| && forall k | 0 <= k < |pools| :: refs[k] == pools[k].refs[..]
    {
      seq(|pools|, k requires 0 <= k < |pools| reads if 0 <= k < |pools| then {pools[k].refs} else {} =>
        pools[k].refs[..])
    }

    /** A pointer that was handed out and not given back by all its owners. */
    ghost predicate Live(p: Pointer)
      reads heap, set k | 0 <= k < |pools| :: pools[k].refs
    {
      LiveIn(Refs(), heap.live, p)
    }

    /** The owners of a pointer. */
    ghost function Owners(p: Pointer): nat
      reads heap, set k | 0 <= k < |pools| :: pools[k].refs
    {
      OwnersIn(Refs(), heap.live, p)
    }

    /** The bytes a pointer's payload has. */
    ghost function Room(p: Pointer): nat
      reads heap
    {
      RoomIn(heap.live, p)
    }

    /** Everything in use: who owns it how often, and how much room it has. */
    ghost function Held(): Holdings
      reads heap, set k | 0 <= k < |pools| :: pools[k].refs
    {
      HeldIn(Refs(), heap.live)
    }

    /** In every pool, the free blocks and the blocks in use are together all the blocks. */
    lemma FreeAndInUse(k: nat)
      requires Valid() && k < |pools|
      ensures |pools[k].free| + |InUse(pools[k].refs[..])| == pools[k].count
      ensures forall i: nat :: i in InUse(pools[k].refs[..]) <==> InPool(k, i) in Held()
    {
      hide FreeListOk;
      assert PoolOk(k);
      FreeAndLiveAreAll(pools[k].next[..], pools[k].refs[..], pools[k].header, pools[k].free);
      forall i: nat ensures i in InUse(pools[k].refs[..]) <==> InPool(k, i) in Held() {
        HeldMeans(Refs(), heap.live, InPool(k, i));
      }
    }

    /** All pools are chained at once, and the table is filled range by range. */
    constructor (heap: Heap)
      requires forall b | b in heap.live :: heap.live[b].refs > 0
      ensures Valid() && this.heap == heap
      ensures |pools| == 6 && forall k | 0 <= k < 6 ::
        && pools[k].size == [32, 64, 128, 256, 512, 1024][k]
        && pools[k].count == [3000000, 3000000, 3000000, 100000, 100000, 100000][k]
      ensures heap.live == map[] ==> Held() == imap[]
    {
      this.heap := heap;
      var made := MemManager.MakePools(heap);
      pools := made;
      table := new nat[MAX_POOLED + 1](_ => 0);
      new;
      hide HeldIn, NewPoolOk;
      FillClasses();
      assert forall k | 0 <= k < |pools| :: Unowned(pools[k]);
      if heap.live == map[] { NothingHeld(Refs()); }
    }

    static method MakePool(heap: Heap, k: nat) returns (pool: Pool)
      requires k < |CLASS_SIZES|
      ensures NewPoolOk(pool, heap, k) && Unowned(pool)
      ensures fresh(pool) && fresh(pool.next) && fresh(pool.refs) && fresh(pool.homes) && pool.refs != pool.homes
    {
      pool := new Pool(heap, k, CLASS_SIZES[k], CLASS_COUNTS[k]);
      pool.Init();
    }

    static method MakePools(heap: Heap) returns (made: seq<Pool>)
      ensures |made| == |CLASS_SIZES| && NewPools(made, heap)
      ensures forall k | 0 <= k < |made| :: Unowned(made[k])
      ensures forall k | 0 <= k < |made| :: fresh(made[k])
      ensures forall k | 0 <= k < |made| :: fresh(made[k].next) && fresh(made[k].refs) && fresh(made[k].homes)
    {
      hide NewPoolOk;
      made := [];
      while |made| < |CLASS_SIZES|
        invariant |made| <= |CLASS_SIZES| && NewPools(made, heap)
        invariant forall k | 0 <= k < |made| :: Unowned(made[k])
        invariant forall k | 0 <= k < |made| :: fresh(made[k])
        invariant forall k | 0 <= k < |made| :: fresh(made[k].next) && fresh(made[k].refs) && fresh(made[k].homes)
      {
        var pool := MakePool(heap, |made|);
        made := made + [pool];
      }
    }

    method FillClasses()
      requires table.Length == MAX_POOLED + 1
      modifies table
      ensures forall n | 0 <= n <= MAX_POOLED :: table[n] == ClassOf(n)
    {
      FillTable(0, 32, 0);
      FillTable(33, 64, 1);
      FillTable(65, 128, 2);
      FillTable(129, 256, 3);
      FillTable(257, 512, 4);
      FillTable(513, 1024, 5);
    }

    method FillTable(bgn: nat, end: nat, k: nat)
      requires table.Length == MAX_POOLED + 1 && bgn <= end <= MAX_POOLED
      modifies table
      ensures forall n | bgn <= n <= end :: table[n] == k
      ensures forall n | 0 <= n <= MAX_POOLED && !(bgn <= n <= end) :: table[n] == old(table[n])
    {
      var i := bgn;
      while i <= end
        invariant bgn <= i <= end + 1
        invariant forall n | bgn <= n < i :: table[n] == k
        invariant forall n | 0 <= n <= MAX_POOLED && !(bgn <= n < i) :: table[n] == old(table[n])
      {
        table[i] := k;
        i := i + 1;
      }
    }

    /** A request goes to the pool of its class, or to the system when it is too large. What it
        gets was not in use, has room for the request and one owner; nothing else changes hands,
        owners or room. */
    method Alloc(bytes: nat, given: nat) returns (p: Pointer)
      requires Valid() && given !in heap.live
      modifies Memory()
      ensures Valid() && Gains(old(Held()), Held(), p, bytes)
      ensures !old(Live(p)) && Live(p) && Owners(p) == 1 && bytes <= Room(p)
      ensures forall q :: q != p ==> Owners(q) == old(Owners(q)) && (Live(q) <==> old(Live(q)))
      ensures forall q :: q != p && Live(q) ==> Room(q) == old(Room(q))
    {
      hide Gains, HeldIn, PoolOk;
      ghost var before := Refs();
      if bytes <= MAX_POOLED {
        p := AllocPooled(table[bytes], bytes, given);
        if p.InPool? {
          PoolBlockGained(before, heap.live, p.pool, p.index, bytes);
        } else {
          OsBlockGained(before, old(heap.live), given, bytes);
        }
      } else {
        heap.live := heap.live[given := OsBlock(1, bytes)];
        p := FromOs(given);
        OsBlockGained(before, old(heap.live), given, bytes);
      }
      GainsMean(before, Refs(), old(heap.live), heap.live, p, bytes);
    }

    method AllocPooled(k: nat, bytes: nat, given: nat) returns (p: Pointer)
      requires Valid() && k < |pools| && given !in heap.live
      modifies pools[k], pools[k].next, pools[k].refs, pools[k].homes, heap
      ensures Valid()
      ensures p.InPool? ==>
        && p.pool == k && p.index < |old(Refs())[k]| && old(Refs())[k][p.index] == 0
        && Refs() == Counted(old(Refs()), k, p.index, 1) && heap.live == old(heap.live)
      ensures p.FromOs? ==>
        p == FromOs(given) && Refs() == old(Refs()) && heap.live == old(heap.live)[given := OsBlock(1, bytes)]
    {
      hide FreeListOk;
      assert PoolOk(k);
      p := pools[k].Alloc(bytes, given);
      forall j | 0 <= j < |pools| && j != k ensures PoolOk(j) && Refs()[j] == old(Refs())[j] {
        assert PoolsApart(pools[Min(j, k)], pools[Max(j, k)]);
        assert old(PoolOk(j));
      }
    }

    /** One owner fewer. A block goes back to the pool its header names, which is the one it came
        from, or to the system; it stays in use while it has other owners. Nothing else changes
        hands, owners or room. */
    method Free(p: Pointer)
      requires Valid() && Live(p)
      modifies Memory()
      ensures Valid() && Loses(old(Held()), Held(), p)
      ensures Owners(p) == old(Owners(p)) - 1 && (Live(p) <==> old(Owners(p)) > 1)
      ensures forall q :: q != p ==> Owners(q) == old(Owners(q)) && (Live(q) <==> old(Live(q)))
      ensures forall q :: Live(q) ==> Room(q) == old(Room(q))
      ensures p.InPool? && !Live(p) ==> First(pools[p.pool].free) == Some(p.index)
    {
      hide Loses, HeldIn, PoolOk, FreeListOk;
      ghost var before := Refs();
      match p
      case InPool(k, i) =>
        PoolBlockLost(before, heap.live, k, i);
        FreePooled(k, i);
        LosesMean(before, Refs(), old(heap.live), heap.live, p);
      case FromOs(b) =>
        OsBlockLost(before, heap.live, b);
        FreeBlock(b);
        LosesMean(before, Refs(), old(heap.live), heap.live, p);
    }

    /** The block's header names its pool. */
    method FreePooled(k: nat, i: nat)
      requires Valid() && k < |pools| && i < pools[k].refs.Length && pools[k].refs[i] > 0
      modifies pools[k], pools[k].next, pools[k].refs
      ensures Valid()
      ensures Refs() == Counted(old(Refs()), k, i, old(Refs())[k][i] - 1)
      ensures pools[k].refs[i] == 0 ==> First(pools[k].free) == Some(i)
    {
      hide FreeListOk;
      assert PoolOk(k);
      var home := pools[k].homes[i];
      pools[home].Free(i);
      forall j | 0 <= j < |pools| && j != k ensures PoolOk(j) && Refs()[j] == old(Refs())[j] {
        assert PoolsApart(pools[Min(j, k)], pools[Max(j, k)]);
        assert old(PoolOk(j));
      }
    }

    method FreeBlock(b: nat)
      requires Valid() && b in heap.live
      modifies heap
      ensures Valid() && heap.live == WithoutOwner(old(heap.live), b)
    {
      var block := heap.live[b];
      if block.refs == 1 {
        heap.live := heap.live - {b};
      } else {
        heap.live := heap.live[b := block.(refs := block.refs - 1)];
      }
    }
  }
}
