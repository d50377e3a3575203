/** Over whole runs, the cleanups registered for a thread are those its calls asked for since the
    arena last started over, in the order they asked. */
module ArenaCleanups {
  import opened Options
  import opened ArenaModel
  import opened ArenaInvariant
  import opened ArenaRuns

  /** The cleanup a step asks for in the name of `u`: the one given with a call; or, for memory
      with a cleanup, the one for the address just handed out. */
  ghost function AskedBy(s: State, e: Step, u: Tid): seq<Node>
    requires Safe(s, e)
  {
    match e
    case Call(t, GetAny(node)) => if t == u then [node] else []
    case Take(t) =>
      if t == u && PcOf(s, t).Holding? && PcOf(s, t).goal.GetMemory? && PcOf(s, t).goal.cleanup.Some? then
        var b := PcOf(s, t).block;
        [Node(Inside(Address(b, s.blocks[b].pos)), PcOf(s, t).goal.cleanup.value)]
      else []
    case _ => []
  }

  /** The cleanups `u` asked for in the first `n` steps, since the last reset among them. */
  ghost function Asked(states: seq<State>, steps: seq<Step>, n: nat, u: Tid): seq<Node>
    requires n <= |steps| <= |states| && forall i | 0 <= i < n :: Safe(states[i], steps[i])
  {
    if n == 0 || steps[n - 1].Reset? then []
    else Asked(states, steps, n - 1, u) + AskedBy(states[n - 1], steps[n - 1], u)
  }

  function Pended(pc: Pc): seq<Node> {
    if Pending(pc).Some? then [Pending(pc).value] else []
  }

  /** A cleanup becomes pending by being asked for, and only when none is. */
  ghost predicate PendsAsked(s: State, z: State, e: Step, u: Tid)
    requires Safe(s, e)
  {
    if Pending(PcOf(s, u)) == None then Pended(PcOf(z, u)) == AskedBy(s, e, u) else AskedBy(s, e, u) == []
  }

  lemma AskedPends(s: State, e: Step, u: Tid)
    requires Enabled(s, e) && Safe(s, e) && !e.Reset?
    ensures PendsAsked(s, Next(s, e), e, u)
  {
    hide Next, CheckCaches, ChunkBytes, Need, NextChunkSize, NewBlockSize;
    match e
    case Take(_) => TakePends(s, e, u);
    case AddNode(_) => AddNodePends(s, e, u);
    case Call(_, _) => CallPends(s, e, u);
    case Check(_) => CheckPends(s, e, u);
    case Find(_, _) => FindPends(s, e, u);
    case Grow(_, _) => GrowPends(s, e, u);
    case _ => OthersPend(s, e, u);
  }

  lemma TakePends(s: State, e: Step, u: Tid)
    requires e.Take? && Enabled(s, e) && Safe(s, e)
    ensures PendsAsked(s, Next(s, e), e, u)
  {
    hide ChunkBytes, Need, AllocFromBlock, PushChunk;
    TakeKeepsPcs(s, e.t);
    var goal := PcOf(s, e.t).goal;
    if goal.GetChunk? {
      PushChunkKeepsPcs(s, s.blocks[PcOf(s, e.t).block].threadInfo, PcOf(s, e.t).block, goal.size, goal.node);
    }
  }

  lemma TakeKeepsPcs(s: State, t: Tid)
    requires Enabled(s, Take(t)) && Safe(s, Take(t))
    ensures forall n, use :: AllocFromBlock(s, PcOf(s, t).block, n, use).pcs == s.pcs
  {
  }

  lemma PushChunkKeepsPcs(s: State, t: Tid, b: BlockId, size: nat, node: Node)
    requires b in s.blocks && t in s.infos
    ensures PushChunk(s, t, b, size, node).pcs == s.pcs
  {
    hide ChunkBytes;
  }

  lemma AddNodePends(s: State, e: Step, u: Tid)
    requires e.AddNode? && Enabled(s, e) && Safe(s, e)
    ensures PendsAsked(s, Next(s, e), e, u)
  {
    hide ChunkBytes, NextChunkSize;
  }

  lemma CallPends(s: State, e: Step, u: Tid)
    requires e.Call? && Enabled(s, e) && Safe(s, e)
    ensures PendsAsked(s, Next(s, e), e, u)
  {
  }

  lemma CheckPends(s: State, e: Step, u: Tid)
    requires e.Check? && Enabled(s, e) && Safe(s, e)
    ensures PendsAsked(s, Next(s, e), e, u)
  {
    hide Need;
  }

  lemma OthersPend(s: State, e: Step, u: Tid)
    requires Enabled(s, e) && Safe(s, e)
    requires e.Load? || e.CompareAndSwap? || e.OtherArena? || e.OtherInit?
    ensures PendsAsked(s, Next(s, e), e, u)
  {
    hide Need;
  }

  lemma FindPends(s: State, e: Step, u: Tid)
    requires e.Find? && Enabled(s, e) && Safe(s, e)
    ensures PendsAsked(s, Next(s, e), e, u)
  {
    hide Need, NewBlockSize;
  }

  lemma GrowPends(s: State, e: Step, u: Tid)
    requires e.Grow? && Enabled(s, e) && Safe(s, e)
    ensures PendsAsked(s, Next(s, e), e, u)
  {
    hide Need, NewBlockSize;
  }

  /** One step: what is registered and what is pending grow together by what is asked for. */
  lemma StepRegistersAsked(s: State, e: Step, u: Tid)
    requires Inv(s) && Enabled(s, e) && !e.Reset?
    ensures Safe(s, e)
    ensures Registered(Next(s, e), u) + Pended(PcOf(Next(s, e), u)) ==
      Registered(s, u) + Pended(PcOf(s, u)) + AskedBy(s, e, u)
  {
    hide Inv, Next, Enabled, Safe, PcOf, Registered, AskedBy;
    RegisteredOnce(s, e, u);
    AskedPends(s, e, u);
    assert Registered(s, u) + [] == Registered(s, u);
  }

  /** In every state of every run, the cleanups registered for a thread, and then the one its call
      in progress may still have to register, are exactly those its calls asked for since the last
      reset, in order. So when the thread is inside no call, what is registered is what it asked
      for: nothing is lost, repeated, reordered or registered for another thread. */
  lemma {:induction false} RegisteredIsAsked(before: State, t: Tid, states: seq<State>, steps: seq<Step>,
      n: nat, u: Tid)
    requires Run(before, t, states, steps) && n < |states|
    ensures n <= |steps| <= |states| && forall i | 0 <= i < n :: Safe(states[i], steps[i])
    ensures Registered(states[n], u) + Pended(PcOf(states[n], u)) == Asked(states, steps, n, u)
    ensures PcOf(states[n], u).Idle? ==> Registered(states[n], u) == Asked(states, steps, n, u)
    decreases n
  {
    hide Inv, Next, Enabled, Safe, PcOf, CacheOf, Registered, AskedBy, Init;
    RunKeepsInv(before, t, states, steps, n);
    if n == 0 {
      StartsUnregistered(before, t, u);
    } else {
      RegisteredIsAsked(before, t, states, steps, n - 1, u);
      RunKeepsInv(before, t, states, steps, n - 1);
      var s, e := states[n - 1], steps[n - 1];
      if e.Reset? {
        ResetUnregistered(s, e.t, u);
      } else {
        StepRegistersAsked(s, e, u);
      }
    }
    assert Registered(states[n], u) + [] == Registered(states[n], u);
  }

  lemma StartsUnregistered(before: State, t: Tid, u: Tid)
    requires Startable(before)
    ensures Registered(Init(before, t), u) == [] && PcOf(Init(before, t), u).Idle?
  {
    PcsKept(before, Init(before, t), t);
  }

  lemma ResetUnregistered(s: State, t: Tid, u: Tid)
    requires Enabled(s, Reset(t)) && Safe(s, Reset(t))
    ensures Registered(Next(s, Reset(t)), u) == [] && PcOf(Next(s, Reset(t)), u).Idle?
  {
    PcsKept(s, Init(s, t), t);
  }
}
