/** A task service: threads add tasks, one worker runs them, and a closing thread waits on the
    semaphore until the worker is done. Each step is what one thread does between two points
    at which another thread may act. */
module TaskServices {
  import Sems = Semaphores
  import opened Numbers

  type Tid = Sems.Tid
  type Task = nat

  /** Where the worker is: at the loop's condition, at the test of the buffer, about to move the
      buffer under the lock, at the test of the pool, running the pool, about to clear it,
      running what the buffer still holds after the loop, about to signal. */
  datatype Worker =
    | None | Loop | AtBuffer | Moving | AtPool | Running(k: nat) | Clearing | Final(k: nat) | Signal

  /** Where a closing thread is; it keeps the service's mutex until its wait returns. */
  datatype Closer = Nobody | Stopped(t: Tid) | Waiting(t: Tid)

  /** `added`, `due`, `executed` and `repeated` are history: what was added; what must have run
      once everything has; what ran; what a restart queued a second time. `ranFinal` is how
      many leading tasks of the buffer the last final loop ran, and `dueAtClose` how much was
      due when the last effective close began. */
  datatype State = State(
    isRun: bool, buffer: seq<Task>, pool: seq<Task>, worker: Worker, closer: Closer, sem: Sems.Sem,
    starts: nat, closes: nat, added: seq<Task>, due: seq<Task>, executed: seq<Task>,
    repeated: seq<Task>, ranFinal: nat, dueAtClose: nat)

  ghost predicate Initial(s: State) {
    Sems.Starts(s.sem) && s == State(false, [], [], None, Nobody, s.sem, 0, 0, [], [], [], [], 0, 0)
  }

  datatype Step =
    | AddTask(task: Task)
    | Start
    | Close(t: Tid)
    | Wait
    | Wake
    | Recheck
    | Work

  predicate Enabled(s: State, e: Step) {
    match e
    case AddTask(_) => true
    case Start => s.closer.Nobody?
    case Close(_) => s.closer.Nobody?
    case Wait => s.closer.Stopped?
    case Wake => s.closer.Waiting? && s.closer.t in s.sem.asleep
    case Recheck => s.closer.Waiting? && s.closer.t in s.sem.awake
    case Work => !s.worker.None?
  }

  /** After the semaphore acted for the closing thread: either it sleeps, or Close returns. */
  function Closing(s: State, sem: Sems.Sem): State
    requires !s.closer.Nobody?
  {
    s.(sem := sem, closer := if s.closer.t in sem.asleep then Waiting(s.closer.t) else Nobody)
  }

  function Work(s: State): State {
    match s.worker
    case None => s
    case Loop => s.(worker := if s.isRun then AtBuffer else Final(0))
    case AtBuffer => s.(worker := if s.buffer != [] then Moving else AtPool)
    case Moving => s.(pool := s.pool + s.buffer, buffer := [], worker := AtPool)
    case AtPool => s.(worker := if s.pool == [] then Loop else Running(0))
    case Running(k) =>
      if k < |s.pool| then s.(executed := s.executed + [s.pool[k]], worker := Running(k + 1))
      else s.(worker := Clearing)
    case Clearing => s.(pool := [], worker := Loop)
    case Final(k) =>
      if k < |s.buffer| then s.(executed := s.executed + [s.buffer[k]], worker := Final(k + 1), ranFinal := k + 1)
      else s.(worker := Signal)
    case Signal =>
      s.(worker := None, sem := Sems.Wake(s.sem, if s.closer.Nobody? then 0 else s.closer.t))
  }

  function Next(s: State, e: Step): State
    requires Enabled(s, e)
  {
    match e
    case AddTask(task) => s.(buffer := s.buffer + [task], added := s.added + [task], due := s.due + [task])
    case Start =>
      if s.isRun then s
      else
        var again := s.buffer[..Min(s.ranFinal, |s.buffer|)];
        s.(isRun := true, worker := Loop, starts := s.starts + 1, ranFinal := 0,
           due := s.executed + s.buffer, repeated := s.repeated + again)
    case Close(t) =>
      if !s.isRun then s
      else s.(isRun := false, closer := Stopped(t), closes := s.closes + 1, dueAtClose := |s.due|)
    case Wait => Closing(s, Sems.BeginWait(s.sem, s.closer.t))
    case Wake => s.(sem := Sems.Next(s.sem, Sems.Spurious(s.closer.t)))
    case Recheck => Closing(s, Sems.LookAgain(s.sem, s.closer.t))
    case Work => Work(s)
  }

  // ---------------------------------------------------------------- the invariant

  /** Tasks of the pool that still have to run. */
  function PoolLeft(s: State): seq<Task> {
    match s.worker
    case Running(k) => if k <= |s.pool| then s.pool[k..] else []
    case Clearing => []
    case _ => s.pool
  }

  /** Tasks of the buffer that still have to run. */
  function BufferLeft(s: State): seq<Task> {
    if s.ranFinal <= |s.buffer| then s.buffer[s.ranFinal..] else []
  }

  /** What ran, what the pool still has to run and what the buffer still has to run are what is
      due, in order. */
  ghost predicate QueuesOk(s: State) {
    && s.executed + PoolLeft(s) + BufferLeft(s) == s.due
    && s.ranFinal <= |s.buffer|
    && (s.worker.Running? ==> s.worker.k <= |s.pool|)
    && (s.worker.Final? ==> s.worker.k == s.ranFinal)
    && (!s.worker.Final? && !s.worker.Signal? && !s.worker.None? ==> s.ranFinal == 0)
    && ((s.worker.None? || s.worker.Loop? || s.worker.AtBuffer? || s.worker.Moving? || s.worker.Final? ||
      s.worker.Signal?) ==> s.pool == [])
  }

  /** What is due is what was added and what restarts queued again. */
  ghost predicate CountsOk(s: State) {
    && multiset(s.due) == multiset(s.added) + multiset(s.repeated)
    && (s.repeated == [] ==> s.due == s.added)
  }

  /** Everything due when the close began has run once the worker leaves the final loop. */
  ghost predicate ClosedOk(s: State) {
    && s.dueAtClose <= |s.due|
    && ((s.worker.Signal? || (s.worker.None? && s.starts > 0)) ==> s.dueAtClose <= |s.executed|)
  }

  /** One worker a start, one wake-up a worker, one wait a close. */
  ghost predicate SessionsOk(s: State) {
    && Sems.Inv(s.sem)
    && s.sem.weakups == s.starts - (if s.worker.None? then 0 else 1)
    && s.closes == s.starts - (if s.isRun then 1 else 0)
    && s.sem.started == s.closes - (if s.closer.Stopped? then 1 else 0)
    && (s.isRun ==> !s.worker.None? && !s.worker.Final? && !s.worker.Signal? && s.closer.Nobody?)
    && Sems.Blocked(s.sem) == (if s.closer.Waiting? then {s.closer.t} else {})
    && (s.closer.Nobody? && !s.isRun ==> s.worker.None?)
    && (!s.closer.Nobody? ==> s.starts > 0)
  }

  /** Before the first start nothing has run and nothing was left behind. */
  ghost predicate UnstartedOk(s: State) {
    s.starts == 0 ==> s.executed == [] && s.ranFinal == 0 && s.repeated == [] && s.worker.None? && !s.isRun
  }

  ghost predicate Inv(s: State) {
    QueuesOk(s) && CountsOk(s) && ClosedOk(s) && SessionsOk(s) && UnstartedOk(s)
  }

  lemma InitialInv(s: State)
    requires Initial(s)
    ensures Inv(s)
  {
    hide Sems.Inv, Sems.Starts;
    Sems.StartsOk(s.sem);
    SemStarts(s.sem);
  }

  lemma SemStarts(sem: Sems.Sem)
    requires Sems.Starts(sem)
    ensures sem.weakups == 0 && sem.started == 0 && Sems.Blocked(sem) == {}
  {
  }

  // ---------------------------------------------------------------- queues

  lemma AddKeepsQueues(s: State, task: Task)
    requires QueuesOk(s) && ClosedOk(s)
    ensures QueuesOk(Next(s, AddTask(task))) && ClosedOk(Next(s, AddTask(task)))
  {
    var z := Next(s, AddTask(task));
    assert BufferLeft(z) == BufferLeft(s) + [task];
    assert PoolLeft(z) == PoolLeft(s);
    assert z.executed + PoolLeft(z) + BufferLeft(z) == z.due;
  }

  lemma AddKeepsCounts(s: State, task: Task)
    requires CountsOk(s)
    ensures CountsOk(Next(s, AddTask(task)))
  {
  }

  /** A restart queues again what the last final loop ran. */
  lemma StartKeepsCounts(s: State)
    requires QueuesOk(s) && CountsOk(s) && s.worker.None? && !s.isRun && Enabled(s, Start)
    ensures CountsOk(Next(s, Start))
  {
    var r := s.ranFinal;
    var ran, left := s.buffer[..r], s.buffer[r..];
    assert PoolLeft(s) == [] && BufferLeft(s) == left;
    hide PoolLeft, BufferLeft;
    assert s.buffer == ran + left;
    assert s.due == s.executed + left;
    assert s.executed + s.buffer == s.executed + (ran + left);
    assert multiset(s.executed + s.buffer) == multiset(s.due) + multiset(ran);
    if s.repeated + ran == [] {
      assert |s.repeated| + |ran| == 0;
      assert s.buffer == left;
    }
  }

  lemma StartKeepsQueues(s: State)
    requires QueuesOk(s) && ClosedOk(s) && s.worker.None? && !s.isRun && Enabled(s, Start)
    ensures QueuesOk(Next(s, Start)) && ClosedOk(Next(s, Start))
  {
    var z := Next(s, Start);
    assert s.executed + [] + s.buffer == s.executed + s.buffer;
    assert z.buffer[0..] == s.buffer;
  }

  lemma RunPoolKeepsQueues(s: State)
    requires QueuesOk(s) && ClosedOk(s) && s.worker.Running?
    ensures QueuesOk(Work(s)) && ClosedOk(Work(s))
  {
    var k, z := s.worker.k, Work(s);
    if k < |s.pool| {
      assert s.pool[k..] == [s.pool[k]] + s.pool[k + 1..];
      assert s.executed + s.pool[k..] == z.executed + z.pool[k + 1..];
    } else {
      assert s.pool[k..] == [];
    }
  }

  lemma RunRestKeepsQueues(s: State)
    requires QueuesOk(s) && ClosedOk(s) && s.worker.Final?
    ensures QueuesOk(Work(s)) && ClosedOk(Work(s))
  {
    var k, z := s.worker.k, Work(s);
    if k < |s.buffer| {
      assert s.buffer[k..] == [s.buffer[k]] + s.buffer[k + 1..];
      assert s.executed + [] + s.buffer[k..] == z.executed + [] + z.buffer[k + 1..];
    } else {
      assert s.buffer[k..] == [];
      assert s.executed + [] + [] == s.executed;
    }
  }

  lemma MoveKeepsQueues(s: State)
    requires QueuesOk(s) && ClosedOk(s) && s.worker.Moving?
    ensures QueuesOk(Work(s)) && ClosedOk(Work(s))
  {
    var z := Work(s);
    assert s.buffer[0..] == s.buffer && z.buffer[0..] == [];
    assert s.executed + s.pool + s.buffer == z.executed + z.pool + [];
  }

  lemma LoopKeepsQueues(s: State)
    requires QueuesOk(s) && ClosedOk(s) && (s.worker.Loop? || s.worker.AtBuffer? || s.worker.AtPool?)
    ensures QueuesOk(Work(s)) && ClosedOk(Work(s))
  {
    assert s.pool[0..] == s.pool;
  }

  lemma EndKeepsQueues(s: State)
    requires QueuesOk(s) && ClosedOk(s) && (s.worker.Clearing? || s.worker.Signal?)
    ensures QueuesOk(Work(s)) && ClosedOk(Work(s))
  {
    hide Sems.Wake;
  }

  lemma WorkKeepsQueues(s: State)
    requires QueuesOk(s) && ClosedOk(s) && Enabled(s, Step.Work)
    ensures QueuesOk(Work(s)) && ClosedOk(Work(s))
  {
    hide QueuesOk, ClosedOk, Work;
    match s.worker
    case Running(_) => RunPoolKeepsQueues(s);
    case Final(_) => RunRestKeepsQueues(s);
    case Moving => MoveKeepsQueues(s);
    case Clearing => EndKeepsQueues(s);
    case Signal => EndKeepsQueues(s);
    case _ => LoopKeepsQueues(s);
  }

  lemma OthersKeepCounts(s: State, e: Step)
    requires CountsOk(s) && Enabled(s, e) && !e.AddTask? && (e.Start? ==> s.isRun)
    ensures CountsOk(Next(s, e))
  {
    hide Sems.BeginWait, Sems.LookAgain, Sems.Wake, Sems.Next;
  }

  // ---------------------------------------------------------------- sessions

  lemma CompletedCount(sem: Sems.Sem)
    requires Sems.Inv(sem)
    ensures sem.completed + sem.weakupRef == Min(sem.started, sem.weakups)
    ensures Sems.Blocked(sem) == {} ==> sem.completed == sem.started
  {
    if Sems.Blocked(sem) == {} {
      assert sem.asleep == {} && sem.awake == {};
    }
  }

  lemma WaitKeepsSessions(s: State)
    requires SessionsOk(s) && Enabled(s, Wait)
    ensures SessionsOk(Next(s, Wait))
  {
    hide Sems.Inv;
    Sems.WaitKeepsInv(s.sem, s.closer.t);
    CompletedCount(Sems.BeginWait(s.sem, s.closer.t));
  }

  lemma RecheckKeepsSessions(s: State)
    requires SessionsOk(s) && Enabled(s, Recheck)
    ensures SessionsOk(Next(s, Recheck))
  {
    hide Sems.Inv;
    Sems.LookAgainKeepsInv(s.sem, s.closer.t);
    CompletedCount(Sems.LookAgain(s.sem, s.closer.t));
    assert s.closer.t !in s.sem.asleep by { Apart(s.sem); }
  }

  lemma Apart(sem: Sems.Sem)
    requires Sems.Inv(sem)
    ensures sem.asleep !! sem.awake
  {
  }

  lemma WakeKeepsSessions(s: State)
    requires SessionsOk(s) && Enabled(s, Wake)
    ensures SessionsOk(Next(s, Wake))
  {
    hide Sems.Inv;
    Sems.StepKeepsInv(s.sem, Sems.Spurious(s.closer.t));
  }

  lemma SignalKeepsSessions(s: State)
    requires SessionsOk(s) && s.worker.Signal?
    ensures SessionsOk(Work(s))
  {
    hide Sems.Inv;
    var who := if s.closer.Nobody? then 0 else s.closer.t;
    assert s.sem.asleep <= Sems.Blocked(s.sem);
    Sems.WakeKeepsInv(s.sem, who);
  }

  lemma OthersKeepSessions(s: State, e: Step)
    requires SessionsOk(s) && Enabled(s, e)
    requires e.AddTask? || e.Start? || e.Close? || (e.Work? && !s.worker.Signal?)
    ensures SessionsOk(Next(s, e))
  {
    hide Sems.Inv, Sems.Wake, Sems.Blocked;
  }

  lemma CloserKeepsQueues(s: State, e: Step)
    requires QueuesOk(s) && ClosedOk(s) && Enabled(s, e) && SessionsOk(s)
    requires e.Close? || e.Wait? || e.Wake? || e.Recheck?
    ensures QueuesOk(Next(s, e)) && ClosedOk(Next(s, e))
  {
    hide Sems.Inv, Sems.BeginWait, Sems.LookAgain, Sems.Next, Sems.Blocked;
  }

  lemma StepKeepsUnstarted(s: State, e: Step)
    requires UnstartedOk(s) && SessionsOk(s) && Enabled(s, e)
    ensures UnstartedOk(Next(s, e))
  {
    hide Sems.Inv, Sems.Blocked, Sems.BeginWait, Sems.LookAgain, Sems.Next, Work;
    if e.Work? {
      assert s.starts > 0;
      WorkKeepsStarts(s);
    }
  }

  lemma WorkKeepsStarts(s: State)
    ensures Work(s).starts == s.starts && Work(s).added == s.added && Work(s).due == s.due
    ensures Work(s).repeated == s.repeated && Work(s).isRun == s.isRun && Work(s).closer == s.closer
    ensures Work(s).dueAtClose == s.dueAtClose
  {
    hide Sems.Wake;
  }

  lemma StepKeepsInv(s: State, e: Step)
    requires Inv(s) && Enabled(s, e)
    ensures Inv(Next(s, e))
  {
    hide QueuesOk, CountsOk, ClosedOk, SessionsOk, UnstartedOk, Work, Closing;
    StepKeepsUnstarted(s, e);
    match e
    case AddTask(task) => AddKeepsQueues(s, task); AddKeepsCounts(s, task); OthersKeepSessions(s, e);
    case Start =>
      OthersKeepSessions(s, e);
      if !s.isRun { StoppedWorker(s); StartKeepsQueues(s); StartKeepsCounts(s); }
    case Close(_) => CloserKeepsQueues(s, e); OthersKeepCounts(s, e); OthersKeepSessions(s, e);
    case Wait => CloserKeepsQueues(s, e); OthersKeepCounts(s, e); WaitKeepsSessions(s);
    case Wake => CloserKeepsQueues(s, e); OthersKeepCounts(s, e); WakeKeepsSessions(s);
    case Recheck => CloserKeepsQueues(s, e); OthersKeepCounts(s, e); RecheckKeepsSessions(s);
    case Work =>
      WorkKeepsQueues(s);
      OthersKeepCounts(s, e);
      if s.worker.Signal? { SignalKeepsSessions(s); } else { OthersKeepSessions(s, e); }
  }

  lemma StoppedWorker(s: State)
    requires SessionsOk(s) && s.closer.Nobody? && !s.isRun
    ensures s.worker.None?
  {
    hide Sems.Inv;
  }

  // ---------------------------------------------------------------- whole runs

  ghost predicate Run(states: seq<State>, steps: seq<Step>) {
    && |states| == |steps| + 1 && Initial(states[0])
    && forall i | 0 <= i < |steps| :: Enabled(states[i], steps[i]) && states[i + 1] == Next(states[i], steps[i])
  }

  lemma RunLength(states: seq<State>, steps: seq<Step>)
    requires Run(states, steps)
    ensures |states| == |steps| + 1
  {
  }

  lemma {:induction false} RunKeepsInv(states: seq<State>, steps: seq<Step>, n: nat)
    requires Run(states, steps) && n < |states|
    ensures Inv(states[n])
    decreases n
  {
    hide Inv, Next, Enabled, Initial;
    if n == 0 {
      InitialInv(states[0]);
    } else {
      RunKeepsInv(states, steps, n - 1);
      StepKeepsInv(states[n - 1], steps[n - 1]);
    }
  }

  // ---------------------------------------------------------------- closes and restarts

  /** A start that finds the service stopped. */
  predicate StartsWorker(s: State, e: Step) {
    e.Start? && !s.isRun
  }

  /** Tasks waiting and tasks run are together as many as were added: no task that ran is still
      in the buffer. */
  predicate Drained(s: State) {
    |s.buffer| + |s.executed| == |s.added|
  }

  /** Every start among the first `n` steps that found the service stopped found it drained. */
  ghost predicate StartsDrained(states: seq<State>, steps: seq<Step>, n: nat)
    requires n <= |steps| < |states|
  {
    forall i | 0 <= i < n && StartsWorker(states[i], steps[i]) :: Drained(states[i])
  }

  /** A close that found the service running began at step `c`, and its wait ended at step `n`. */
  ghost predicate CloseReturned(states: seq<State>, steps: seq<Step>, c: nat, n: nat) {
    && Run(states, steps) && c < n < |steps|
    && steps[c].Close? && states[c].isRun
    && (forall i | c < i <= n :: !states[i].closer.Nobody?)
    && states[n + 1].closer.Nobody?
  }

  ghost predicate NothingAdded(steps: seq<Step>, from: nat, to: nat)
    requires to <= |steps|
  {
    forall i | from <= i < to :: !steps[i].AddTask?
  }

  ghost predicate NoStart(steps: seq<Step>, from: nat, to: nat)
    requires to <= |steps|
  {
    forall i | from <= i < to :: !steps[i].Start?
  }

  lemma StepAt(states: seq<State>, steps: seq<Step>, n: nat)
    requires Run(states, steps) && n < |steps|
    ensures Enabled(states[n], steps[n]) && states[n + 1] == Next(states[n], steps[n])
  {
    hide Initial, Next, Enabled;
  }

  /** What a step that is no start leaves alone on a stopped service. */
  lemma StoppedStep(s: State, e: Step)
    requires Enabled(s, e) && !s.isRun && !e.Start?
    ensures var z := Next(s, e);
      && !z.isRun && z.starts == s.starts && z.dueAtClose == s.dueAtClose && z.repeated == s.repeated
      && s.due <= z.due && s.added <= z.added
      && (!e.AddTask? ==> z.due == s.due && z.added == s.added)
  {
    hide Sems.BeginWait, Sems.LookAgain, Sems.Next, Work;
    if e.Work? { WorkKeepsStarts(s); }
  }

  /** From the close on, until the next start: what was due then is still the front of what is
      due. */
  lemma {:induction false} SinceClose(states: seq<State>, steps: seq<Step>, c: nat, k: nat)
    requires Run(states, steps) && c < k <= |steps| && steps[c].Close? && states[c].isRun
    requires NoStart(steps, c + 1, k)
    ensures var s, z := states[c], states[k];
      && !z.isRun && z.starts == s.starts && z.dueAtClose == |s.due| && z.repeated == s.repeated
      && s.due <= z.due && s.added <= z.added
      && (NothingAdded(steps, c + 1, k) ==> z.due == s.due && z.added == s.added)
    decreases k
  {
    hide Run, Next, Enabled;
    RunLength(states, steps);
    if k == c + 1 {
      StepAt(states, steps, c);
      CloseStep(states[c], steps[c]);
    } else {
      SinceClose(states, steps, c, k - 1);
      StepAt(states, steps, k - 1);
      StoppedStep(states[k - 1], steps[k - 1]);
    }
  }

  lemma CloseStep(s: State, e: Step)
    requires e.Close? && s.isRun && Enabled(s, e)
    ensures var z := Next(s, e);
      && !z.isRun && z.starts == s.starts && z.dueAtClose == |s.due| && z.repeated == s.repeated
      && z.due == s.due && z.added == s.added
  {
  }

  /** No start is possible while a close waits. */
  lemma NoStartWhileClosing(states: seq<State>, steps: seq<Step>, c: nat, n: nat)
    requires CloseReturned(states, steps, c, n)
    ensures NoStart(steps, c + 1, n + 1)
  {
    hide Initial, Next;
    forall i | c + 1 <= i < n + 1 ensures !steps[i].Start? {
      assert Enabled(states[i], steps[i]);
    }
  }

  /** A service that was started, is stopped and has nobody closing it. */
  lemma StoppedMeans(z: State)
    requires Inv(z) && z.closer.Nobody? && !z.isRun && z.starts > 0
    ensures z.worker.None?
    ensures z.dueAtClose <= |z.executed| && z.executed <= z.due
    ensures |z.executed| + |z.buffer| - z.ranFinal == |z.due| && z.ranFinal <= |z.buffer|
  {
    hide Sems.Inv, Sems.Blocked, CountsOk;
    assert z.executed + [] + BufferLeft(z) == z.due;
  }

  lemma StartedWhenRunning(s: State)
    requires Inv(s) && s.isRun
    ensures s.starts > 0
  {
    hide QueuesOk, CountsOk, ClosedOk, SessionsOk;
  }

  lemma CountsMean(s: State)
    requires Inv(s)
    ensures |s.due| == |s.added| + |s.repeated| && (s.repeated == [] ==> s.due == s.added)
  {
    hide QueuesOk, ClosedOk, SessionsOk, UnstartedOk;
    assert |multiset(s.due)| == |s.due| && |multiset(s.added) + multiset(s.repeated)| == |s.added| + |s.repeated|;
  }

  /** A start of a service that repeated nothing so far repeats nothing exactly when it finds it
      drained. */
  lemma StartRepeatsIff(s: State)
    requires Inv(s) && Enabled(s, Start) && !s.isRun && s.repeated == []
    ensures Next(s, Start).repeated == [] <==> Drained(s)
  {
    hide CountsOk, ClosedOk;
    CountsMean(s);
    StoppedWorker(s);
    assert s.executed + [] + BufferLeft(s) == s.due;
    assert |s.repeated + s.buffer[..s.ranFinal]| == s.ranFinal;
  }

  lemma OthersRepeatNothing(s: State, e: Step)
    requires Enabled(s, e) && !StartsWorker(s, e)
    ensures Next(s, e).repeated == s.repeated
  {
    hide Sems.BeginWait, Sems.LookAgain, Sems.Next, Work;
    if e.Work? { WorkKeepsStarts(s); }
  }

  lemma RepeatedGrows(s: State, e: Step)
    requires Enabled(s, e) && s.repeated != []
    ensures Next(s, e).repeated != []
  {
    hide Sems.BeginWait, Sems.LookAgain, Sems.Next, Work;
    if e.Work? { WorkKeepsStarts(s); }
  }

  /** In every run, no task is queued a second time exactly when every start that found the
      service stopped found it drained. */
  lemma {:induction false} NothingRepeatedIff(states: seq<State>, steps: seq<Step>, n: nat)
    requires Run(states, steps) && n < |states|
    ensures states[n].repeated == [] <==> StartsDrained(states, steps, n)
    decreases n
  {
    hide Inv, Next, Enabled, Run, Initial, Drained, StartsWorker;
    RunLength(states, steps);
    if n == 0 {
      AtFirst(states, steps);
    } else {
      NothingRepeatedIff(states, steps, n - 1);
      StepAt(states, steps, n - 1);
      var s, e := states[n - 1], steps[n - 1];
      RunKeepsInv(states, steps, n - 1);
      if !StartsWorker(s, e) {
        OthersRepeatNothing(s, e);
      } else if s.repeated == [] {
        OneStartRepeatsIff(s, e);
      } else {
        RepeatedGrows(s, e);
      }
    }
  }

  lemma AtFirst(states: seq<State>, steps: seq<Step>)
    requires Run(states, steps)
    ensures states[0].repeated == [] && states[0].starts == 0
  {
  }

  lemma OneStartRepeatsIff(s: State, e: Step)
    requires Inv(s) && Enabled(s, e) && StartsWorker(s, e) && s.repeated == []
    ensures Next(s, e).repeated == [] <==> Drained(s)
  {
    hide Inv, Next, Drained;
    StartRepeatsIff(s);
  }

  /** In every run, when a Close that found the service running returns, the worker is gone and
      everything due when the Close began has run, in the order it became due; what has not run
      was added since. If no start before found a task in the buffer that had run already, every
      task added before the Close began has run exactly once, in the order AddTask took the lock;
      and with nothing added since, what ran is exactly what was added if and only if that holds. */
  lemma CloseRanEverything(states: seq<State>, steps: seq<Step>, c: nat, n: nat)
    requires CloseReturned(states, steps, c, n)
    ensures var z := states[n + 1];
      && z.worker.None?
      && states[c].due <= z.executed <= z.due
      && (StartsDrained(states, steps, c) ==> states[c].added <= z.executed <= z.added)
      && (NothingAdded(steps, c + 1, n + 1) ==> (z.executed == z.added <==> StartsDrained(states, steps, c)))
  {
    hide Inv, Next, Enabled, Run, Initial, StartsDrained;
    RunLength(states, steps);
    NoStartWhileClosing(states, steps, c, n);
    SinceClose(states, steps, c, n + 1);
    RunKeepsInv(states, steps, c);
    RunKeepsInv(states, steps, n + 1);
    StartedWhenRunning(states[c]);
    StoppedMeans(states[n + 1]);
    CountsMean(states[c]);
    CountsMean(states[n + 1]);
    NothingRepeatedIff(states, steps, c);
  }

  /** The plain life of a service: started once, tasks added before and while it runs, closed
      once with nothing added since. When the Close returns, every task has run exactly once, in
      the order AddTask took the lock. */
  lemma OneLifeRunsEachOnce(states: seq<State>, steps: seq<Step>, b: nat, c: nat, n: nat)
    requires CloseReturned(states, steps, c, n) && NothingAdded(steps, c + 1, n + 1)
    requires b < c && NoStart(steps, 0, b) && NoStart(steps, b + 1, c)
    ensures states[n + 1].executed == states[n + 1].added
  {
    hide Inv, Next, Enabled, Run, Initial;
    RunLength(states, steps);
    Unstarted(states, steps, b);
    RunKeepsInv(states, steps, b);
    UnstartedDrained(states[b]);
    CloseRanEverything(states, steps, c, n);
  }

  /** The tasks of the first `n` steps' additions, in order. */
  function Submitted(steps: seq<Step>, n: nat): seq<Task>
    requires n <= |steps|
  {
    if n == 0 then []
    else Submitted(steps, n - 1) + if steps[n - 1].AddTask? then [steps[n - 1].task] else []
  }

  lemma AddsItsTask(s: State, e: Step)
    requires Enabled(s, e)
    ensures Next(s, e).added == s.added + if e.AddTask? then [e.task] else []
  {
    hide Sems.BeginWait, Sems.LookAgain, Sems.Next, Sems.Wake;
    assert s.added + [] == s.added;
  }

  lemma {:induction false} AddedIsSubmitted(states: seq<State>, steps: seq<Step>, n: nat)
    requires Run(states, steps) && n <= |steps|
    ensures n < |states| && states[n].added == Submitted(steps, n)
    decreases n
  {
    hide Next, Enabled, Run, Initial;
    RunLength(states, steps);
    if n == 0 {
      AtFirst(states, steps);
      AtFirstNothing(states, steps);
    } else {
      AddedIsSubmitted(states, steps, n - 1);
      StepAt(states, steps, n - 1);
      AddsItsTask(states[n - 1], steps[n - 1]);
    }
  }

  lemma AtFirstNothing(states: seq<State>, steps: seq<Step>)
    requires Run(states, steps)
    ensures |states| > 0 && states[0].added == []
  {
    hide Next, Enabled;
  }

  /** The plain life again, over its steps: what ran by the time the Close returns is exactly what
      the AddTask steps brought, each once, in their order. */
  lemma RanWhatWasSubmitted(states: seq<State>, steps: seq<Step>, b: nat, c: nat, n: nat)
    requires CloseReturned(states, steps, c, n) && NothingAdded(steps, c + 1, n + 1)
    requires b < c && NoStart(steps, 0, b) && NoStart(steps, b + 1, c)
    ensures states[n + 1].executed == Submitted(steps, n + 1)
  {
    hide Next, Enabled, Run, Initial;
    OneLifeRunsEachOnce(states, steps, b, c, n);
    AddedIsSubmitted(states, steps, n + 1);
  }

  lemma {:induction false} Unstarted(states: seq<State>, steps: seq<Step>, n: nat)
    requires Run(states, steps) && n <= |steps| && NoStart(steps, 0, n)
    ensures states[n].starts == 0
    decreases n
  {
    hide Next, Enabled, Run, Initial;
    RunLength(states, steps);
    if n == 0 {
      AtFirst(states, steps);
    } else {
      Unstarted(states, steps, n - 1);
      StepAt(states, steps, n - 1);
      OnlyStartStarts(states[n - 1], steps[n - 1]);
    }
  }

  lemma OnlyStartStarts(s: State, e: Step)
    requires Enabled(s, e) && !e.Start?
    ensures Next(s, e).starts == s.starts
  {
    hide Sems.BeginWait, Sems.LookAgain, Sems.Next, Work;
    if e.Work? { WorkKeepsStarts(s); }
  }

  /** Before the first start the buffer holds everything added and nothing has run. */
  lemma UnstartedDrained(s: State)
    requires Inv(s) && s.starts == 0
    ensures s.executed == [] && s.buffer == s.added && Drained(s)
  {
    hide ClosedOk, SessionsOk;
    assert s.executed + [] + BufferLeft(s) == s.due;
  }

  /** In every state of every run, what ran is what was due first, in order. */
  lemma RanInOrder(states: seq<State>, steps: seq<Step>, n: nat)
    requires Run(states, steps) && n < |states|
    ensures states[n].executed <= states[n].due
    ensures StartsDrained(states, steps, n) ==> states[n].executed <= states[n].added
  {
    hide Run, SessionsOk, ClosedOk, StartsDrained;
    RunLength(states, steps);
    RunKeepsInv(states, steps, n);
    NothingRepeatedIff(states, steps, n);
  }

  // ---------------------------------------------------------------- where the guarantee ends

  /** With nothing added and no start since the last Close began, a start queues tasks a second
      time exactly when the buffer is not empty: the final loop ran those and left them there. */
  lemma RestartRepeatsIff(states: seq<State>, steps: seq<Step>, c: nat, n: nat)
    requires Run(states, steps) && c < n <= |steps| && steps[c].Close? && states[c].isRun
    requires NoStart(steps, c + 1, n) && NothingAdded(steps, c + 1, n)
    requires states[n].closer.Nobody?
    ensures Next(states[n], Start).repeated == states[n].repeated <==> states[n].buffer == []
    ensures Next(states[n], Start).repeated == states[n].repeated + states[n].buffer
    ensures Next(states[n], Start).due == states[n].executed + states[n].buffer
  {
    hide Inv, Run, Initial;
    RunLength(states, steps);
    SinceClose(states, steps, c, n);
    RunKeepsInv(states, steps, c);
    RunKeepsInv(states, steps, n);
    StartedWhenRunning(states[c]);
    var s := states[n];
    StoppedMeans(s);
    assert s.buffer[..s.ranFinal] == s.buffer;
  }

  /** A close that finds the service stopped returns at once and changes nothing. Before the first
      start it therefore leaves every task added unrun, so all have run only when there are none. */
  lemma CloseOfStopped(s: State, t: Tid)
    requires Inv(s) && Enabled(s, Close(t)) && !s.isRun
    ensures Next(s, Close(t)) == s
    ensures s.starts == 0 ==> s.executed == [] && s.buffer == s.added
  {
    hide Inv;
    if s.starts == 0 { UnstartedDrained(s); }
  }

  function After(s: State, steps: seq<Step>): State
    requires AllEnabled(s, steps)
    decreases |steps|
  {
    if steps == [] then s else After(Next(s, steps[0]), steps[1..])
  }

  ghost predicate AllEnabled(s: State, steps: seq<Step>)
    decreases |steps|
  {
    steps == [] || (Enabled(s, steps[0]) && AllEnabled(Next(s, steps[0]), steps[1..]))
  }

  lemma OneStep(s: State, e: Step, rest: seq<Step>)
    requires Enabled(s, e) && AllEnabled(Next(s, e), rest)
    ensures AllEnabled(s, [e] + rest) && After(s, [e] + rest) == After(Next(s, e), rest)
  {
    assert ([e] + rest)[0] == e && ([e] + rest)[1..] == rest;
    hide Next, Enabled;
  }

  lemma Then(s: State, first: seq<Step>, rest: seq<Step>)
    requires AllEnabled(s, first) && AllEnabled(After(s, first), rest)
    ensures AllEnabled(s, first + rest) && After(s, first + rest) == After(After(s, first), rest)
    decreases |first|
  {
    hide Next, Enabled;
    if first == [] {
      assert first + rest == rest;
    } else {
      assert (first + rest)[0] == first[0] && (first + rest)[1..] == first[1..] + rest;
      Then(Next(s, first[0]), first[1..], rest);
    }
  }

  /** A service that was started, given a task and closed before its worker looked again: the
      task ran in the final loop, the worker is about to signal and the closer about to wait. */
  function ClosedLate(s: State, task: Task, t: Tid): State {
    s.(isRun := false, worker := Signal, closer := Stopped(t), starts := 1, closes := 1, added := [task],
       due := [task], executed := [task], buffer := [task], ranFinal := 1, dueAtClose := 1)
  }

  lemma Opens(s: State, task: Task, t: Tid)
    requires Initial(s)
    ensures var steps := [Start, AddTask(task), Close(t), Step.Work, Step.Work, Step.Work];
      AllEnabled(s, steps) && After(s, steps) == ClosedLate(s, task, t)
  {
    hide Sems.Starts;
    var s1 := Next(s, Start);
    var s2 := Next(s1, AddTask(task));
    var s3 := Next(s2, Close(t));
    var s4 := Next(s3, Step.Work);
    var s5 := Next(s4, Step.Work);
    assert Next(s5, Step.Work) == ClosedLate(s, task, t);
    OneStep(s5, Step.Work, []);
    OneStep(s4, Step.Work, [Step.Work]);
    OneStep(s3, Step.Work, [Step.Work, Step.Work]);
    OneStep(s2, Close(t), [Step.Work, Step.Work, Step.Work]);
    OneStep(s1, AddTask(task), [Close(t), Step.Work, Step.Work, Step.Work]);
    OneStep(s, Start, [AddTask(task), Close(t), Step.Work, Step.Work, Step.Work]);
  }

  lemma ReopenedRuns(s: State, task: Task, t: Tid)
    requires Initial(s)
    ensures var a := ClosedLate(s, task, t);
      var s1 := Next(a, Step.Work);
      var s2 := Next(s1, Wait);
      var s3 := Next(s2, Start);
      var s4 := Next(s3, Step.Work);
      var s5 := Next(s4, Step.Work);
      var s6 := Next(s5, Step.Work);
      var s7 := Next(s6, Step.Work);
      && Enabled(a, Step.Work) && Enabled(s1, Wait) && Enabled(s2, Start) && Enabled(s3, Step.Work)
      && Enabled(s4, Step.Work) && Enabled(s5, Step.Work) && Enabled(s6, Step.Work) && Enabled(s7, Step.Work)
      && Next(s7, Step.Work).added == [task] && Next(s7, Step.Work).executed == [task, task]
  {
    var s1 := Next(ClosedLate(s, task, t), Step.Work);
    assert s1.sem.waitRef == 1 && s1.sem.asleep == {};
    var s2 := Next(s1, Wait);
    assert s2.closer == Nobody && !s2.isRun;
    var s7 := Next(Next(Next(Next(Next(s2, Start), Step.Work), Step.Work), Step.Work), Step.Work);
    assert s7.pool == [task] && s7.worker == Running(0);
  }

  lemma Reopens(s: State, task: Task, t: Tid)
    requires Initial(s)
    ensures var steps := [Step.Work, Wait, Start, Step.Work, Step.Work, Step.Work, Step.Work, Step.Work];
      var a := ClosedLate(s, task, t);
      AllEnabled(a, steps) && After(a, steps).added == [task] && After(a, steps).executed == [task, task]
  {
    hide Initial, Next, Enabled, ClosedLate;
    var a := ClosedLate(s, task, t);
    ReopenedRuns(s, task, t);
    var s1 := Next(a, Step.Work);
    var s2 := Next(s1, Wait);
    var s3 := Next(s2, Start);
    var s4 := Next(s3, Step.Work);
    var s5 := Next(s4, Step.Work);
    var s6 := Next(s5, Step.Work);
    var s7 := Next(s6, Step.Work);
    OneStep(s7, Step.Work, []);
    OneStep(s6, Step.Work, [Step.Work]);
    OneStep(s5, Step.Work, [Step.Work, Step.Work]);
    OneStep(s4, Step.Work, [Step.Work, Step.Work, Step.Work]);
    OneStep(s3, Step.Work, [Step.Work, Step.Work, Step.Work, Step.Work]);
    OneStep(s2, Start, [Step.Work, Step.Work, Step.Work, Step.Work, Step.Work]);
    OneStep(s1, Wait, [Start, Step.Work, Step.Work, Step.Work, Step.Work, Step.Work]);
    OneStep(a, Step.Work, [Wait, Start, Step.Work, Step.Work, Step.Work, Step.Work, Step.Work]);
  }

  /** One task, added while the service runs, run by the final loop of the close and again by
      the loop after the restart. */
  lemma RestartRunsTaskAgain(s: State, task: Task, t: Tid) returns (steps: seq<Step>)
    requires Initial(s)
    ensures AllEnabled(s, steps)
    ensures After(s, steps).added == [task] && After(s, steps).executed == [task, task]
  {
    hide Initial, AllEnabled, After;
    var first := [Start, AddTask(task), Close(t), Step.Work, Step.Work, Step.Work];
    var second := [Step.Work, Wait, Start, Step.Work, Step.Work, Step.Work, Step.Work, Step.Work];
    Opens(s, task, t);
    Reopens(s, task, t);
    Then(s, first, second);
    steps := first + second;
  }

  // ---------------------------------------------------------------- a close ends

  /** How far the worker of a stopped service is from being gone. */
  function Remaining(s: State): nat {
    match s.worker
    case None => 0
    case Signal => 1
    case Final(k) => 2 + if k <= |s.buffer| then |s.buffer| - k else 0
    case Loop => 3 + |s.buffer|
    case Clearing => 4 + |s.buffer|
    case Running(k) => 5 + |s.buffer| + if k <= |s.pool| then |s.pool| - k else 0
    case AtPool => 6 + |s.buffer| + |s.pool|
    case Moving => 7 + 2 * |s.buffer| + |s.pool|
    case AtBuffer => 8 + 2 * |s.buffer| + |s.pool|
  }

  lemma WorkGetsNearer(s: State)
    requires QueuesOk(s) && !s.isRun && !s.worker.None?
    ensures Remaining(Work(s)) < Remaining(s)
  {
    hide Sems.Wake;
  }

  lemma WaitingStays(s: State, e: Step)
    requires Enabled(s, e) && (e.Close? || e.Wait? || e.Wake? || e.Recheck?)
    ensures Next(s, e).worker == s.worker && Next(s, e).buffer == s.buffer && Next(s, e).pool == s.pool
  {
    hide Sems.BeginWait, Sems.LookAgain, Sems.Next;
  }

  /** While a close waits, the worker can always move and every move brings its end nearer;
      the closing thread's own steps leave it where it is. */
  lemma WorkerGetsNearer(s: State, e: Step)
    requires Inv(s) && !s.isRun && Enabled(s, e) && !e.AddTask? && !e.Start?
    ensures e.Work? ==> Remaining(Next(s, e)) < Remaining(s)
    ensures !e.Work? ==> Remaining(Next(s, e)) == Remaining(s)
    ensures !s.worker.None? ==> Enabled(s, Step.Work)
  {
    hide QueuesOk, CountsOk, ClosedOk, SessionsOk, Closing, Work;
    if e.Work? {
      hide Remaining;
      WorkGetsNearer(s);
    } else {
      WaitingStays(s, e);
      hide Next;
    }
  }

  /** Once the worker is gone, a close does not stay blocked: about to wait, it does not sleep;
      already waiting, it is awake, and the next time it runs it returns. */
  lemma GoneWorkerFreesCloser(s: State)
    requires Inv(s) && s.worker.None? && !s.closer.Nobody?
    ensures s.closer.Stopped? ==> Enabled(s, Wait) && Next(s, Wait).closer.Nobody?
    ensures s.closer.Waiting? ==> Enabled(s, Recheck) && Next(s, Recheck).closer.Nobody?
  {
    hide QueuesOk, CountsOk, ClosedOk;
    assert |s.sem.asleep| + |s.sem.awake| == s.sem.started - s.sem.completed;
    if s.closer.Waiting? {
      var t := s.closer.t;
      assert t in Sems.Blocked(s.sem);
      assert s.sem.asleep == {} by { AwakeOnly(s.sem); }
    }
  }

  lemma AwakeOnly(sem: Sems.Sem)
    requires Sems.Inv(sem) && sem.weakups >= sem.started
    ensures sem.asleep == {} && sem.weakupRef == |sem.awake|
  {
    assert |sem.asleep| == 0;
  }
}
