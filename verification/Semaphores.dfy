/** The counting semaphore that a closing thread waits on. Each step is one stretch of code
    under the semaphore's mutex: a wait that starts, a wake-up, a sleeper that wakes for a
    notification or for no reason, and a woken thread that looks at the condition again. */
module Semaphores {
  import opened Numbers

  type Tid = nat

  /** `asleep` wait inside the condition variable; `awake` have left it and still want the
      mutex. The three counters are history. */
  datatype Sem = Sem(waitRef: int, weakupRef: int, asleep: set<Tid>, awake: set<Tid>,
                     started: nat, completed: nat, weakups: nat)

  const NEW: Sem := Sem(0, 0, {}, {}, 0, 0, 0)

  datatype Step = Wait(t: Tid) | Weakup(notified: Tid) | Spurious(t: Tid) | Recheck(t: Tid)

  /** A notification wakes some sleeper, when there is one. */
  predicate Enabled(s: Sem, e: Step) {
    match e
    case Wait(t) => t !in s.asleep && t !in s.awake
    case Weakup(notified) => s.asleep != {} ==> notified in s.asleep
    case Spurious(t) => t in s.asleep
    case Recheck(t) => t in s.awake
  }

  /** The wait's condition is looked at before the thread first sleeps. */
  function BeginWait(s: Sem, t: Tid): Sem {
    var b := s.(waitRef := s.waitRef - 1, started := s.started + 1);
    if b.waitRef >= 0 then b.(completed := b.completed + 1)
    else if b.weakupRef > 0 then b.(weakupRef := b.weakupRef - 1, completed := b.completed + 1)
    else b.(asleep := b.asleep + {t})
  }

  function Wake(s: Sem, notified: Tid): Sem {
    var w := s.(waitRef := s.waitRef + 1, weakups := s.weakups + 1);
    if w.waitRef > 0 then w
    else if notified in w.asleep then
      w.(weakupRef := w.weakupRef + 1, asleep := w.asleep - {notified}, awake := w.awake + {notified})
    else w.(weakupRef := w.weakupRef + 1)
  }

  function LookAgain(s: Sem, t: Tid): Sem {
    if s.weakupRef > 0
    then s.(weakupRef := s.weakupRef - 1, awake := s.awake - {t}, completed := s.completed + 1)
    else s.(awake := s.awake - {t}, asleep := s.asleep + {t})
  }

  function Next(s: Sem, e: Step): Sem {
    match e
    case Wait(t) => BeginWait(s, t)
    case Weakup(notified) => Wake(s, notified)
    case Spurious(t) => s.(asleep := s.asleep - {t}, awake := s.awake + {t})
    case Recheck(t) => LookAgain(s, t)
  }

  /** The threads inside a wait. */
  function Blocked(s: Sem): set<Tid> {
    s.asleep + s.awake
  }

  function Deficit(s: Sem): nat {
    if s.waitRef < 0 then -s.waitRef else 0
  }

  /** Wake-ups not yet taken are owed to blocked threads, and enough of those are awake to take
      them all. */
  ghost predicate Inv(s: Sem) {
    && s.asleep !! s.awake
    && s.waitRef == s.weakups - s.started
    && |s.asleep| + |s.awake| == s.started - s.completed
    && |s.asleep| + |s.awake| - s.weakupRef == Deficit(s)
    && 0 <= s.weakupRef <= |s.awake|
  }

  lemma Added(a: set<Tid>, t: Tid)
    requires t !in a
    ensures |a + {t}| == |a| + 1
  {
  }

  lemma Moved(a: set<Tid>, b: set<Tid>, t: Tid)
    requires t in a && t !in b
    ensures |a - {t}| == |a| - 1 && |b + {t}| == |b| + 1
  {
  }

  lemma WaitKeepsInv(s: Sem, t: Tid)
    requires Inv(s) && Enabled(s, Wait(t))
    ensures Inv(BeginWait(s, t))
  {
    Added(s.asleep, t);
  }

  lemma WakeKeepsInv(s: Sem, notified: Tid)
    requires Inv(s) && Enabled(s, Weakup(notified))
    ensures Inv(Wake(s, notified))
  {
    if notified in s.asleep {
      Moved(s.asleep, s.awake, notified);
    }
  }

  lemma LookAgainKeepsInv(s: Sem, t: Tid)
    requires Inv(s) && Enabled(s, Recheck(t))
    ensures Inv(LookAgain(s, t))
  {
    Moved(s.awake, s.asleep, t);
  }

  lemma StepKeepsInv(s: Sem, e: Step)
    requires Inv(s) && Enabled(s, e)
    ensures Inv(Next(s, e))
  {
    hide BeginWait, Wake, LookAgain;
    match e
    case Wait(t) => WaitKeepsInv(s, t);
    case Weakup(notified) => WakeKeepsInv(s, notified);
    case Spurious(t) => Moved(s.asleep, s.awake, t);
    case Recheck(t) => LookAgainKeepsInv(s, t);
  }

  function After(s: Sem, steps: seq<Step>): Sem
    decreases |steps|
  {
    if steps == [] then s else After(Next(s, steps[0]), steps[1..])
  }

  ghost predicate AllEnabled(s: Sem, steps: seq<Step>)
    decreases |steps|
  {
    steps != [] ==> Enabled(s, steps[0]) && AllEnabled(Next(s, steps[0]), steps[1..])
  }

  lemma {:induction false} RunKeepsInv(s: Sem, steps: seq<Step>)
    requires Inv(s) && AllEnabled(s, steps)
    ensures Inv(After(s, steps))
    decreases |steps|
  {
    hide Inv, Next;
    if steps != [] {
      StepKeepsInv(s, steps[0]);
      RunKeepsInv(Next(s, steps[0]), steps[1..]);
    }
  }

  ghost predicate Starts(s: Sem) {
    s == NEW
  }

  lemma StartsOk(s: Sem)
    requires Starts(s)
    ensures Inv(s)
  {
  }

  /** The states that runs from a new semaphore reach. */
  ghost predicate Reachable(s: Sem) {
    exists first, steps :: Starts(first) && AllEnabled(first, steps) && After(first, steps) == s
  }

  lemma ReachableInv(s: Sem)
    requires Reachable(s)
    ensures Inv(s)
  {
    hide After, AllEnabled, Inv, Starts;
    var first, steps :| Starts(first) && AllEnabled(first, steps) && After(first, steps) == s;
    StartsOk(first);
    RunKeepsInv(first, steps);
  }

  /** In every run, the waits that returned and the wake-ups still to be taken add up to the
      smaller of the waits started and the wake-ups made: no wait returns without a wake-up
      of its own, and no wake-up is lost. */
  lemma WaitsMatchWakeups(s: Sem)
    requires Reachable(s)
    ensures s.completed + s.weakupRef == Min(s.started, s.weakups)
  {
    hide Reachable;
    ReachableInv(s);
  }

  /** How many waits were begun. */
  function Waits(steps: seq<Step>): nat
    decreases |steps|
  {
    if steps == [] then 0 else (if steps[0].Wait? then 1 else 0) + Waits(steps[1..])
  }

  function Weakups(steps: seq<Step>): nat
    decreases |steps|
  {
    if steps == [] then 0 else (if steps[0].Weakup? then 1 else 0) + Weakups(steps[1..])
  }

  lemma {:induction false} StepsCounted(s: Sem, steps: seq<Step>)
    ensures After(s, steps).started == s.started + Waits(steps)
    ensures After(s, steps).weakups == s.weakups + Weakups(steps)
    decreases |steps|
  {
    if steps != [] {
      StepsCounted(Next(s, steps[0]), steps[1..]);
    }
  }

  /** Over the steps of a run: the waits that returned and the wake-ups still to be taken are the
      smaller of the waits and the wake-ups in it, and the threads inside a wait are the waits
      that have not returned. */
  lemma RunMatches(s: Sem, steps: seq<Step>)
    requires Starts(s) && AllEnabled(s, steps)
    ensures var z := After(s, steps);
      && z.completed + z.weakupRef == (if Waits(steps) <= Weakups(steps) then Waits(steps) else Weakups(steps))
      && |z.asleep + z.awake| == Waits(steps) - z.completed
      && (Waits(steps) <= Weakups(steps) ==> z.asleep == {})
  {
    hide After, AllEnabled, Starts, Inv, Waits, Weakups;
    StepsCounted(s, steps);
    StartsOk(s);
    StartsUncounted(s);
    RunKeepsInv(s, steps);
    CountersMatch(After(s, steps));
  }

  lemma StartsUncounted(s: Sem)
    requires Starts(s)
    ensures s.started == 0 && s.weakups == 0
  {
  }

  lemma CountersMatch(z: Sem)
    requires Inv(z)
    ensures z.completed + z.weakupRef == Min(z.started, z.weakups)
    ensures |z.asleep + z.awake| == z.started - z.completed && (z.started <= z.weakups ==> z.asleep == {})
  {
    assert |z.asleep + z.awake| == |z.asleep| + |z.awake|;
    assert z.started <= z.weakups ==> |z.asleep| == 0;
  }

  /** In every run, once there have been as many wake-ups as waits, nobody is left asleep, and
      every thread still inside a wait returns the next time it runs. */
  lemma NobodyLeftBehind(s: Sem, t: Tid)
    requires Reachable(s) && s.weakups >= s.started
    ensures s.asleep == {}
    ensures t in s.awake ==> t !in Blocked(Next(s, Recheck(t))) && Next(s, Recheck(t)).completed == s.completed + 1
  {
    hide Reachable;
    ReachableInv(s);
    assert |s.asleep| == 0;
    if t in s.awake {
      assert |s.awake - {t}| == |s.awake| - 1;
      assert LookAgain(s, t).awake == s.awake - {t};
    }
  }

  /** With fewer wake-ups than waits, exactly the shortfall stays blocked when every wake-up
      has been taken. */
  lemma ShortfallStaysBlocked(s: Sem)
    requires Reachable(s) && s.weakupRef == 0
    ensures |Blocked(s)| == if s.started > s.weakups then s.started - s.weakups else 0
  {
    hide Reachable;
    ReachableInv(s);
    assert |Blocked(s)| == |s.asleep| + |s.awake|;
  }

  // ---------------------------------------------------------------- the fields and the code

  /** The semaphore's two counters as the code keeps them. The condition variable's own queue
      is in the value: a call says whether its caller must sleep or whom it wakes. */
  class Semaphore {
    var waitRef: int
    var weakupRef: int

    constructor ()
      ensures waitRef == NEW.waitRef && weakupRef == NEW.weakupRef
    {
      waitRef, weakupRef := 0, 0;
    }

    predicate Shows(s: Sem)
      reads this
    {
      waitRef == s.waitRef && weakupRef == s.weakupRef
    }

    /** The wait up to its first sleep. */
    method BeginWait(ghost s: Sem, t: Tid) returns (sleeps: bool)
      requires Shows(s) && Enabled(s, Wait(t))
      modifies this
      ensures waitRef == old(waitRef) - 1 && (sleeps <==> old(waitRef) <= 0 && old(weakupRef) <= 0)
      ensures weakupRef == if old(waitRef) <= 0 && old(weakupRef) > 0 then old(weakupRef) - 1 else old(weakupRef)
      ensures Shows(Next(s, Wait(t))) && (sleeps <==> t in Next(s, Wait(t)).asleep)
    {
      sleeps := false;
      waitRef := waitRef - 1;
      if waitRef < 0 {
        if weakupRef > 0 {
          weakupRef := weakupRef - 1;
        } else {
          sleeps := true;
        }
      }
    }

    /** A woken thread's turn with the mutex. */
    method LookAgain(ghost s: Sem, t: Tid) returns (sleeps: bool)
      requires Inv(s) && Shows(s) && Enabled(s, Recheck(t))
      modifies this
      ensures waitRef == old(waitRef) && (sleeps <==> old(weakupRef) <= 0)
      ensures weakupRef == if sleeps then old(weakupRef) else old(weakupRef) - 1
      ensures Shows(Next(s, Recheck(t))) && (sleeps <==> t in Blocked(Next(s, Recheck(t))))
    {
      sleeps := weakupRef <= 0;
      if !sleeps {
        weakupRef := weakupRef - 1;
      }
    }

    method Weakup(ghost s: Sem, ghost notified: Tid) returns (notify: bool)
      requires Shows(s) && Enabled(s, Step.Weakup(notified))
      modifies this
      ensures waitRef == old(waitRef) + 1 && (notify <==> old(waitRef) < 0)
      ensures weakupRef == if notify then old(weakupRef) + 1 else old(weakupRef)
      ensures Shows(Next(s, Step.Weakup(notified)))
      ensures !notify ==> Blocked(Next(s, Step.Weakup(notified))) == Blocked(s)
      ensures notify <==> Next(s, Step.Weakup(notified)).weakupRef == s.weakupRef + 1
    {
      waitRef := waitRef + 1;
      notify := waitRef <= 0;
      if notify {
        weakupRef := weakupRef + 1;
      }
    }
  }
}
