/**
 Sleep locks (kernel/sleeplock.c) over sleep and wakeup (kernel/proc.c), for any number of
 processes.  A step is one acquire or release of a spinlock, or one access to shared state
 under one; `lk` is the lock inside the sleep lock, `pt` is ptable.lock.
 */
module SleepLock {

  /** Where a process is.  Comments name the next action. */
  datatype Pc =
    | Out
    | Acquire          // acquiresleep: acquire(&lk->lk)
    | Test             // while (lk->locked)
    | SleepEnter       // sleep: acquire(&ptable.lock)
    | SleepRelease     // release(lk)
    | SleepSet         // state = SLEEPING; sched() gives up ptable.lock
    | Asleep           // SLEEPING on the lock
    | Runnable         // woken, not yet scheduled
    | Resumed          // back in sleep with ptable.lock: release it
    | Reacquire        // acquire(lk)
    | Locked           // acquiresleep set the lock: release(&lk->lk)
    | Critical         // between acquiresleep and releasesleep
    | Release          // releasesleep: acquire(&lk->lk)
    | Clear            // locked = 0
    | WakeEnter        // wakeup: acquire(&ptable.lock)
    | Wake             // wakeup1, release(&ptable.lock)
    | Leave            // release(&lk->lk)

  datatype Holder = Free | By(p: nat)

  datatype State = State(lk: Holder, pt: Holder, locked: bool, pid: nat, pcs: seq<Pc>)

  ghost predicate Init(s: State) {
    s.lk == Free && s.pt == Free && !s.locked && s.pid == 0 && forall p | 0 <= p < |s.pcs| :: s.pcs[p] == Out
  }

  /** wakeup1: every sleeper on the lock becomes runnable. */
  function WakeAll(pcs: seq<Pc>): (r: seq<Pc>)
    ensures |r| == |pcs|
    ensures forall p | 0 <= p < |pcs| :: r[p] == if pcs[p] == Asleep then Runnable else pcs[p]
  {
    seq(|pcs|, p requires 0 <= p < |pcs| => if pcs[p] == Asleep then Runnable else pcs[p])
  }

  function Goto(s: State, p: nat, pc: Pc): State
    requires p < |s.pcs|
  {
    s.(pcs := s.pcs[p := pc])
  }

  /** Process p can take its next action. */
  predicate Enabled(s: State, p: nat) {
    p < |s.pcs| &&
    match s.pcs[p]
    case Acquire => s.lk == Free
    case SleepEnter => s.pt == Free
    case Asleep => false
    case Runnable => s.pt == Free
    case Reacquire => s.lk == Free
    case Release => s.lk == Free
    case WakeEnter => s.pt == Free
    case _ => true
  }

  /** The next action of process p, whose process id is p + 1. */
  function Act(s: State, p: nat): State
    requires Enabled(s, p)
  {
    match s.pcs[p]
    case Out => Goto(s, p, Acquire)
    case Acquire => Goto(s.(lk := By(p)), p, Test)
    case Test => if s.locked then Goto(s, p, SleepEnter) else Goto(s.(locked := true, pid := p + 1), p, Locked)
    case SleepEnter => Goto(s.(pt := By(p)), p, SleepRelease)
    case SleepRelease => Goto(s.(lk := Free), p, SleepSet)
    case SleepSet => Goto(s.(pt := Free), p, Asleep)
    case Runnable => Goto(s.(pt := By(p)), p, Resumed)
    case Resumed => Goto(s.(pt := Free), p, Reacquire)
    case Reacquire => Goto(s.(lk := By(p)), p, Test)
    case Locked => Goto(s.(lk := Free), p, Critical)
    case Critical => Goto(s, p, Release)
    case Release => Goto(s.(lk := By(p)), p, Clear)
    case Clear => Goto(s.(locked := false, pid := 0), p, WakeEnter)
    case WakeEnter => Goto(s.(pt := By(p)), p, Wake)
    case Wake => s.(pt := Free, pcs := WakeAll(s.pcs)[p := Leave])
    case Leave => Goto(s.(lk := Free), p, Out)
  }

  /** A step of the system: process p acts, or kill() makes a sleeper runnable. */
  datatype Step = Run(p: nat) | Kill(p: nat)

  predicate CanStep(s: State, st: Step) {
    match st
    case Run(p) => Enabled(s, p)
    case Kill(p) => p < |s.pcs| && s.pt == Free
  }

  function Next(s: State, st: Step): State
    requires CanStep(s, st)
  {
    match st
    case Run(p) => Act(s, p)
    case Kill(p) => if s.pcs[p] == Asleep then Goto(s, p, Runnable) else s
  }

  ghost predicate CanRun(s: State, steps: seq<Step>)
    decreases |steps|
  {
    steps == [] || (CanStep(s, steps[0]) && CanRun(Next(s, steps[0]), steps[1..]))
  }

  ghost function Execute(s: State, steps: seq<Step>): State
    requires CanRun(s, steps)
    decreases |steps|
  {
    if steps == [] then s else Execute(Next(s, steps[0]), steps[1..])
  }

  // The invariant

  predicate HoldsLk(pc: Pc) {
    pc.Test? || pc.SleepEnter? || pc.SleepRelease? || pc.Locked? || pc.Clear? || pc.WakeEnter? || pc.Wake? || pc.Leave?
  }

  predicate HoldsPt(pc: Pc) {
    pc.SleepRelease? || pc.SleepSet? || pc.Resumed? || pc.Wake?
  }

  /** Owns the sleep lock. */
  predicate Owns(pc: Pc) {
    pc.Locked? || pc.Critical? || pc.Release? || pc.Clear?
  }

  /** Has found the lock taken and is asleep or on its way there. */
  predicate Waits(pc: Pc) {
    pc.SleepEnter? || pc.SleepRelease? || pc.SleepSet? || pc.Asleep?
  }

  ghost predicate WakePending(s: State) {
    s.lk.By? && s.lk.p < |s.pcs| && (s.pcs[s.lk.p] == WakeEnter || s.pcs[s.lk.p] == Wake)
  }

  ghost predicate ProcOk(s: State, p: nat)
    requires p < |s.pcs|
  {
    && (HoldsLk(s.pcs[p]) <==> s.lk == By(p))
    && (HoldsPt(s.pcs[p]) <==> s.pt == By(p))
    && (Owns(s.pcs[p]) <==> s.locked && s.pid == p + 1)
    && (Waits(s.pcs[p]) ==> s.locked || WakePending(s))
  }

  ghost predicate Inv(s: State) {
    && (forall p | 0 <= p < |s.pcs| :: ProcOk(s, p))
    && (s.lk.By? ==> s.lk.p < |s.pcs|)
    && (s.pt.By? ==> s.pt.p < |s.pcs|)
    && (if s.locked then 0 < s.pid <= |s.pcs| else s.pid == 0)
  }

  lemma ActKeepsSelf(s: State, p: nat)
    requires Enabled(s, p) && ProcOk(s, p)
    ensures p < |Act(s, p).pcs| && ProcOk(Act(s, p), p)
  {
  }

  lemma ActKeepsOther(s: State, p: nat, q: nat)
    requires Enabled(s, p) && ProcOk(s, p) && q < |s.pcs| && p != q && ProcOk(s, q)
    ensures q < |Act(s, p).pcs| && ProcOk(Act(s, p), q)
  {
    var t := Act(s, p);
    assert t.pcs[q] == if s.pcs[p] == Wake && s.pcs[q] == Asleep then Runnable else s.pcs[q];
  }

  lemma StepKeeps(s: State, st: Step)
    requires Inv(s) && CanStep(s, st)
    ensures Inv(Next(s, st))
  {
    hide ProcOk;
    var t := Next(s, st);
    match st
    case Run(p) =>
      forall q | 0 <= q < |t.pcs| ensures ProcOk(t, q) {
        if q == p { ActKeepsSelf(s, p); } else { ActKeepsOther(s, p, q); }
      }
    case Kill(p) =>
      forall q | 0 <= q < |t.pcs| ensures ProcOk(t, q) {
        KillKeeps(s, p, q);
      }
  }

  lemma KillKeeps(s: State, p: nat, q: nat)
    requires CanStep(s, Kill(p)) && q < |s.pcs| && ProcOk(s, p) && ProcOk(s, q)
    ensures q < |Next(s, Kill(p)).pcs| && ProcOk(Next(s, Kill(p)), q)
  {
  }

  lemma {:induction false} RunKeeps(s: State, steps: seq<Step>)
    requires Inv(s) && CanRun(s, steps)
    ensures Inv(Execute(s, steps))
    decreases |steps|
  {
    hide Inv, CanStep, Next;
    if steps != [] {
      StepKeeps(s, steps[0]);
      RunKeeps(Next(s, steps[0]), steps[1..]);
    }
  }

  // What the locks promise

  /** At most one process is between acquiresleep and releasesleep, in every reachable state. */
  lemma MutualExclusion(s: State, steps: seq<Step>, p: nat, q: nat)
    requires Init(s) && CanRun(s, steps)
    requires p < |Execute(s, steps).pcs| && q < |Execute(s, steps).pcs|
    requires Owns(Execute(s, steps).pcs[p]) && Owns(Execute(s, steps).pcs[q])
    ensures p == q
  {
    RunKeeps(s, steps);
    var t := Execute(s, steps);
    assert ProcOk(t, p) && ProcOk(t, q);
  }

  /** No lost wakeup: whoever sleeps on the lock sleeps while it is held, or while a releaser
      holding the inner spinlock is about to wake everybody. */
  lemma NoLostWakeup(s: State, steps: seq<Step>, p: nat)
    requires Init(s) && CanRun(s, steps)
    requires p < |Execute(s, steps).pcs| && Execute(s, steps).pcs[p] == Asleep
    ensures var t := Execute(s, steps); t.locked || WakePending(t)
    ensures var t := Execute(s, steps);
      t.locked ==> exists q :: 0 <= q < |t.pcs| && Owns(t.pcs[q])
  {
    RunKeeps(s, steps);
    var t := Execute(s, steps);
    assert ProcOk(t, p);
    if t.locked { assert ProcOk(t, t.pid - 1); }
  }

  /** A pending wakeup is never cancelled: until the waker has run its wakeup, it stays
      pending, and then nobody sleeps on the lock any more. */
  lemma WakeupArrives(s: State, st: Step)
    requires Inv(s) && CanStep(s, st) && WakePending(s)
    ensures WakePending(Next(s, st)) || forall p | 0 <= p < |s.pcs| :: Next(s, st).pcs[p] != Asleep
  {
    var q := s.lk.p;
    assert ProcOk(s, q) && ProcOk(s, st.p);
  }

  /** holdingsleep answers for the caller alone. */
  lemma HoldingSleep(s: State, steps: seq<Step>, p: nat)
    requires Init(s) && CanRun(s, steps) && p < |Execute(s, steps).pcs|
    ensures var t := Execute(s, steps); (t.locked && t.pid == p + 1 <==> Owns(t.pcs[p])) && (t.locked <==> t.pid != 0)
  {
    RunKeeps(s, steps);
    assert ProcOk(Execute(s, steps), p);
  }

  /** Someone who can act among those inside the protocol. */
  ghost predicate Moves(s: State) {
    exists q: nat :: q < |s.pcs| && s.pcs[q] != Out && Enabled(s, q)
  }

  lemma PtMoves(s: State)
    requires Inv(s) && s.pt.By?
    ensures Moves(s)
  {
    assert ProcOk(s, s.pt.p);
    assert Enabled(s, s.pt.p);
  }

  lemma LkMoves(s: State)
    requires Inv(s) && s.lk.By? && s.pt == Free
    ensures Moves(s)
  {
    assert ProcOk(s, s.lk.p);
    assert Enabled(s, s.lk.p);
  }

  /** No deadlock: while anybody is inside acquiresleep, the critical section or releasesleep,
      one of them can act. */
  lemma NoDeadlock(s: State, steps: seq<Step>, p: nat)
    requires Init(s) && CanRun(s, steps) && p < |Execute(s, steps).pcs| && Execute(s, steps).pcs[p] != Out
    ensures var t := Execute(s, steps); exists q: nat :: q < |t.pcs| && t.pcs[q] != Out && Enabled(t, q)
  {
    RunKeeps(s, steps);
    var t := Execute(s, steps);
    if t.pt.By? {
      PtMoves(t);
    } else if t.lk.By? {
      LkMoves(t);
    } else {
      assert ProcOk(t, p);
      var q := if t.pcs[p] == Asleep then t.pid - 1 else p;
      assert ProcOk(t, q);
      assert Enabled(t, q);
    }
  }
}
