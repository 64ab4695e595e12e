/**
 fork, exit, wait, kill, sleep and wakeup (kernel/proc.c) as steps of any number of processes.
 Stretches that hold ptable.lock are one step; fork's unlocked writes are steps of their own.
 */
module ExitWait {
  import opened ProcTable

  /** Where a process is inside fork or wait.  `Alloced` and `Linked` hold the embryo, before
      and after its parent field is set. */
  datatype Job = User | Alloced(child: nat) | Linked(child: nat) | Waiting

  /** `exited` and `reaped` list pids, in order; they are history variables. */
  datatype State = State(
    procs: Table,
    jobs: seq<Job>,
    init: nat,
    nextpid: nat,
    exited: seq<nat>,
    reaped: seq<nat>)

  datatype Step =
    | Schedule(p: nat) | Yield(p: nat) | SleepOn(p: nat, id: int) | Wakeup(id: int) | Kill(pid: int)
    | Alloc(p: nat)
    | ForkAbort(p: nat)
    | Link(p: nat)
    | ForkFull(p: nat)
    | ForkDone(p: nat)
    | Exit(p: nat)
    | Wait(p: nat)

  ghost predicate Init(s: State) {
    && s.init < |s.procs| == |s.jobs| && s.nextpid == 2 && s.exited == [] && s.reaped == []
    && (forall i | 0 <= i < |s.jobs| :: s.jobs[i] == User)
    && (forall i | 0 <= i < |s.procs| ::
          s.procs[i] == if i == s.init then Proc(Runnable, 1, -1, false, Nothing) else Proc(Unused, 0, -1, false, Nothing))
  }

  predicate Runs(s: State, p: nat) {
    p < |s.procs| == |s.jobs| && s.procs[p].state == Running
  }

  predicate Enabled(s: State, st: Step) {
    match st
    case Schedule(p) => p < |s.procs| && s.procs[p].state == Runnable
    case Yield(p) => Runs(s, p)
    case SleepOn(p, _) => Runs(s, p) && s.jobs[p] != Waiting
    case Wakeup(_) => true
    case Kill(_) => true
    case Alloc(p) => Runs(s, p) && s.jobs[p] == User && FirstUnused(s.procs) < |s.procs|
    case ForkAbort(p) => Runs(s, p) && s.jobs[p].Alloced? && s.jobs[p].child < |s.procs|
    case Link(p) => Runs(s, p) && s.jobs[p].Alloced? && s.jobs[p].child < |s.procs|
    case ForkFull(p) => Runs(s, p) && s.jobs[p].Linked? && s.jobs[p].child < |s.procs|
    case ForkDone(p) => Runs(s, p) && s.jobs[p].Linked? && s.jobs[p].child < |s.procs|
    case Exit(p) => Runs(s, p) && s.jobs[p] == User && p != s.init
    case Wait(p) => Runs(s, p) && (s.jobs[p] == User || s.jobs[p] == Waiting)
  }

  function WakeTable(t: Table, c: Chan): (r: Table)
    ensures Woken(t, r, c)
  {
    seq(|t|, i requires 0 <= i < |t| => WakeOne(t[i], c))
  }

  function ExitTable(t: Table, p: nat, init: nat): (r: Table)
    requires p < |t|
    ensures Exited(t, p, init, r)
  {
    seq(|t|, i requires 0 <= i < |t| =>
      if i == p then ExitOne(t, p, init, t[i]).(state := Zombie) else ExitOne(t, p, init, t[i]))
  }

  function DoWait(s: State, p: nat): State
    requires Enabled(s, Wait(p))
  {
    var z := FirstZombie(s.procs, p);
    if z < |s.procs| then
      s.(procs := s.procs[z := Reaped(s.procs[z])], jobs := s.jobs[p := User], reaped := s.reaped + [s.procs[z].pid])
    else if !HasKids(s.procs, p) || s.procs[p].killed then
      s.(jobs := s.jobs[p := User])
    else
      s.(procs := s.procs[p := s.procs[p].(chan := Entry(p), state := Sleeping)], jobs := s.jobs[p := Waiting])
  }

  function Next(s: State, st: Step): State
    requires Enabled(s, st)
  {
    var t := s.procs;
    match st
    case Schedule(p) => s.(procs := t[p := t[p].(state := Running)])
    case Yield(p) => s.(procs := t[p := t[p].(state := Runnable)])
    case SleepOn(p, id) => s.(procs := t[p := t[p].(chan := Elsewhere(id), state := Sleeping)])
    case Wakeup(id) => s.(procs := WakeTable(t, Elsewhere(id)))
    case Kill(pid) =>
      var i := FirstPid(t, pid);
      if i < |t| then s.(procs := t[i := Killed(t[i])]) else s
    case Alloc(p) =>
      var c := FirstUnused(t);
      s.(procs := t[c := t[c].(state := Embryo, pid := s.nextpid)], nextpid := s.nextpid + 1, jobs := s.jobs[p := Alloced(c)])
    case ForkAbort(p) =>
      var c := s.jobs[p].child;
      s.(procs := t[c := t[c].(state := Unused)], jobs := s.jobs[p := User])
    case Link(p) =>
      var c := s.jobs[p].child;
      s.(procs := t[c := t[c].(parent := p)], jobs := s.jobs[p := Linked(c)])
    case ForkFull(p) =>
      var c := s.jobs[p].child;
      s.(procs := t[c := t[c].(state := Unused)], jobs := s.jobs[p := User])
    case ForkDone(p) =>
      var c := s.jobs[p].child;
      s.(procs := t[c := t[c].(state := Runnable)], jobs := s.jobs[p := User])
    case Exit(p) => s.(procs := ExitTable(t, p, s.init), exited := s.exited + [t[p].pid])
    case Wait(p) => DoWait(s, p)
  }

  ghost predicate CanRun(s: State, steps: seq<Step>)
    decreases |steps|
  {
    steps == [] || (Enabled(s, steps[0]) && CanRun(Next(s, steps[0]), steps[1..]))
  }

  ghost function Execute(s: State, steps: seq<Step>): State
    requires CanRun(s, steps)
    decreases |steps|
  {
    if steps == [] then s else Execute(Next(s, steps[0]), steps[1..])
  }

  // The invariant

  predicate Busy(j: Job) {
    j.Alloced? || j.Linked?
  }

  /** A process inside fork or wait is alive, and in fork it holds an embryo. */
  ghost predicate ForkAt(t: Table, j: Job, p: nat)
    requires p < |t|
  {
    && (j != User ==> Live(t[p]))
    && (Busy(j) ==> j.child < |t| && t[j.child].state == Embryo && (j.Linked? ==> t[j.child].parent == p))
  }

  ghost predicate Apart(j: Job, k: Job) {
    Busy(j) && Busy(k) ==> j.child != k.child
  }

  ghost predicate ForksOk(t: Table, jobs: seq<Job>) {
    && |jobs| == |t|
    && (forall p | 0 <= p < |t| :: ForkAt(t, jobs[p], p))
    && (forall p, q | 0 <= p < |t| && 0 <= q < |t| && p != q :: Apart(jobs[p], jobs[q]))
  }

  /** Live and zombie processes other than init have a live parent. */
  ghost predicate ParentAt(t: Table, init: nat, i: nat)
    requires i < |t|
  {
    i != init && (Live(t[i]) || t[i].state == Zombie) ==>
    0 <= t[i].parent < |t| && t[i].parent != i && Live(t[t[i].parent])
  }

  ghost predicate ParentsOk(t: Table, init: nat) {
    init < |t| && Live(t[init]) && t[init].parent == -1 && forall i | 0 <= i < |t| :: ParentAt(t, init, i)
  }

  /** Nobody sleeps in wait beside a zombie child. */
  ghost predicate WaitAt(t: Table, p: nat)
    requires p < |t|
  {
    t[p].state == Sleeping && t[p].chan.Entry? ==> t[p].chan == Entry(p) && !ZombieChild(t, p)
  }

  ghost predicate WaitOk(t: Table) {
    forall p | 0 <= p < |t| :: WaitAt(t, p)
  }

  ghost predicate Distinct(s: seq<nat>) {
    forall i, j | 0 <= i < j < |s| :: s[i] != s[j]
  }

  ghost predicate ZombiePid(t: Table, pid: nat) {
    exists i :: 0 <= i < |t| && t[i].state == Zombie && t[i].pid == pid
  }

  /** A pid in use is old; it has exited just when its entry is a zombie, not reaped yet. */
  ghost predicate PidAt(p: Proc, nextpid: nat, exited: seq<nat>, reaped: seq<nat>) {
    p.state != Unused ==> p.pid < nextpid && (p.pid in exited <==> p.state == Zombie) && p.pid !in reaped
  }

  ghost predicate PidsApart(p: Proc, q: Proc) {
    p.state != Unused && q.state != Unused ==> p.pid != q.pid
  }

  ghost predicate TableApart(t: Table) {
    forall i, j | 0 <= i < j < |t| :: PidsApart(t[i], t[j])
  }

  ghost predicate HistoryOk(exited: seq<nat>, reaped: seq<nat>, nextpid: nat) {
    && Distinct(exited) && Distinct(reaped) && (forall pid | pid in exited :: pid < nextpid)
    && (forall pid | pid in reaped :: pid in exited)
  }

  /** Who exited is a zombie or has been reaped. */
  ghost predicate Accounted(t: Table, exited: seq<nat>, reaped: seq<nat>) {
    forall pid | pid in exited && pid !in reaped :: ZombiePid(t, pid)
  }

  ghost predicate TablePids(t: Table, nextpid: nat, exited: seq<nat>, reaped: seq<nat>) {
    forall i | 0 <= i < |t| :: PidAt(t[i], nextpid, exited, reaped)
  }

  ghost predicate PidsOk(s: State) {
    && TablePids(s.procs, s.nextpid, s.exited, s.reaped) && TableApart(s.procs)
    && HistoryOk(s.exited, s.reaped, s.nextpid) && Accounted(s.procs, s.exited, s.reaped)
  }

  ghost predicate Inv(s: State) {
    ForksOk(s.procs, s.jobs) && ParentsOk(s.procs, s.init) && WaitOk(s.procs) && PidsOk(s)
  }

  lemma InitInv(s: State)
    requires Init(s)
    ensures Inv(s)
  {
  }

  // Steps that leave live processes alive and zombies as they are

  /** Entry a became b without dying, coming alive, changing parent or going to sleep in wait. */
  ghost predicate SameLife(a: Proc, b: Proc) {
    && (Live(a) <==> Live(b)) && (a.state == Zombie <==> b.state == Zombie)
    && (Live(a) || a.state == Zombie ==> a.parent == b.parent)
    && (b.state == Sleeping && b.chan.Entry? ==> a.state == Sleeping && a.chan == b.chan)
  }

  ghost predicate SameLives(t: Table, r: Table) {
    |r| == |t| && forall i | 0 <= i < |t| :: SameLife(t[i], r[i])
  }

  lemma KeepParents(t: Table, r: Table, init: nat)
    requires SameLives(t, r) && ParentsOk(t, init)
    ensures ParentsOk(r, init)
  {
    assert SameLife(t[init], r[init]);
    forall i | 0 <= i < |r|
      ensures ParentAt(r, init, i)
    {
      assert ParentAt(t, init, i) && SameLife(t[i], r[i]);
      var p := t[i].parent;
      assert 0 <= p < |t| ==> SameLife(t[p], r[p]);
    }
  }

  lemma KeepWaits(t: Table, r: Table)
    requires SameLives(t, r) && WaitOk(t)
    ensures WaitOk(r)
  {
    forall p | 0 <= p < |r|
      ensures WaitAt(r, p)
    {
      assert WaitAt(t, p) && SameLife(t[p], r[p]);
      assert forall i | 0 <= i < |t| :: SameLife(t[i], r[i]);
    }
  }

  /** Who is in the table afterwards was there before, as the same process. */
  ghost predicate SamePids(t: Table, r: Table) {
    |r| == |t| &&
    forall i | 0 <= i < |t| :: r[i].state != Unused ==> t[i].state != Unused && r[i].pid == t[i].pid
  }

  lemma KeepPids(s: State, t: State)
    requires PidsOk(s) && SameLives(s.procs, t.procs) && SamePids(s.procs, t.procs)
    requires t.nextpid == s.nextpid && t.exited == s.exited && t.reaped == s.reaped
    ensures PidsOk(t)
  {
    forall i | 0 <= i < |t.procs|
      ensures PidAt(t.procs[i], t.nextpid, t.exited, t.reaped)
    {
      assert PidAt(s.procs[i], s.nextpid, s.exited, s.reaped) && SameLife(s.procs[i], t.procs[i]);
    }
    forall i, j | 0 <= i < j < |t.procs|
      ensures PidsApart(t.procs[i], t.procs[j])
    {
      assert PidsApart(s.procs[i], s.procs[j]);
    }
    KeepAccounts(s.procs, t.procs, s.exited, s.reaped);
  }

  lemma KeepAccounts(t: Table, r: Table, exited: seq<nat>, reaped: seq<nat>)
    requires Accounted(t, exited, reaped) && SameLives(t, r)
    requires forall i | 0 <= i < |t| && t[i].state == Zombie :: r[i].pid == t[i].pid
    ensures Accounted(r, exited, reaped)
  {
    forall pid | pid in exited && pid !in reaped
      ensures ZombiePid(r, pid)
    {
      var i :| 0 <= i < |t| && t[i].state == Zombie && t[i].pid == pid;
      assert SameLife(t[i], r[i]);
    }
  }

  predicate Moves(st: Step) {
    st.Schedule? || st.Yield? || st.SleepOn? || st.Wakeup? || st.Kill?
  }

  lemma MoveForks(t: Table, jobs: seq<Job>, r: Table)
    requires ForksOk(t, jobs) && SameLives(t, r)
    requires forall i | 0 <= i < |t| && t[i].state == Embryo :: r[i].state == Embryo && r[i].parent == t[i].parent
    ensures ForksOk(r, jobs)
  {
    forall p | 0 <= p < |r|
      ensures ForkAt(r, jobs[p], p)
    {
      assert ForkAt(t, jobs[p], p) && SameLife(t[p], r[p]);
    }
  }

  lemma MoveKeeps(s: State, st: Step)
    requires Inv(s) && Enabled(s, st) && Moves(st)
    ensures Inv(Next(s, st))
  {
    hide ForksOk, ParentsOk, WaitOk, PidsOk;
    var t := Next(s, st);
    assert SameLives(s.procs, t.procs) && SamePids(s.procs, t.procs);
    MoveForks(s.procs, s.jobs, t.procs);
    KeepParents(s.procs, t.procs, s.init);
    KeepWaits(s.procs, t.procs);
    KeepPids(s, t);
  }

  // The steps of fork

  lemma AllocForks(t: Table, jobs: seq<Job>, p: nat, c: nat, x: Proc)
    requires ForksOk(t, jobs) && p < |t| && c < |t| && t[c].state == Unused && x.state == Embryo && Live(t[p])
    ensures ForksOk(t[c := x], jobs[p := Alloced(c)])
  {
    var js := jobs[p := Alloced(c)];
    forall q | 0 <= q < |t|
      ensures ForkAt(t[c := x], js[q], q)
    {
      assert ForkAt(t, jobs[q], q);
    }
    forall q, k | 0 <= q < |t| && 0 <= k < |t| && q != k
      ensures Apart(js[q], js[k])
    {
      assert ForkAt(t, jobs[q], q) && ForkAt(t, jobs[k], k) && Apart(jobs[q], jobs[k]);
    }
  }

  lemma AllocPids(s: State, t: State, c: nat)
    requires PidsOk(s) && c < |s.procs| && s.procs[c].state == Unused
    requires t.procs == s.procs[c := s.procs[c].(state := Embryo, pid := s.nextpid)]
    requires t.nextpid == s.nextpid + 1 && t.exited == s.exited && t.reaped == s.reaped
    ensures PidsOk(t)
  {
    forall i | 0 <= i < |t.procs|
      ensures PidAt(t.procs[i], t.nextpid, t.exited, t.reaped)
    {
      assert PidAt(s.procs[i], s.nextpid, s.exited, s.reaped);
    }
    forall i, j | 0 <= i < j < |t.procs|
      ensures PidsApart(t.procs[i], t.procs[j])
    {
      assert PidsApart(s.procs[i], s.procs[j]);
      assert PidAt(s.procs[i], s.nextpid, s.exited, s.reaped) && PidAt(s.procs[j], s.nextpid, s.exited, s.reaped);
    }
    KeepAccounts(s.procs, t.procs, s.exited, s.reaped);
  }

  lemma AllocKeeps(s: State, p: nat)
    requires Inv(s) && Enabled(s, Alloc(p))
    ensures Inv(Next(s, Alloc(p)))
  {
    hide ForksOk, ParentsOk, WaitOk, PidsOk;
    var t := Next(s, Alloc(p));
    var c := FirstUnused(s.procs);
    AllocForks(s.procs, s.jobs, p, c, t.procs[c]);
    KeepParents(s.procs, t.procs, s.init);
    KeepWaits(s.procs, t.procs);
    AllocPids(s, t, c);
  }

  /** A process inside fork changes only its own embryo. */
  lemma EmbryoForks(t: Table, jobs: seq<Job>, p: nat, x: Proc, j: Job)
    requires ForksOk(t, jobs) && p < |t| && Busy(jobs[p]) && jobs[p].child < |t|
    requires j == User || (j == Linked(jobs[p].child) && x.state == Embryo && x.parent == p)
    ensures ForksOk(t[jobs[p].child := x], jobs[p := j])
  {
    var c := jobs[p].child;
    assert ForkAt(t, jobs[p], p);
    var js := jobs[p := j];
    forall q | 0 <= q < |t|
      ensures ForkAt(t[c := x], js[q], q)
    {
      assert ForkAt(t, jobs[q], q);
      assert q != p ==> Apart(jobs[q], jobs[p]);
    }
    forall q, k | 0 <= q < |t| && 0 <= k < |t| && q != k
      ensures Apart(js[q], js[k])
    {
      assert Apart(jobs[q], jobs[k]);
    }
  }

  lemma ForkKeeps(s: State, p: nat, st: Step)
    requires Inv(s) && Enabled(s, st) && (st == ForkAbort(p) || st == ForkFull(p) || st == Link(p))
    ensures Inv(Next(s, st))
  {
    var t := Next(s, st);
    var c := s.jobs[p].child;
    assert ForkAt(s.procs, s.jobs[p], p);
    hide ForksOk, ParentsOk, WaitOk, PidsOk;
    EmbryoForks(s.procs, s.jobs, p, t.procs[c], t.jobs[p]);
    KeepParents(s.procs, t.procs, s.init);
    KeepWaits(s.procs, t.procs);
    KeepPids(s, t);
  }

  /** The embryo of a live parent comes alive. */
  lemma BornTable(t: Table, init: nat, p: nat, c: nat)
    requires ParentsOk(t, init) && WaitOk(t) && p < |t| && c < |t| && Live(t[p]) && t[c].state == Embryo && t[c].parent == p
    ensures var r := t[c := t[c].(state := Runnable)];
      ParentsOk(r, init) && WaitOk(r)
  {
    var r := t[c := t[c].(state := Runnable)];
    forall i | 0 <= i < |r|
      ensures ParentAt(r, init, i) && WaitAt(r, i)
    {
      assert ParentAt(t, init, i) && WaitAt(t, i);
    }
  }

  predicate Alive(p: Proc) {
    Live(p) || p.state == Embryo
  }

  lemma BornPids(s: State, t: State, c: nat, x: Proc)
    requires PidsOk(s) && c < |s.procs| && Alive(s.procs[c]) && Alive(x) && x.pid == s.procs[c].pid
    requires t.procs == s.procs[c := x]
    requires t.nextpid == s.nextpid && t.exited == s.exited && t.reaped == s.reaped
    ensures PidsOk(t)
  {
    forall i | 0 <= i < |t.procs|
      ensures PidAt(t.procs[i], t.nextpid, t.exited, t.reaped)
    {
      assert PidAt(s.procs[i], s.nextpid, s.exited, s.reaped);
    }
    forall i, j | 0 <= i < j < |t.procs|
      ensures PidsApart(t.procs[i], t.procs[j])
    {
      assert PidsApart(s.procs[i], s.procs[j]);
    }
    forall pid | pid in s.exited && pid !in s.reaped
      ensures ZombiePid(t.procs, pid)
    {
      var i :| 0 <= i < |s.procs| && s.procs[i].state == Zombie && s.procs[i].pid == pid;
      assert t.procs[i] == s.procs[i];
    }
  }

  lemma DoneKeeps(s: State, p: nat)
    requires Inv(s) && Enabled(s, ForkDone(p))
    ensures Inv(Next(s, ForkDone(p)))
  {
    var t := Next(s, ForkDone(p));
    var c := s.jobs[p].child;
    assert ForkAt(s.procs, s.jobs[p], p);
    hide ForksOk, ParentsOk, WaitOk, PidsOk;
    EmbryoForks(s.procs, s.jobs, p, t.procs[c], User);
    BornTable(s.procs, s.init, p, c);
    BornPids(s, t, c, t.procs[c]);
  }

  // exit

  lemma ExitForks(t: Table, jobs: seq<Job>, p: nat, init: nat, r: Table)
    requires p < |t| && ForksOk(t, jobs) && jobs[p] == User && t[p].state == Running && Exited(t, p, init, r)
    ensures ForksOk(r, jobs)
  {
    forall q | 0 <= q < |r|
      ensures ForkAt(r, jobs[q], q)
    {
      assert ForkAt(t, jobs[q], q);
    }
  }

  lemma ExitParents(t: Table, p: nat, init: nat, r: Table)
    requires p < |t| && p != init && ParentsOk(t, init) && t[p].state == Running && Exited(t, p, init, r)
    ensures ParentsOk(r, init)
  {
    forall i | 0 <= i < |r|
      ensures ParentAt(r, init, i)
    {
      assert ParentAt(t, init, i);
    }
  }

  lemma ExitWaits(t: Table, p: nat, init: nat, r: Table)
    requires p < |t| && p != init && ParentsOk(t, init) && WaitOk(t) && t[p].state == Running && Exited(t, p, init, r)
    ensures WaitOk(r)
  {
    forall q | 0 <= q < |r|
      ensures WaitAt(r, q)
    {
      assert WaitAt(t, q) && ParentAt(t, init, p);
    }
  }

  lemma ExitTablePids(t: Table, p: nat, init: nat, r: Table, nextpid: nat, exited: seq<nat>, reaped: seq<nat>)
    requires p < |t| && t[p].state == Running && Exited(t, p, init, r) && TablePids(t, nextpid, exited, reaped) && TableApart(t)
    ensures TablePids(r, nextpid, exited + [t[p].pid], reaped) && TableApart(r)
  {
    forall i | 0 <= i < |r|
      ensures PidAt(r[i], nextpid, exited + [t[p].pid], reaped)
    {
      assert PidAt(t[i], nextpid, exited, reaped);
      assert i < p ==> PidsApart(t[i], t[p]);
      assert p < i ==> PidsApart(t[p], t[i]);
    }
    forall i, j | 0 <= i < j < |r|
      ensures PidsApart(r[i], r[j])
    {
      assert PidsApart(t[i], t[j]);
    }
  }

  lemma ExitAccounts(t: Table, p: nat, init: nat, r: Table, exited: seq<nat>, reaped: seq<nat>)
    requires p < |t| && t[p].state == Running && Exited(t, p, init, r) && Accounted(t, exited, reaped)
    ensures Accounted(r, exited + [t[p].pid], reaped)
  {
    forall pid | pid in exited + [t[p].pid] && pid !in reaped
      ensures ZombiePid(r, pid)
    {
      if pid == t[p].pid {
        assert r[p].state == Zombie;
      } else {
        var i :| 0 <= i < |t| && t[i].state == Zombie && t[i].pid == pid;
        assert r[i].state == Zombie;
      }
    }
  }

  lemma ExitPids(s: State, t: State, p: nat)
    requires PidsOk(s) && p < |s.procs| && s.procs[p].state == Running && Exited(s.procs, p, s.init, t.procs)
    requires t.nextpid == s.nextpid && t.exited == s.exited + [s.procs[p].pid] && t.reaped == s.reaped
    ensures PidsOk(t)
  {
    hide Exited, Accounted;
    assert PidAt(s.procs[p], s.nextpid, s.exited, s.reaped);
    ExitTablePids(s.procs, p, s.init, t.procs, s.nextpid, s.exited, s.reaped);
    ExitAccounts(s.procs, p, s.init, t.procs, s.exited, s.reaped);
  }

  lemma ExitKeeps(s: State, p: nat)
    requires Inv(s) && Enabled(s, Exit(p))
    ensures Inv(Next(s, Exit(p)))
  {
    hide ForksOk, ParentsOk, WaitOk, PidsOk, Exited;
    var t := Next(s, Exit(p));
    ExitForks(s.procs, s.jobs, p, s.init, t.procs);
    ExitParents(s.procs, p, s.init, t.procs);
    ExitWaits(s.procs, p, s.init, t.procs);
    ExitPids(s, t, p);
  }

  // wait

  lemma ReapTable(t: Table, init: nat, z: nat)
    requires ParentsOk(t, init) && WaitOk(t) && z < |t| && t[z].state == Zombie
    ensures var r := t[z := Reaped(t[z])];
      ParentsOk(r, init) && WaitOk(r)
  {
    var r := t[z := Reaped(t[z])];
    forall i | 0 <= i < |r|
      ensures ParentAt(r, init, i) && WaitAt(r, i)
    {
      assert ParentAt(t, init, i) && WaitAt(t, i);
    }
  }

  /** The job of p, not inside fork, and an entry no fork owns may change. */
  lemma WaitForks(t: Table, jobs: seq<Job>, p: nat, z: nat, x: Proc, j: Job)
    requires ForksOk(t, jobs) && p < |t| && z < |t| && t[z].state != Embryo && !Busy(j)
    requires (Live(t[z]) ==> Live(x)) && (j == Waiting ==> p == z && Live(x))
    ensures ForksOk(t[z := x], jobs[p := j])
  {
    var js := jobs[p := j];
    forall q | 0 <= q < |t|
      ensures ForkAt(t[z := x], js[q], q)
    {
      assert ForkAt(t, jobs[q], q);
    }
    forall q, k | 0 <= q < |t| && 0 <= k < |t| && q != k
      ensures Apart(js[q], js[k])
    {
      assert Apart(jobs[q], jobs[k]);
    }
  }

  lemma ReapPids(s: State, t: State, z: nat)
    requires PidsOk(s) && z < |s.procs| && s.procs[z].state == Zombie && t.procs == s.procs[z := Reaped(s.procs[z])]
    requires t.nextpid == s.nextpid && t.exited == s.exited && t.reaped == s.reaped + [s.procs[z].pid]
    ensures PidsOk(t)
  {
    assert PidAt(s.procs[z], s.nextpid, s.exited, s.reaped);
    forall i | 0 <= i < |t.procs|
      ensures PidAt(t.procs[i], t.nextpid, t.exited, t.reaped)
    {
      assert PidAt(s.procs[i], s.nextpid, s.exited, s.reaped);
      assert i < z ==> PidsApart(s.procs[i], s.procs[z]);
      assert z < i ==> PidsApart(s.procs[z], s.procs[i]);
    }
    forall i, j | 0 <= i < j < |t.procs|
      ensures PidsApart(t.procs[i], t.procs[j])
    {
      assert PidsApart(s.procs[i], s.procs[j]);
    }
    forall pid | pid in t.exited && pid !in t.reaped
      ensures ZombiePid(t.procs, pid)
    {
      var i :| 0 <= i < |s.procs| && s.procs[i].state == Zombie && s.procs[i].pid == pid;
      assert t.procs[i] == s.procs[i];
    }
  }

  lemma SleepTable(t: Table, init: nat, p: nat)
    requires ParentsOk(t, init) && WaitOk(t) && p < |t| && t[p].state == Running && !ZombieChild(t, p)
    ensures var r := t[p := t[p].(chan := Entry(p), state := Sleeping)];
      ParentsOk(r, init) && WaitOk(r)
  {
    var r := t[p := t[p].(chan := Entry(p), state := Sleeping)];
    forall i | 0 <= i < |r|
      ensures ParentAt(r, init, i) && WaitAt(r, i)
    {
      assert ParentAt(t, init, i) && WaitAt(t, i);
    }
  }

  lemma WaitKeeps(s: State, p: nat)
    requires Inv(s) && Enabled(s, Wait(p))
    ensures Inv(Next(s, Wait(p)))
  {
    hide ForksOk, ParentsOk, WaitOk, PidsOk;
    var z := FirstZombie(s.procs, p);
    var t := Next(s, Wait(p));
    if z < |s.procs| {
      ReapTable(s.procs, s.init, z);
      WaitForks(s.procs, s.jobs, p, z, t.procs[z], User);
      ReapPids(s, t, z);
    } else {
      if HasKids(s.procs, p) && !s.procs[p].killed {
        SleepTable(s.procs, s.init, p);
      }
      assert t.procs == s.procs[p := t.procs[p]];
      WaitForks(s.procs, s.jobs, p, p, t.procs[p], t.jobs[p]);
      BornPids(s, t, p, t.procs[p]);
    }
  }

  lemma StepKeeps(s: State, st: Step)
    requires Inv(s) && Enabled(s, st)
    ensures Inv(Next(s, st))
  {
    hide Inv, Next;
    match st
    case Alloc(p) => AllocKeeps(s, p);
    case ForkAbort(p) => ForkKeeps(s, p, st);
    case Link(p) => ForkKeeps(s, p, st);
    case ForkFull(p) => ForkKeeps(s, p, st);
    case ForkDone(p) => DoneKeeps(s, p);
    case Exit(p) => ExitKeeps(s, p);
    case Wait(p) => WaitKeeps(s, p);
    case _ => MoveKeeps(s, st);
  }

  lemma {:induction false} RunKeeps(s: State, steps: seq<Step>)
    requires Inv(s) && CanRun(s, steps)
    ensures Inv(Execute(s, steps))
    decreases |steps|
  {
    hide Inv, Enabled, Next;
    if steps != [] {
      StepKeeps(s, steps[0]);
      RunKeeps(Next(s, steps[0]), steps[1..]);
    }
  }

  // What every run keeps

  /** Every live or zombie process but init has a live parent, which is not itself. */
  lemma ParentsLive(s: State, steps: seq<Step>, i: nat)
    requires Init(s) && CanRun(s, steps) && i < |Execute(s, steps).procs|
    ensures var t := Execute(s, steps).procs;
      i != s.init && (Live(t[i]) || t[i].state == Zombie) ==>
        0 <= t[i].parent < |t| && t[i].parent != i && Live(t[t[i].parent])
  {
    InitInv(s);
    RunKeeps(s, steps);
    SameInit(s, steps);
    assert ParentAt(Execute(s, steps).procs, s.init, i);
  }

  lemma {:induction false} SameInit(s: State, steps: seq<Step>)
    requires CanRun(s, steps)
    ensures Execute(s, steps).init == s.init
    decreases |steps|
  {
    if steps != [] {
      SameInit(Next(s, steps[0]), steps[1..]);
    }
  }

  /** No process sleeps in wait while a child of its is a zombie. */
  lemma NoMissedExit(s: State, steps: seq<Step>, p: nat, i: nat)
    requires Init(s) && CanRun(s, steps)
    requires p < |Execute(s, steps).procs| && i < |Execute(s, steps).procs|
    ensures var t := Execute(s, steps).procs;
      t[p].state == Sleeping && t[p].chan == Entry(p) && t[i].parent == p ==> t[i].state != Zombie
  {
    InitInv(s);
    RunKeeps(s, steps);
    assert WaitAt(Execute(s, steps).procs, p);
  }

  /** No process exits twice or is reaped twice, and those that exited are exactly the zombies
      and the reaped ones, never both. */
  lemma ReapedOnce(s: State, steps: seq<Step>)
    requires Init(s) && CanRun(s, steps)
    ensures var t := Execute(s, steps);
      Distinct(t.exited) && Distinct(t.reaped) &&
      (forall pid :: pid in t.exited <==> pid in t.reaped || ZombiePid(t.procs, pid)) &&
      (forall pid :: !(pid in t.reaped && ZombiePid(t.procs, pid)))
  {
    InitInv(s);
    RunKeeps(s, steps);
    var t := Execute(s, steps);
    forall i | 0 <= i < |t.procs|
      ensures PidAt(t.procs[i], t.nextpid, t.exited, t.reaped)
    {
    }
  }

  /** Only wait reaps, and it reaps a zombie whose parent is then the caller. */
  lemma ReapedByParent(s: State, st: Step)
    requires Inv(s) && Enabled(s, st)
    ensures var t := Next(s, st);
      t.reaped != s.reaped ==>
        st.Wait? &&
        exists z :: 0 <= z < |s.procs| && s.procs[z].state == Zombie && s.procs[z].parent == st.p &&
                    t.procs == s.procs[z := Reaped(s.procs[z])] && t.reaped == s.reaped + [s.procs[z].pid]
  {
    var t := Next(s, st);
    if st.Wait? && t.reaped != s.reaped {
      var z := FirstZombie(s.procs, st.p);
      assert s.procs[z].state == Zombie;
    }
  }

  // Sleeping in wait for a child that exists

  /** Only entries in use have a parent; an embryo's is the process forking it. */
  ghost predicate CleanAt(t: Table, jobs: seq<Job>, i: nat)
    requires i < |t|
  {
    t[i].parent != -1 ==>
      t[i].state != Unused &&
      (t[i].state == Embryo ==> 0 <= t[i].parent < |jobs| && jobs[t[i].parent] == Linked(i))
  }

  ghost predicate Clean(t: Table, jobs: seq<Job>) {
    forall i | 0 <= i < |t| :: CleanAt(t, jobs, i)
  }

  ghost predicate LiveChild(t: Table, p: nat) {
    exists i :: 0 <= i < |t| && t[i].parent == p && Live(t[i])
  }

  ghost predicate ChildAt(t: Table, p: nat)
    requires p < |t|
  {
    t[p].state == Sleeping && t[p].chan == Entry(p) ==> LiveChild(t, p)
  }

  /** Who sleeps in wait has a child that can still exit. */
  ghost predicate WaitsForChild(t: Table) {
    forall p | 0 <= p < |t| :: ChildAt(t, p)
  }

  lemma KeepChild(t: Table, r: Table, p: nat)
    requires SameLives(t, r) && p < |t| && ChildAt(t, p)
    ensures ChildAt(r, p)
  {
    assert SameLife(t[p], r[p]);
    if LiveChild(t, p) {
      var i :| 0 <= i < |t| && t[i].parent == p && Live(t[i]);
      assert SameLife(t[i], r[i]);
    }
  }

  lemma MoveClean(s: State, st: Step)
    requires Enabled(s, st) && Moves(st) && Clean(s.procs, s.jobs) && WaitsForChild(s.procs)
    ensures Clean(Next(s, st).procs, s.jobs) && WaitsForChild(Next(s, st).procs)
  {
    var t := Next(s, st);
    assert SameLives(s.procs, t.procs);
    forall i | 0 <= i < |t.procs|
      ensures CleanAt(t.procs, s.jobs, i) && ChildAt(t.procs, i)
    {
      assert CleanAt(s.procs, s.jobs, i);
      KeepChild(s.procs, t.procs, i);
    }
  }

  lemma ForkClean(s: State, p: nat, st: Step)
    requires Inv(s) && Enabled(s, st) && (st == Alloc(p) || st == ForkAbort(p) || st == Link(p))
    requires Clean(s.procs, s.jobs) && WaitsForChild(s.procs)
    ensures Clean(Next(s, st).procs, Next(s, st).jobs) && WaitsForChild(Next(s, st).procs)
  {
    var t := Next(s, st);
    var c := if st.Alloc? then FirstUnused(s.procs) else s.jobs[p].child;
    assert ForkAt(s.procs, s.jobs[p], p) && CleanAt(s.procs, s.jobs, c);
    forall q | 0 <= q < |s.jobs|
      ensures st.ForkAbort? ==> s.jobs[q] != Linked(c)
    {
      assert q != p ==> Apart(s.jobs[q], s.jobs[p]);
    }
    hide ForksOk, ParentsOk, WaitOk, PidsOk;
    assert SameLives(s.procs, t.procs);
    forall i | 0 <= i < |t.procs|
      ensures CleanAt(t.procs, t.jobs, i) && ChildAt(t.procs, i)
    {
      assert CleanAt(s.procs, s.jobs, i);
      KeepChild(s.procs, t.procs, i);
    }
  }

  lemma DoneClean(s: State, p: nat)
    requires Inv(s) && Enabled(s, ForkDone(p)) && Clean(s.procs, s.jobs) && WaitsForChild(s.procs)
    ensures Clean(Next(s, ForkDone(p)).procs, Next(s, ForkDone(p)).jobs) && WaitsForChild(Next(s, ForkDone(p)).procs)
  {
    var t := Next(s, ForkDone(p));
    var c := s.jobs[p].child;
    assert ForkAt(s.procs, s.jobs[p], p);
    hide ForksOk, ParentsOk, WaitOk, PidsOk;
    forall i | 0 <= i < |t.procs|
      ensures CleanAt(t.procs, t.jobs, i) && ChildAt(t.procs, i)
    {
      assert CleanAt(s.procs, s.jobs, i) && ChildAt(s.procs, i);
      KeepLive(s.procs, t.procs, i);
    }
  }

  lemma KeepLive(t: Table, r: Table, p: nat)
    requires |r| == |t| && forall i | 0 <= i < |t| && t[i].parent == p && Live(t[i]) :: r[i].parent == p && Live(r[i])
    ensures LiveChild(t, p) ==> LiveChild(r, p)
  {
  }

  lemma ExitClean(s: State, p: nat)
    requires Inv(s) && Enabled(s, Exit(p)) && Clean(s.procs, s.jobs) && WaitsForChild(s.procs)
    ensures Clean(Next(s, Exit(p)).procs, s.jobs) && WaitsForChild(Next(s, Exit(p)).procs)
  {
    hide ForksOk, PidsOk, WaitOk;
    var r := Next(s, Exit(p)).procs;
    forall i | 0 <= i < |r|
      ensures CleanAt(r, s.jobs, i) && ChildAt(r, i)
    {
      assert CleanAt(s.procs, s.jobs, i) && ChildAt(s.procs, i) && ParentAt(s.procs, s.init, p);
      if r[i].state == Sleeping && r[i].chan == Entry(i) {
        assert s.procs[i].state == Sleeping && s.procs[p].parent != i;
        KeepLive(s.procs, r, i);
      }
    }
  }

  lemma WaitClean(s: State, p: nat)
    requires Inv(s) && Enabled(s, Wait(p)) && Clean(s.procs, s.jobs) && WaitsForChild(s.procs)
    ensures Clean(Next(s, Wait(p)).procs, Next(s, Wait(p)).jobs) && WaitsForChild(Next(s, Wait(p)).procs)
  {
    hide ForksOk, ParentsOk, WaitOk, PidsOk;
    var t := Next(s, Wait(p));
    forall i | 0 <= i < |t.procs|
      ensures CleanAt(t.procs, t.jobs, i) && ChildAt(t.procs, i)
    {
      assert CleanAt(s.procs, s.jobs, i) && ChildAt(s.procs, i);
      KeepLive(s.procs, t.procs, i);
      if i == p && t.procs[p].state == Sleeping {
        var k :| 0 <= k < |s.procs| && s.procs[k].parent == p;
        assert CleanAt(s.procs, s.jobs, k);
        assert Live(s.procs[k]);
        assert t.procs[k].parent == p;
      }
    }
  }

  /** Fork's exit on a full shared-region table is the only step that loses the property: it
      leaves an unused entry that still names a parent. */
  lemma StepClean(s: State, st: Step)
    requires Inv(s) && Enabled(s, st) && Clean(s.procs, s.jobs) && WaitsForChild(s.procs)
    ensures Clean(Next(s, st).procs, Next(s, st).jobs) <==> !st.ForkFull?
    ensures !st.ForkFull? ==> WaitsForChild(Next(s, st).procs)
  {
    match st
    case Alloc(p) => ForkClean(s, p, st);
    case ForkAbort(p) => ForkClean(s, p, st);
    case Link(p) => ForkClean(s, p, st);
    case ForkFull(p) =>
      assert ForkAt(s.procs, s.jobs[p], p);
      assert !CleanAt(Next(s, st).procs, Next(s, st).jobs, s.jobs[p].child);
    case ForkDone(p) => DoneClean(s, p);
    case Exit(p) => ExitClean(s, p);
    case Wait(p) => WaitClean(s, p);
    case _ => MoveClean(s, st);
  }

  lemma {:induction false} RunClean(s: State, steps: seq<Step>)
    requires Inv(s) && CanRun(s, steps) && Clean(s.procs, s.jobs) && WaitsForChild(s.procs)
    requires forall st | st in steps :: !st.ForkFull?
    ensures WaitsForChild(Execute(s, steps).procs)
    decreases |steps|
  {
    hide Inv, Enabled, Next, Clean, WaitsForChild;
    if steps != [] {
      StepKeeps(s, steps[0]);
      StepClean(s, steps[0]);
      RunClean(Next(s, steps[0]), steps[1..]);
    }
  }

  /** In runs where fork never finds its shared-region table full, who sleeps in wait has a
      child that can still exit. */
  lemma WaitEnds(s: State, steps: seq<Step>)
    requires Init(s) && CanRun(s, steps) && forall st | st in steps :: !st.ForkFull?
    ensures WaitsForChild(Execute(s, steps).procs)
  {
    InitInv(s);
    RunClean(s, steps);
  }

  ghost predicate Goes(s: State, st: Step, t: State) {
    Enabled(s, st) && Next(s, st) == t
  }

  ghost predicate Path(ss: seq<State>, steps: seq<Step>) {
    |ss| == |steps| + 1 && forall i | 0 <= i < |steps| :: Goes(ss[i], steps[i], ss[i + 1])
  }

  lemma {:induction false} PathRuns(ss: seq<State>, steps: seq<Step>)
    requires Path(ss, steps)
    ensures CanRun(ss[0], steps) && Execute(ss[0], steps) == ss[|steps|]
    decreases |steps|
  {
    hide Enabled, Next;
    if steps != [] {
      assert Goes(ss[0], steps[0], ss[1]);
      assert Path(ss[1..], steps[1..]) by {
        forall i | 0 <= i < |steps| - 1
          ensures Goes(ss[1..][i], steps[1..][i], ss[1..][i + 1])
        {
          assert Goes(ss[i + 1], steps[i + 1], ss[i + 2]);
        }
      }
      PathRuns(ss[1..], steps[1..]);
    }
  }

  const EMPTY := Proc(Unused, 0, -1, false, Nothing)
  const INIT := Proc(Running, 1, -1, false, Nothing)
  const CHILD := Proc(Running, 2, 0, false, Nothing)

  /** Init and two other entries. */
  function Three(a: Proc, b: Proc, c: Proc, j: Job, k: Job, nextpid: nat): State {
    State([a, b, c], [j, k, User], 0, nextpid, [], [])
  }

  lemma StrandedStart()
    ensures Goes(Three(INIT.(state := Runnable), EMPTY, EMPTY, User, User, 2), Schedule(0), Three(INIT, EMPTY, EMPTY, User, User, 2))
    ensures Goes(Three(INIT, EMPTY, EMPTY, User, User, 2), Alloc(0),
                 Three(INIT, Proc(Embryo, 2, -1, false, Nothing), EMPTY, Alloced(1), User, 3))
  {
    var t := [INIT, EMPTY, EMPTY];
    assert FirstUnused(t) == FirstUnused(t, 1) == 1;
  }

  lemma StrandedFork()
    ensures Goes(Three(INIT, Proc(Embryo, 2, -1, false, Nothing), EMPTY, Alloced(1), User, 3), Link(0),
                 Three(INIT, Proc(Embryo, 2, 0, false, Nothing), EMPTY, Linked(1), User, 3))
    ensures Goes(Three(INIT, Proc(Embryo, 2, 0, false, Nothing), EMPTY, Linked(1), User, 3), ForkDone(0),
                 Three(INIT, Proc(Runnable, 2, 0, false, Nothing), EMPTY, User, User, 3))
    ensures Goes(Three(INIT, Proc(Runnable, 2, 0, false, Nothing), EMPTY, User, User, 3), Schedule(1),
                 Three(INIT, CHILD, EMPTY, User, User, 3))
  {
  }

  lemma StrandedFull()
    ensures Goes(Three(INIT, CHILD, EMPTY, User, User, 3), Alloc(1),
                 Three(INIT, CHILD, Proc(Embryo, 3, -1, false, Nothing), User, Alloced(2), 4))
    ensures Goes(Three(INIT, CHILD, Proc(Embryo, 3, -1, false, Nothing), User, Alloced(2), 4), Link(1),
                 Three(INIT, CHILD, Proc(Embryo, 3, 1, false, Nothing), User, Linked(2), 4))
    ensures Goes(Three(INIT, CHILD, Proc(Embryo, 3, 1, false, Nothing), User, Linked(2), 4), ForkFull(1),
                 Three(INIT, CHILD, Proc(Unused, 3, 1, false, Nothing), User, User, 4))
  {
    var t := [INIT, CHILD, EMPTY];
    assert FirstUnused(t) == FirstUnused(t, 1) == FirstUnused(t, 2) == 2;
  }

  lemma StrandedSleep()
    ensures Goes(Three(INIT, CHILD, Proc(Unused, 3, 1, false, Nothing), User, User, 4), Wait(1),
                 Three(INIT, Proc(Sleeping, 2, 0, false, Entry(1)), Proc(Unused, 3, 1, false, Nothing), User, Waiting, 4))
  {
    var t := [INIT, CHILD, Proc(Unused, 3, 1, false, Nothing)];
    assert t[2].parent == 1;
    assert FirstZombie(t, 1) == FirstZombie(t, 1, 1) == FirstZombie(t, 1, 2) == FirstZombie(t, 1, 3) == 3;
  }

  /** With such a fork a child of init comes to sleep in wait though it has no child. */
  lemma StrandedWait() returns (s: State, steps: seq<Step>)
    ensures Init(s) && CanRun(s, steps)
    ensures Execute(s, steps).procs == [INIT, Proc(Sleeping, 2, 0, false, Entry(1)), Proc(Unused, 3, 1, false, Nothing)]
  {
    hide Enabled, Next, CanRun, Execute;
    StrandedStart();
    StrandedFork();
    StrandedFull();
    StrandedSleep();
    s := Three(INIT.(state := Runnable), EMPTY, EMPTY, User, User, 2);
    steps := [Schedule(0), Alloc(0), Link(0), ForkDone(0), Schedule(1), Alloc(1), Link(1), ForkFull(1), Wait(1)];
    var ss := [s,
               Three(INIT, EMPTY, EMPTY, User, User, 2),
               Three(INIT, Proc(Embryo, 2, -1, false, Nothing), EMPTY, Alloced(1), User, 3),
               Three(INIT, Proc(Embryo, 2, 0, false, Nothing), EMPTY, Linked(1), User, 3),
               Three(INIT, Proc(Runnable, 2, 0, false, Nothing), EMPTY, User, User, 3),
               Three(INIT, CHILD, EMPTY, User, User, 3),
               Three(INIT, CHILD, Proc(Embryo, 3, -1, false, Nothing), User, Alloced(2), 4),
               Three(INIT, CHILD, Proc(Embryo, 3, 1, false, Nothing), User, Linked(2), 4),
               Three(INIT, CHILD, Proc(Unused, 3, 1, false, Nothing), User, User, 4),
               Three(INIT, Proc(Sleeping, 2, 0, false, Entry(1)), Proc(Unused, 3, 1, false, Nothing), User, Waiting, 4)];
    PathRuns(ss, steps);
  }

  // Marks of kill

  /** kill reaches the first entry with the pid: it is marked and not asleep, and no other entry
      changes. */
  lemma KillReaches(s: State, pid: int, i: nat)
    requires i < |s.procs| && s.procs[i].pid == pid && forall j | 0 <= j < i :: s.procs[j].pid != pid
    ensures var t := Next(s, Kill(pid));
      && |t.procs| == |s.procs| && t.procs[i].killed && t.procs[i].state != Sleeping
      && (s.procs[i].state != Sleeping ==> t.procs[i].state == s.procs[i].state)
      && forall j | 0 <= j < |s.procs| && j != i :: t.procs[j] == s.procs[j]
  {
    assert FirstPid(s.procs, pid) == i;
  }

  /** No entry that fork may take is marked. */
  ghost predicate Unmarked(s: State) {
    forall i | 0 <= i < |s.procs| && s.procs[i].state == Unused :: !s.procs[i].killed
  }

  /** kill finds its pid in an unused entry, or fork gives up on a child that was killed. */
  ghost predicate Marks(s: State, st: Step) {
    match st
    case Kill(pid) => FirstPid(s.procs, pid) < |s.procs| && s.procs[FirstPid(s.procs, pid)].state == Unused
    case ForkAbort(_) => Enabled(s, st) && s.procs[s.jobs[st.p].child].killed
    case ForkFull(_) => Enabled(s, st) && s.procs[s.jobs[st.p].child].killed
    case _ => false
  }

  /** Every step keeps unused entries unmarked, except exactly those two. */
  lemma StepUnmarked(s: State, st: Step)
    requires Unmarked(s) && Enabled(s, st)
    ensures Unmarked(Next(s, st)) <==> !Marks(s, st)
  {
    hide FirstPid, FirstUnused, FirstZombie, HasKids, ZombieChild;
    var t := Next(s, st);
    if Marks(s, st) {
      var i := if st.Kill? then FirstPid(s.procs, st.pid) else s.jobs[st.p].child;
      assert t.procs[i].state == Unused && t.procs[i].killed;
    }
  }

  ghost predicate NeverMarks(s: State, steps: seq<Step>)
    requires CanRun(s, steps)
    decreases |steps|
  {
    steps == [] || (!Marks(s, steps[0]) && NeverMarks(Next(s, steps[0]), steps[1..]))
  }

  lemma {:induction false} RunUnmarked(s: State, steps: seq<Step>)
    requires Unmarked(s) && CanRun(s, steps) && NeverMarks(s, steps)
    ensures Unmarked(Execute(s, steps))
    decreases |steps|
  {
    hide Enabled, Next, Unmarked, Marks;
    if steps != [] {
      StepUnmarked(s, steps[0]);
      RunUnmarked(Next(s, steps[0]), steps[1..]);
    }
  }

  /** Without them a new process starts unmarked. */
  lemma BornUnmarked(s: State, steps: seq<Step>, p: nat)
    requires Init(s) && CanRun(s, steps) && NeverMarks(s, steps) && Enabled(Execute(s, steps), Alloc(p))
    ensures var t := Next(Execute(s, steps), Alloc(p));
      t.jobs[p].Alloced? && t.jobs[p].child < |t.procs| && !t.procs[t.jobs[p].child].killed
  {
    RunUnmarked(s, steps);
  }

  lemma MarkedStart()
    ensures Goes(Three(INIT, EMPTY, EMPTY, User, User, 2), Kill(0), Three(INIT, EMPTY.(killed := true), EMPTY, User, User, 2))
    ensures Goes(Three(INIT, EMPTY.(killed := true), EMPTY, User, User, 2), Alloc(0),
                 Three(INIT, Proc(Embryo, 2, -1, true, Nothing), EMPTY, Alloced(1), User, 3))
  {
    var t, u := [INIT, EMPTY, EMPTY], [INIT, EMPTY.(killed := true), EMPTY];
    assert FirstPid(t, 0) == FirstPid(t, 0, 1) == 1;
    assert FirstUnused(u) == FirstUnused(u, 1) == 1;
  }

  /** With one of them it need not: a kill of pid 0 finds an unused entry, and the next process
      is born marked. */
  lemma BornMarked() returns (s: State, steps: seq<Step>)
    ensures Init(s) && CanRun(s, steps)
    ensures Execute(s, steps).procs == [INIT, Proc(Embryo, 2, -1, true, Nothing), EMPTY]
  {
    hide Enabled, Next, CanRun, Execute;
    StrandedStart();
    MarkedStart();
    s := Three(INIT.(state := Runnable), EMPTY, EMPTY, User, User, 2);
    steps := [Schedule(0), Kill(0), Alloc(0)];
    var ss := [s,
               Three(INIT, EMPTY, EMPTY, User, User, 2),
               Three(INIT, EMPTY.(killed := true), EMPTY, User, User, 2),
               Three(INIT, Proc(Embryo, 2, -1, true, Nothing), EMPTY, Alloced(1), User, 3)];
    PathRuns(ss, steps);
  }
}
