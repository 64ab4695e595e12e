/**
 What begin_op's reservation keeps, for a log of any size: it does not depend on where the
 commit puts the logged blocks.  And which runs keep the list inside the log area.
 */
module LogBudget {
  import opened LogMachine
  import opened LogSafety
  import opened LogCrash

  ghost predicate AllHome(pm: Params, lh: seq<int>) {
    forall j | 0 <= j < |lh| :: pm.Home(lh[j])
  }

  /** The header on disk lists distinct home blocks, and its buffer mirrors it. */
  ghost predicate HeaderOk(pm: Params, d: seq<Block>, cache: map<int, Buf>)
    requires InRange(d, pm.start)
  {
    && Distinct(HeadList(d[pm.start])) && |HeadList(d[pm.start])| <= LOGSIZE && AllHome(pm, HeadList(d[pm.start]))
    && (pm.start in cache ==> cache[pm.start].data == d[pm.start])
  }

  /** Only home blocks are held. */
  ghost predicate HeldHome(pm: Params, cache: map<int, Buf>) {
    forall b | b in cache && cache[b].holder != Free :: pm.Home(b)
  }

  ghost predicate Accounted(pm: Params, s: State) {
    && pm.Valid() && |s.disk| == pm.nblocks && |s.procs| == pm.nproc
    && Reserved(s.lh, s.outstanding, s.procs, s.phase != Running)
    && AllHome(pm, s.lh) && HeldHome(pm, s.cache) && HeaderOk(pm, s.disk, s.cache)
  }

  lemma BootAccounted(pm: Params, init: seq<Block>, s: State)
    requires Boot(pm, init, s)
    ensures Accounted(pm, s)
  {
    SumsIdle(pm.nproc);
    HeadFits(pm, s.disk, init);
  }

  // Steps

  /** Steps on buffers, of processes without the log. */
  lemma BufferAccounted(pm: Params, s: State, st: Step)
    requires Accounted(pm, s) && Enabled(pm, s, st) && (st.Bread? || st.Modify? || st.Brelse? || st.Evict?)
    ensures Accounted(pm, Do(pm, s, st))
  {
    hide Reserved, HeadList, Distinct, AllHome;
  }

  lemma OpAccounted(pm: Params, s: State, st: Step)
    requires Accounted(pm, s) && Enabled(pm, s, st) && (st.Check? || st.BeginOp? || st.EndOp?)
    ensures Accounted(pm, Do(pm, s, st))
  {
    hide HeadList, Distinct, AllHome, Reserved, Slack, Ops;
    match st
    case Check(p, b) =>
      QuietIdle(s, p);
      if !Full(pm, |s.lh|) { ProcStep(s.lh, s.outstanding, s.procs, false, p, Checked(s.procs[p].used, b)); }
    case BeginOp(p) =>
      RoomForOne(s);
      ProcStep(s.lh, s.outstanding, s.procs, false, p, InOp({}));
    case EndOp(p) => EndOpReserved(s, p);
  }

  lemma LogWriteAccounted(pm: Params, s: State, p: nat)
    requires Accounted(pm, s) && Enabled(pm, s, LogWrite(p))
    ensures Accounted(pm, Do(pm, s, LogWrite(p)))
  {
    hide HeadList, Distinct, Reserved, Slack, Ops;
    QuietIdle(s, p);
    LogWriteReserved(s, p);
  }

  /** Nobody is inside an operation outside the phase Running. */
  lemma QuietIdle(s: State, p: nat)
    requires Reserved(s.lh, s.outstanding, s.procs, s.phase != Running) && p < |s.procs| && !s.procs[p].Idle?
    ensures s.phase == Running && ProcOk(s.lh, s.procs[p]) && |s.lh| + Slack(s.procs) <= LOGSIZE
  {
    OpsZero(s.procs);
  }

  lemma RoomForOne(s: State)
    requires Reserved(s.lh, s.outstanding, s.procs, false)
    ensures Slack(s.procs) <= s.outstanding * MAXOPBLOCKS
  {
    forall p | 0 <= p < |s.procs| && !s.procs[p].Idle? ensures |s.procs[p].used| <= MAXOPBLOCKS {
      assert ProcOk(s.lh, s.procs[p]);
    }
    SlackBounds(s.procs);
  }

  /** A block written over a block other than the header. */
  lemma CopyAccounted(pm: Params, s: State, src: int, dst: int, ph: Phase)
    requires Accounted(pm, s) && CanCopy(s, src, dst) && dst != pm.start && ph != Running && s.phase != Running
    ensures Accounted(pm, CopyBlock(s, src, dst).(phase := ph))
  {
    hide Reserved, HeadList, Distinct, AllHome;
  }

  /** A header written. */
  lemma HeadAccounted(pm: Params, s: State, lh: seq<int>, ph: Phase)
    requires Accounted(pm, s) && InRange(s.disk, pm.start) && s.phase != Running
    requires lh == s.lh || lh == []
    ensures Accounted(pm, PutHead(pm, s, lh).(phase := ph))
    ensures HeadList(PutHead(pm, s, lh).disk[pm.start]) == lh
  {
    hide HeadList, Slack, Ops, WithHead;
    LogFits(s.lh, s.outstanding, s.procs, true);
    HeadRoundTrip(Fetch(s, pm.start).data, lh);
    QuietReserved(s.lh, lh, s.outstanding, s.procs);
  }

  /** A change of phase alone. */
  lemma PhaseAccounted(pm: Params, s: State, t: State)
    requires Accounted(pm, s) && t == s.(phase := t.phase, hist := t.hist, durable := t.durable, acked := t.acked)
    requires s.phase != Running
    ensures Accounted(pm, t)
  {
    hide HeadList, Distinct, AllHome, Slack, Ops;
  }

  lemma CommitAccounted(pm: Params, s: State)
    requires Accounted(pm, s) && Enabled(pm, s, Commit)
    ensures Accounted(pm, Do(pm, s, Commit))
  {
    hide Accounted, CopyBlock, PutHead, CanCopy;
    match s.phase
    case WriteLog(i) =>
      if i < |s.lh| { CopyAccounted(pm, s, s.lh[i], pm.start + 1 + i, WriteLog(i + 1)); }
      else { PhaseAccounted(pm, s, Do(pm, s, Commit)); }
    case CommitHead =>
      HeadAccounted(pm, s, s.lh, Install(0));
      PhaseAccounted(pm, PutHead(pm, s, s.lh).(phase := Install(0)), Do(pm, s, Commit));
    case Install(i) =>
      if i < |s.lh| { HomeNotHeader(pm, s, i); CopyAccounted(pm, s, pm.start + 1 + i, s.lh[i], Install(i + 1)); }
      else { PhaseAccounted(pm, s, Do(pm, s, Commit)); }
    case ClearHead => HeadAccounted(pm, s, [], Committed);
    case Committed => PhaseAccounted(pm, s, Do(pm, s, Commit));
  }

  lemma HomeNotHeader(pm: Params, s: State, i: nat)
    requires Accounted(pm, s) && i < |s.lh|
    ensures s.lh[i] != pm.start
  {
    assert pm.Home(s.lh[i]);
  }

  lemma RecoverAccounted(pm: Params, s: State)
    requires Accounted(pm, s) && Enabled(pm, s, Recover)
    ensures Accounted(pm, Do(pm, s, Recover))
  {
    hide Accounted, CopyBlock, PutHead, CanCopy, HeadList;
    match s.phase
    case ReadHead => ReadAccounted(pm, s);
    case Reinstall(i) =>
      if i < |s.lh| { HomeNotHeader(pm, s, i); CopyAccounted(pm, s, pm.start + 1 + i, s.lh[i], Reinstall(i + 1)); }
      else { PhaseAccounted(pm, s, Do(pm, s, Recover)); }
    case RecoverClear => HeadAccounted(pm, s, [], Running);
  }

  lemma ReadAccounted(pm: Params, s: State)
    requires Accounted(pm, s) && s.phase == ReadHead && InRange(s.disk, pm.start)
    ensures Fetch(s, pm.start).data == s.disk[pm.start]
    ensures Accounted(pm, s.(lh := HeadList(Fetch(s, pm.start).data), phase := Reinstall(0)))
  {
    hide HeadList, Slack, Ops;
    QuietReserved(s.lh, HeadList(s.disk[pm.start]), s.outstanding, s.procs);
  }

  lemma CrashAccounted(pm: Params, s: State)
    requires Accounted(pm, s)
    ensures Accounted(pm, Do(pm, s, Crash))
  {
    hide HeadList;
    SumsIdle(|s.procs|);
  }

  lemma StepAccounted(pm: Params, s: State, st: Step)
    requires Accounted(pm, s) && Enabled(pm, s, st)
    ensures Accounted(pm, Do(pm, s, st))
  {
    hide Accounted, Do, Enabled;
    match st
    case Commit => CommitAccounted(pm, s);
    case Recover => RecoverAccounted(pm, s);
    case Crash => CrashAccounted(pm, s);
    case Bread(_, _) => BufferAccounted(pm, s, st);
    case Modify(_, _, _) => BufferAccounted(pm, s, st);
    case Brelse(_, _) => BufferAccounted(pm, s, st);
    case Evict(_) => BufferAccounted(pm, s, st);
    case LogWrite(p) => LogWriteAccounted(pm, s, p);
    case _ => OpAccounted(pm, s, st);
  }

  lemma {:induction false} RunAccounted(pm: Params, s: State, steps: seq<Step>)
    requires Accounted(pm, s) && CanRun(pm, s, steps)
    ensures Accounted(pm, Run(pm, s, steps))
    decreases |steps|
  {
    hide Accounted, Do, Enabled;
    if steps != [] {
      StepAccounted(pm, s, steps[0]);
      RunAccounted(pm, Do(pm, s, steps[0]), steps[1..]);
    }
  }

  lemma AccountedFits(pm: Params, s: State)
    requires Accounted(pm, s)
    ensures |s.lh| <= LOGSIZE
  {
    LogFits(s.lh, s.outstanding, s.procs, s.phase != Running);
  }

  // Runs whose commits have room

  /** Every write_log of the run begins with a list that has room in the log area. */
  ghost predicate FittingRun(pm: Params, s: State, steps: seq<Step>)
    requires CanRun(pm, s, steps)
    decreases |steps|
  {
    steps == [] || (Fitting(pm, s, steps[0]) && FittingRun(pm, Do(pm, s, steps[0]), steps[1..]))
  }

  /** A log larger than LOGSIZE always has room. */
  lemma {:induction false} LargeLogFits(pm: Params, s: State, steps: seq<Step>)
    requires Accounted(pm, s) && CanRun(pm, s, steps) && pm.size > LOGSIZE
    ensures FittingRun(pm, s, steps)
    decreases |steps|
  {
    hide Accounted, Do, Enabled;
    if steps != [] {
      AccountedFits(pm, s);
      StepAccounted(pm, s, steps[0]);
      LargeLogFits(pm, Do(pm, s, steps[0]), steps[1..]);
    }
  }

  /** At most one process is between log_write's capacity test and its critical section. */
  ghost predicate OneChecked(procs: seq<Proc>) {
    forall p, q | 0 <= p < |procs| && 0 <= q < |procs| && procs[p].Checked? && procs[q].Checked? :: p == q
  }

  ghost predicate RaceFree(pm: Params, s: State, steps: seq<Step>)
    requires CanRun(pm, s, steps)
    decreases |steps|
  {
    OneChecked(s.procs) && (steps == [] || RaceFree(pm, Do(pm, s, steps[0]), steps[1..]))
  }

  /** There is room for the list, for the one on disk, and for whoever has passed the test. */
  ghost predicate Room(pm: Params, s: State) {
    && InRange(s.disk, pm.start) && |HeadList(s.disk[pm.start])| < pm.size && |s.lh| < pm.size
    && forall p | 0 <= p < |s.procs| && s.procs[p].Checked? :: |s.lh| < pm.size - 1
  }

  lemma OpRoom(pm: Params, s: State, st: Step)
    requires Room(pm, s) && Enabled(pm, s, st) && OneChecked(s.procs) && !st.Commit? && !st.Recover?
    ensures Room(pm, Do(pm, s, st))
  {
    hide HeadList;
  }

  lemma DiskRoom(pm: Params, s: State, st: Step)
    requires Accounted(pm, s) && Room(pm, s) && Enabled(pm, s, st) && (st.Commit? || st.Recover?)
    ensures Room(pm, Do(pm, s, st))
  {
    hide HeadList, PutHead, Reserved, Distinct;
    if s.phase == CommitHead { HeadAccounted(pm, s, s.lh, Install(0)); }
    if s.phase == ClearHead || s.phase == RecoverClear { HeadAccounted(pm, s, [], Running); }
    if s.phase == ReadHead { ReadAccounted(pm, s); }
    if (s.phase.Install? || s.phase.Reinstall?) && s.phase.i < |s.lh| { HomeNotHeader(pm, s, s.phase.i); }
    HeadKept(pm, s);
    var t := Do(pm, s, st);
    QuietNobody(pm, s);
    assert t.procs == s.procs;
  }

  lemma HeadKept(pm: Params, s: State)
    requires InRange(s.disk, pm.start)
    ensures forall lh :: PutHead(pm, s, lh).procs == s.procs && PutHead(pm, s, lh).lh == lh && |PutHead(pm, s, lh).disk| == |s.disk|
  {
  }

  lemma QuietNobody(pm: Params, s: State)
    requires Accounted(pm, s) && s.phase != Running
    ensures forall p | 0 <= p < |s.procs| :: s.procs[p].Idle?
  {
    OpsZero(s.procs);
  }

  lemma StepRoom(pm: Params, s: State, st: Step)
    requires Accounted(pm, s) && Room(pm, s) && Enabled(pm, s, st) && (pm.size == 1 || OneChecked(s.procs))
    ensures Accounted(pm, Do(pm, s, st)) && Room(pm, Do(pm, s, st))
  {
    hide Accounted, Do, Enabled, HeadList;
    StepAccounted(pm, s, st);
    if st.Commit? || st.Recover? {
      DiskRoom(pm, s, st);
    } else {
      OpRoom(pm, s, st);
    }
  }

  /** Whatever the log's size: as long as the test and the append of one log_write do not
      overlap another's, every commit has room.  A log of the header alone lets nobody pass
      the test. */
  lemma {:induction false} RaceFreeFits(pm: Params, s: State, steps: seq<Step>)
    requires Accounted(pm, s) && Room(pm, s) && CanRun(pm, s, steps) && (pm.size == 1 || RaceFree(pm, s, steps))
    ensures FittingRun(pm, s, steps)
    decreases |steps|
  {
    hide Accounted, Do, Enabled, HeadList;
    if steps != [] {
      StepRoom(pm, s, steps[0]);
      RaceFreeFits(pm, Do(pm, s, steps[0]), steps[1..]);
    }
  }

  lemma {:induction false} RoomRun(pm: Params, s: State, steps: seq<Step>)
    requires Accounted(pm, s) && Room(pm, s) && CanRun(pm, s, steps) && pm.size == 1
    ensures |Run(pm, s, steps).lh| < pm.size
    decreases |steps|
  {
    hide Accounted, Do, Enabled, HeadList;
    if steps != [] {
      StepRoom(pm, s, steps[0]);
      RoomRun(pm, Do(pm, s, steps[0]), steps[1..]);
    }
  }

  lemma BootRoom(pm: Params, init: seq<Block>, s: State)
    requires Boot(pm, init, s)
    ensures Room(pm, s)
  {
    HeadFits(pm, s.disk, init);
  }
}
