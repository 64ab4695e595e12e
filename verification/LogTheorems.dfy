/**
 What the log promises about whole runs: group commits are atomic under crashes and never
 lost, reads are coherent, and the exact condition under which log_write never panics.
 */
module LogTheorems {
  import opened LogMachine
  import opened LogSafety
  import opened LogCrash
  import opened LogBudget

  // Crash atomicity

  lemma BootInv(pm: Params, init: seq<Block>, s: State)
    requires Boot(pm, init, s)
    ensures Inv(pm, init, s)
  {
    SumsIdle(pm.nproc);
    assert s.hist[..0] == [];
  }

  lemma {:induction false} RunKeeps(pm: Params, init: seq<Block>, s: State, steps: seq<Step>)
    requires Inv(pm, init, s) && CanRun(pm, s, steps) && FittingRun(pm, s, steps)
    ensures Inv(pm, init, Run(pm, s, steps))
    decreases |steps|
  {
    hide Inv, Enabled, Do, Fitting;
    if steps != [] {
      StepKeeps(pm, init, s, steps[0]);
      RunKeeps(pm, init, Do(pm, s, steps[0]), steps[1..]);
    }
  }

  /** k rounds of install_trans put k blocks home and touch nothing else. */
  lemma InstalledIs(pm: Params, d: seq<Block>, img: seq<Block>, k: nat)
    requires pm.Valid() && |d| == |img| == pm.nblocks && DiskGood(pm, d, img)
    requires k <= |HeadList(d[pm.start])|
    ensures var lh := HeadList(d[pm.start]); var r := Installed(pm, d, lh, k);
      && (forall b | 0 <= b < |d| && b !in lh :: r[b] == d[b])
      && (forall j | 0 <= j < k :: r[lh[j]] == img[lh[j]])
  {
    hide HeadOk, HeadList, Installed;
    InstalledOne(pm, d, img, HeadList(d[pm.start]), k);
  }

  lemma {:induction false} InstalledOne(pm: Params, d: seq<Block>, img: seq<Block>, lh: seq<int>, k: nat)
    requires pm.Valid() && |d| == |img| == pm.nblocks && k <= |lh| < pm.size && Distinct(lh)
    requires forall j | 0 <= j < |lh| :: pm.Home(lh[j]) && d[pm.start + 1 + j] == img[lh[j]]
    ensures var r := Installed(pm, d, lh, k);
      && (forall b | 0 <= b < |d| && b !in lh :: r[b] == d[b])
      && (forall j | 0 <= j < k :: pm.Home(lh[j]) && r[lh[j]] == img[lh[j]])
  {
    if k > 0 {
      InstalledOne(pm, d, img, lh, k - 1);
      var r := Installed(pm, d, lh, k - 1);
      var last := lh[k - 1];
      assert pm.start + k !in lh;
      assert r[pm.start + k] == d[pm.start + 1 + (k - 1)] == img[last];
    }
  }

  /** recover_from_log turns a good disk into its image and empties the log. */
  lemma RecoveryRestores(pm: Params, d: seq<Block>, img: seq<Block>)
    requires pm.Valid() && |d| == |img| == pm.nblocks && DiskGood(pm, d, img)
    ensures SameHome(pm, Recovered(pm, d), img)
    ensures HeadList(Recovered(pm, d)[pm.start]) == []
    ensures DiskGood(pm, Recovered(pm, d), img)
  {
    var lh := HeadList(d[pm.start]);
    InstalledIs(pm, d, img, |lh|);
    HeadRoundTrip(Installed(pm, d, lh, |lh|)[pm.start], []);
    forall b | pm.Home(b) ensures Recovered(pm, d)[b] == img[b] {
      if b in lh { var j :| 0 <= j < |lh| && lh[j] == b; }
    }
  }

  /** Which runs on a log of a given size have room for every commit: all of them on a log
      larger than LOGSIZE or of the header alone, and on any log those in which no log_write
      overtakes another between its test and its append. */
  lemma RunsFit(pm: Params, init: seq<Block>, boot: State, steps: seq<Step>)
    requires Boot(pm, init, boot) && CanRun(pm, boot, steps)
    requires pm.size > LOGSIZE || pm.size == 1 || RaceFree(pm, boot, steps)
    ensures FittingRun(pm, boot, steps)
  {
    BootAccounted(pm, init, boot);
    BootRoom(pm, init, boot);
    hide Accounted, Room;
    if pm.size > LOGSIZE {
      LargeLogFits(pm, boot, steps);
    } else {
      RaceFreeFits(pm, boot, steps);
    }
  }

  /** Whatever step a run has reached, recovering the disk as it stands gives the state after a
      prefix of the history that is closed under operations and holds every acknowledged
      commit.  The reached step may itself lie inside a commit or inside a recovery. */
  lemma CrashAtomicity(pm: Params, init: seq<Block>, boot: State, steps: seq<Step>)
    requires Boot(pm, init, boot) && CanRun(pm, boot, steps) && FittingRun(pm, boot, steps)
    ensures var s := Run(pm, boot, steps);
      && s.acked <= s.durable <= |s.hist|
      && Open(s.hist[..s.durable]) == {}
      && |s.disk| == pm.nblocks
      && SameHome(pm, Recovered(pm, s.disk), Apply(init, s.hist[..s.durable]))
  {
    BootInv(pm, init, boot);
    RunKeeps(pm, init, boot, steps);
    var s := Run(pm, boot, steps);
    RecoveryRestores(pm, s.disk, DurableImage(init, s));
  }

  // Acknowledgement

  /** No operation is open and no commit or recovery is under way. */
  ghost predicate Quiet(s: State) {
    !s.panicked && s.phase == Running && s.outstanding == 0
  }

  /** n is how long the history was when the machine last started. */
  ghost predicate AckOk(s: State, n: nat) {
    && s.durable <= |s.hist|
    && (Quiet(s) || Recovering(s) ==> s.durable == |s.hist| && (s.acked == |s.hist| || |s.hist| == n))
  }

  lemma StepAcks(pm: Params, s: State, st: Step, n: nat)
    requires Accounted(pm, s) && AckOk(s, n) && Enabled(pm, s, st)
    ensures AckOk(Do(pm, s, st), if st.Crash? then |Do(pm, s, st).hist| else n)
  {
    hide HeaderOk, HeldHome, AllHome;
    OpsZero(s.procs);
  }

  /** The history's length when the machine last started. */
  ghost function LastStart(pm: Params, s: State, steps: seq<Step>, n: nat): nat
    requires CanRun(pm, s, steps)
    decreases |steps|
  {
    if steps == [] then n
    else
      var t := Do(pm, s, steps[0]);
      LastStart(pm, t, steps[1..], if steps[0].Crash? then |t.hist| else n)
  }

  lemma {:induction false} RunAcks(pm: Params, s: State, steps: seq<Step>, n: nat)
    requires Accounted(pm, s) && AckOk(s, n) && CanRun(pm, s, steps)
    ensures AckOk(Run(pm, s, steps), LastStart(pm, s, steps, n))
    decreases |steps|
  {
    hide Accounted, Do, Enabled, AckOk;
    if steps != [] {
      var t := Do(pm, s, steps[0]);
      StepAccounted(pm, s, steps[0]);
      StepAcks(pm, s, steps[0], n);
      RunAcks(pm, t, steps[1..], if steps[0].Crash? then |t.hist| else n);
    }
  }

  /** Whenever no operation is open and nothing is being committed, everything that ever ended
      is on disk, and acknowledged if anything ended since the machine last started. */
  lemma QuietAcked(pm: Params, init: seq<Block>, boot: State, steps: seq<Step>)
    requires Boot(pm, init, boot) && CanRun(pm, boot, steps) && Quiet(Run(pm, boot, steps))
    ensures var s := Run(pm, boot, steps);
      s.durable == |s.hist| && (s.acked == |s.hist| || |s.hist| == LastStart(pm, boot, steps, 0))
  {
    hide Accounted, Do, Enabled;
    BootAccounted(pm, init, boot);
    RunAcks(pm, boot, steps, 0);
  }

  // Commit and recovery come to an end

  ghost predicate NobodyHolds(cache: map<int, Buf>) {
    forall b | b in cache :: cache[b].holder == Free
  }

  /** Steps that a commit or a recovery still has to take. */
  ghost function StepsLeft(s: State): int {
    match s.phase
    case WriteLog(i) => 2 * |s.lh| - i + 5
    case CommitHead => |s.lh| + 4
    case Install(i) => |s.lh| - i + 3
    case ClearHead => 2
    case Committed => 1
    case ReadHead => LOGSIZE + 3
    case Reinstall(i) => |s.lh| - i + 2
    case RecoverClear => 1
    case Running => 0
  }

  /** The step the commit or the recovery takes by itself. */
  function Onward(s: State): Step {
    if Committing(s) then Commit else Recover
  }

  lemma CanGoOn(pm: Params, init: seq<Block>, s: State)
    requires Inv(pm, init, s) && !s.panicked && NobodyHolds(s.cache) && s.phase != Running
    requires s.phase.WriteLog? ==> |s.lh| < pm.size
    ensures Enabled(pm, s, Onward(s)) && Fitting(pm, s, Onward(s)) && 0 < StepsLeft(s)
  {
  }

  /** What of the invariant matters to the counting. */
  ghost predicate Counted(pm: Params, s: State) {
    match s.phase
    case WriteLog(i) => i <= |s.lh|
    case Install(i) => i <= |s.lh|
    case Reinstall(i) => i <= |s.lh|
    case Committed => s.lh == []
    case ReadHead => InRange(s.disk, pm.start) && |HeadList(s.disk[pm.start])| <= LOGSIZE && s.cache == map[]
    case _ => true
  }

  lemma InvCounted(pm: Params, init: seq<Block>, s: State)
    requires Inv(pm, init, s)
    ensures Counted(pm, s)
  {
  }

  ghost predicate Onto(s: State, t: State) {
    && StepsLeft(t) < StepsLeft(s) && NobodyHolds(t.cache) && !t.panicked && t.hist == s.hist && t.outstanding == s.outstanding
    && (t.phase.WriteLog? ==> s.phase.WriteLog? && t.lh == s.lh)
    && (Committing(t) ==> Committing(s))
    && (t.phase == Running ==> t.lh == [] && (Committing(s) ==> t.acked == t.durable == |t.hist|))
    && (t.phase != Running ==> (Committing(t) <==> Committing(s)))
  }

  lemma CopyFree(s: State, src: int, dst: int)
    requires NobodyHolds(s.cache) && InRange(s.disk, src) && InRange(s.disk, dst)
    ensures NobodyHolds(CopyBlock(s, src, dst).cache)
  {
  }

  lemma HeadFree(pm: Params, s: State, lh: seq<int>)
    requires NobodyHolds(s.cache) && InRange(s.disk, pm.start)
    ensures NobodyHolds(PutHead(pm, s, lh).cache)
  {
  }

  lemma CommitGoesOn(pm: Params, s: State)
    requires Counted(pm, s) && NobodyHolds(s.cache) && Enabled(pm, s, Commit)
    ensures Onto(s, Do(pm, s, Commit))
  {
    hide NobodyHolds, WithHead;
    match s.phase
    case WriteLog(i) => if i < |s.lh| { CopyFree(s, s.lh[i], pm.start + 1 + i); }
    case CommitHead => HeadFree(pm, s, s.lh);
    case Install(i) => if i < |s.lh| { CopyFree(s, pm.start + 1 + i, s.lh[i]); }
    case ClearHead => HeadFree(pm, s, []);
    case Committed =>
  }

  lemma RecoverGoesOn(pm: Params, s: State)
    requires Counted(pm, s) && NobodyHolds(s.cache) && Enabled(pm, s, Recover)
    ensures Onto(s, Do(pm, s, Recover))
  {
    hide NobodyHolds, WithHead, HeadList;
    match s.phase
    case ReadHead =>
    case Reinstall(i) => if i < |s.lh| { CopyFree(s, pm.start + 1 + i, s.lh[i]); }
    case RecoverClear => HeadFree(pm, s, []);
  }

  /** A commit or a recovery that nobody gets in the way of comes to an end: the log is empty, and
      after a commit everything is durable and acknowledged. */
  lemma {:induction false} Finishes(pm: Params, init: seq<Block>, s: State) returns (steps: seq<Step>)
    requires Inv(pm, init, s) && !s.panicked && NobodyHolds(s.cache) && s.phase != Running
    requires s.phase.WriteLog? ==> |s.lh| < pm.size
    ensures CanRun(pm, s, steps) && |steps| <= StepsLeft(s) && forall i | 0 <= i < |steps| :: steps[i] == Commit || steps[i] == Recover
    ensures var t := Run(pm, s, steps);
      && t.phase == Running && t.lh == [] && t.hist == s.hist && !t.panicked
      && (Committing(s) ==> t.acked == t.durable == |t.hist|)
    decreases StepsLeft(s)
  {
    hide Inv, Enabled, Do, StepsLeft, NobodyHolds, Fitting, Counted;
    var st := Onward(s);
    CanGoOn(pm, init, s);
    InvCounted(pm, init, s);
    var t := Do(pm, s, st);
    if Committing(s) { CommitGoesOn(pm, s); } else { RecoverGoesOn(pm, s); }
    if t.phase == Running {
      steps := [st];
      assert CanRun(pm, t, []);
    } else {
      StepKeeps(pm, init, s, st);
      var rest := Finishes(pm, init, t);
      steps := [st] + rest;
      assert steps[1..] == rest;
    }
  }

  // Operations and the durable point

  /** No operation straddles the durable point: its log_writes are all kept or all lost. */
  lemma WholeOperations(pm: Params, init: seq<Block>, s: State, k: nat)
    requires Inv(pm, init, s) && k < |s.hist| && s.hist[k].Write?
    ensures k < s.durable ==> exists j :: k < j < s.durable && s.hist[j] == End(s.hist[k].p)
    ensures k >= s.durable ==> exists j :: s.durable <= j < k && s.hist[j] == Begin(s.hist[k].p)
  {
    var h, p := s.hist, s.hist[k].p;
    if k < s.durable {
      ClosedBefore(h, k, s.durable, p);
    } else {
      OpenedSince(h, s.durable, k, p);
    }
  }

  lemma {:induction false} ClosedBefore(h: seq<Event>, k: nat, d: nat, p: nat)
    requires k < d <= |h| && p in Open(h[..k]) && h[k].Write? && p !in Open(h[..d])
    ensures exists j :: k < j < d && h[j] == End(p)
  {
    assert h[..d][..d - 1] == h[..d - 1] && h[..d][d - 1] == h[d - 1];
    if h[d - 1] != End(p) {
      if d - 1 == k {
        assert false;
      } else {
        ClosedBefore(h, k, d - 1, p);
      }
    }
  }

  lemma {:induction false} OpenedSince(h: seq<Event>, d: nat, k: nat, p: nat)
    requires d <= k <= |h| && p !in Open(h[..d]) && p in Open(h[..k])
    ensures exists j :: d <= j < k && h[j] == Begin(p)
  {
    if d == k {
      assert false;
    } else {
      assert h[..k][..k - 1] == h[..k - 1] && h[..k][k - 1] == h[k - 1];
      if h[k - 1] != Begin(p) { OpenedSince(h, d, k - 1, p); }
    }
  }

  /** What is durable stays durable and stays the same, over any continuation of the run. */
  lemma {:induction false} NeverLost(pm: Params, init: seq<Block>, s: State, steps: seq<Step>)
    requires Inv(pm, init, s) && CanRun(pm, s, steps) && FittingRun(pm, s, steps)
    ensures var t := Run(pm, s, steps);
      && s.acked <= t.acked && s.durable <= t.durable <= |t.hist|
      && s.durable <= |s.hist|
      && t.hist[..s.durable] == s.hist[..s.durable]
    decreases |steps|
  {
    hide Inv, Do, Enabled, Fitting;
    DurableIn(pm, init, s);
    if steps != [] {
      var m := Do(pm, s, steps[0]);
      StepKeeps(pm, init, s, steps[0]);
      DurableGrows(pm, init, s, steps[0]);
      NeverLost(pm, init, m, steps[1..]);
      var t := Run(pm, s, steps);
      assert t.hist[..s.durable] == t.hist[..m.durable][..s.durable];
    }
  }

  lemma DurableIn(pm: Params, init: seq<Block>, s: State)
    requires Inv(pm, init, s)
    ensures s.acked <= s.durable <= |s.hist|
  {
  }

  lemma DurableGrows(pm: Params, init: seq<Block>, s: State, st: Step)
    requires Inv(pm, init, s) && Enabled(pm, s, st) && Inv(pm, init, Do(pm, s, st))
    ensures var m := Do(pm, s, st);
      s.acked <= m.acked && s.durable <= m.durable <= |m.hist| && m.hist[..s.durable] == s.hist[..s.durable]
  {
    hide Reserved, Pinned, DiskGood, Apply, Open, Held, PhaseOk;
  }

  /** bread returns the logged state, through evictions, commits and crashes. */
  lemma ReadsAreCoherent(pm: Params, init: seq<Block>, boot: State, steps: seq<Step>, p: nat, b: int)
    requires Boot(pm, init, boot) && CanRun(pm, boot, steps) && FittingRun(pm, boot, steps)
    requires Enabled(pm, Run(pm, boot, steps), Bread(p, b))
    ensures var s := Run(pm, boot, steps);
      InRange(init, b) && Do(pm, s, Bread(p, b)).cache[b].data == Apply(init, s.hist)[b]
  {
    BootInv(pm, init, boot);
    RunKeeps(pm, init, boot, steps);
    BreadKeeps(pm, init, Run(pm, boot, steps), p, b);
  }

  /** Write-ahead: until the header write, the disk holds nothing of the open transaction,
      while its blocks stay cached and dirty. */
  lemma WriteAhead(pm: Params, init: seq<Block>, s: State)
    requires Inv(pm, init, s) && (s.phase == Running || s.phase.WriteLog? || s.phase.CommitHead?)
    ensures SameHome(pm, s.disk, Apply(init, s.hist[..s.durable]))
    ensures forall b | b in s.lh :: b in s.cache && s.cache[b].dirty &&
              (!s.cache[b].unlogged ==> InRange(init, b) && s.cache[b].data == Apply(init, s.hist)[b])
  {
    hide Reserved, Apply, Open, Held;
    forall b | b in s.lh
      ensures b in s.cache && s.cache[b].dirty &&
              (!s.cache[b].unlogged ==> InRange(init, b) && s.cache[b].data == Apply(init, s.hist)[b])
    {
      var j :| 0 <= j < |s.lh| && s.lh[j] == b;
      assert s.lh[j] in s.cache;
      assert BufOk(pm, Image(init, s), s, b) && Pending(s, b);
    }
  }

  // Reservation

  /** Under every interleaving, and for a log of any size, the log holds distinct blocks,
      together with what the open operations may still add they fit LOGSIZE, and nobody is
      inside an operation during a commit. */
  lemma ReservationHolds(pm: Params, init: seq<Block>, boot: State, steps: seq<Step>)
    requires Boot(pm, init, boot) && CanRun(pm, boot, steps)
    ensures var s := Run(pm, boot, steps);
      && Distinct(s.lh) && 0 <= Slack(s.procs) && |s.lh| <= |s.lh| + Slack(s.procs) <= LOGSIZE
      && s.outstanding == Ops(s.procs) && (Committing(s) ==> s.outstanding == 0)
      && (pm.size > LOGSIZE || pm.size == 1 ==> |s.lh| < pm.size)
  {
    BootAccounted(pm, init, boot);
    RunAccounted(pm, boot, steps);
    var s := Run(pm, boot, steps);
    AccountedSlack(pm, s);
    if pm.size == 1 {
      BootRoom(pm, init, boot);
      RoomRun(pm, boot, steps);
    }
  }

  lemma AccountedSlack(pm: Params, s: State)
    requires Accounted(pm, s)
    ensures 0 <= Slack(s.procs) && |s.lh| + Slack(s.procs) <= LOGSIZE
    ensures forall p | 0 <= p < |s.procs| :: Unused(s.procs[p]) <= Slack(s.procs)
    ensures forall p | 0 <= p < |s.procs| && !s.procs[p].Idle? :: |s.procs[p].used| <= MAXOPBLOCKS
  {
    hide HeaderOk, HeldHome, AllHome, Distinct;
    forall p | 0 <= p < |s.procs| && !s.procs[p].Idle? ensures |s.procs[p].used| <= MAXOPBLOCKS {
      assert ProcOk(s.lh, s.procs[p]);
    }
    SlackBounds(s.procs);
  }

  /** Operations that call log_write only while they have logged fewer than MAXOPBLOCKS blocks. */
  ghost predicate Strict(pm: Params, s: State, steps: seq<Step>)
    requires CanRun(pm, s, steps)
    decreases |steps|
  {
    steps == [] ||
    ((steps[0].Check? ==> |s.procs[steps[0].p].used| < MAXOPBLOCKS) && Strict(pm, Do(pm, s, steps[0]), steps[1..]))
  }

  lemma {:induction false} StrictRunsDoNotPanic(pm: Params, s: State, steps: seq<Step>)
    requires Accounted(pm, s) && pm.size > LOGSIZE && !s.panicked && CanRun(pm, s, steps) && Strict(pm, s, steps)
    ensures !Run(pm, s, steps).panicked
    decreases |steps|
  {
    hide Accounted, Enabled, Do;
    if steps != [] {
      StepAccounted(pm, s, steps[0]);
      StrictStep(pm, s, steps[0]);
      StrictRunsDoNotPanic(pm, Do(pm, s, steps[0]), steps[1..]);
    }
  }

  lemma StrictStep(pm: Params, s: State, st: Step)
    requires Accounted(pm, s) && pm.size > LOGSIZE && !s.panicked && Enabled(pm, s, st)
    requires st.Check? ==> |s.procs[st.p].used| < MAXOPBLOCKS
    ensures !Do(pm, s, st).panicked
  {
    AccountedSlack(pm, s);
    if st.EndOp? { QuietIdle(s, st.p); }
    hide Accounted, Slack;
  }

  /** log_write's capacity test fails exactly when the list holds LOGSIZE blocks or reaches the
      end of the log area; in a list of LOGSIZE blocks every open operation has logged its
      whole budget. */
  lemma CheckPanicsIff(pm: Params, s: State, p: nat, b: int)
    requires Accounted(pm, s) && Enabled(pm, s, Check(p, b))
    ensures Do(pm, s, Check(p, b)).panicked <==> |s.lh| == LOGSIZE || |s.lh| >= pm.size - 1
    ensures |s.lh| == LOGSIZE ==> forall q | 0 <= q < |s.procs| && !s.procs[q].Idle? :: |s.procs[q].used| == MAXOPBLOCKS
  {
    AccountedSlack(pm, s);
    hide Accounted, Slack;
    forall q | |s.lh| == LOGSIZE && 0 <= q < |s.procs| && !s.procs[q].Idle?
      ensures |s.procs[q].used| == MAXOPBLOCKS
    {
      assert Unused(s.procs[q]) <= Slack(s.procs);
    }
  }

  // Buffers

  function LogBlock(pm: Params, i: nat): int {
    pm.start + 1 + i
  }

  ghost function Elements(lh: seq<int>): set<int> {
    set b | b in lh
  }

  /** A set of buffers bget may recycle. */
  ghost predicate Droppable(s: State, drop: set<int>) {
    forall b | b in drop :: b in s.cache && !s.cache[b].dirty && s.cache[b].holder == Free
  }

  /** Without these buffers, and with that of its log block, a round of write_log takes up at
      most n. */
  ghost predicate RoundFits(s: State, drop: set<int>, dst: int, n: nat) {
    Droppable(s, drop) && |s.cache.Keys - drop + {dst}| <= n
  }

  /** In a round of write_log, with nobody holding a buffer, a cache of n buffers can be made to
      hold what the round needs exactly when n exceeds the number of logged blocks. */
  lemma CommitBuffers(pm: Params, init: seq<Block>, s: State, n: nat)
    requires Inv(pm, init, s) && s.phase.WriteLog? && s.phase.i < |s.lh| && pm.size > 1
    requires forall b | b in s.cache :: s.cache[b].holder == Free
    ensures (exists drop :: RoundFits(s, drop, LogBlock(pm, s.phase.i), n)) <==> |s.lh| < n
  {
    hide Inv, Distinct, Elements;
    var dst := LogBlock(pm, s.phase.i);
    LogBlockApart(pm, init, s);
    DirtyLogged(pm, init, s);
    if drop :| RoundFits(s, drop, dst, n) {
      WriteAhead(pm, init, s);
      NeededSize(s.lh, dst, s.cache.Keys - drop + {dst});
    }
    if |s.lh| < n {
      var drop := set b | b in s.cache && b !in s.lh && b != dst;
      ElementCount(s.lh);
      KeptSize(s.lh, dst, s.cache.Keys - drop + {dst});
      assert RoundFits(s, drop, dst, n);
    }
  }

  lemma NeededSize(lh: seq<int>, dst: int, have: set<int>)
    requires Distinct(lh) && dst !in lh && dst in have && forall b | b in lh :: b in have
    ensures |lh| + 1 <= |have|
  {
    hide Distinct;
    ElementCount(lh);
    var need := Elements(lh) + {dst};
    assert |need| == |lh| + 1;
    assert forall b | b in need :: b in have;
    assert have == need + (have - need);
  }

  lemma KeptSize(lh: seq<int>, dst: int, have: set<int>)
    requires Distinct(lh) && dst !in lh && forall b | b in have :: b in lh || b == dst
    ensures |have| <= |lh| + 1
  {
    hide Distinct;
    ElementCount(lh);
    var most := Elements(lh) + {dst};
    assert forall b | b in have :: b in most;
    assert most == have + (most - have);
  }

  lemma DirtyLogged(pm: Params, init: seq<Block>, s: State)
    requires Inv(pm, init, s) && s.phase.WriteLog?
    ensures forall b | b in s.cache && s.cache[b].dirty :: b in s.lh
  {
    hide Reserved, Bracketed, DiskGood, Apply, Open, PhaseOk, Held;
    forall b | b in s.cache && s.cache[b].dirty
      ensures b in s.lh
    {
      assert BufOk(pm, Image(init, s), s, b);
    }
  }

  lemma LogBlockApart(pm: Params, init: seq<Block>, s: State)
    requires Inv(pm, init, s) && s.phase.WriteLog? && s.phase.i < |s.lh| && pm.size > 1
    ensures Distinct(s.lh) && LogBlock(pm, s.phase.i) !in s.lh
  {
    hide DiskGood, Apply, Open, Bracketed, PhaseOk, Coherent, Held;
  }

  lemma CommitKeys(pm: Params, s: State)
    requires s.phase.WriteLog? && s.phase.i < |s.lh| && Enabled(pm, s, Commit)
    ensures Do(pm, s, Commit).cache.Keys == s.cache.Keys + {s.lh[s.phase.i], LogBlock(pm, s.phase.i)}
  {
  }

  lemma {:induction false} ElementCount(lh: seq<int>)
    requires Distinct(lh)
    ensures |Elements(lh)| == |lh|
  {
    if lh != [] {
      var n := |lh| - 1;
      ElementCount(lh[..n]);
      assert Elements(lh) == Elements(lh[..n]) + {lh[n]};
    }
  }

  /** A run of a kernel with n buffers: no state caches more blocks. */
  ghost predicate Bounded(pm: Params, s: State, steps: seq<Step>, n: nat)
    requires CanRun(pm, s, steps)
    decreases |steps|
  {
    |s.cache| <= n && (steps == [] || Bounded(pm, Do(pm, s, steps[0]), steps[1..], n))
  }

  /** With no more buffers than the log has blocks, no commit of too long a list gets past its
      first block: every run keeps to the log area. */
  lemma {:induction false} BoundedFits(pm: Params, init: seq<Block>, s: State, steps: seq<Step>, n: nat)
    requires Inv(pm, init, s) && CanRun(pm, s, steps) && Bounded(pm, s, steps, n) && pm.size > 1 && n <= pm.size
    ensures FittingRun(pm, s, steps)
    decreases |steps|
  {
    hide Inv, Do, Enabled;
    if steps != [] {
      var m := Do(pm, s, steps[0]);
      assert |m.cache| <= n;
      if steps[0].Commit? && s.phase == WriteLog(0) && s.lh != [] {
        LogBlockApart(pm, init, s);
        WriteAhead(pm, init, s);
        CommitKeys(pm, s);
        NeededSize(s.lh, LogBlock(pm, 0), m.cache.Keys);
      }
      StepKeeps(pm, init, s, steps[0]);
      BoundedFits(pm, init, m, steps[1..], n);
    }
  }
}
