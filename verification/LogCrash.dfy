/**
 The commit, crash and recovery steps of the log: each keeps the invariant.
 */
module LogCrash {
  import opened LogMachine
  import opened LogSafety

  // What each disk write of commit and recovery does to the durable image

  /** A write into the log area while the header is empty. */
  lemma LogWriteDisk(pm: Params, d: seq<Block>, img: seq<Block>, k: int, x: Block)
    requires pm.Valid() && |d| == |img| == pm.nblocks && pm.start < k < pm.start + pm.size
    requires DiskGood(pm, d, img) && HeadList(d[pm.start]) == []
    ensures DiskGood(pm, d[k := x], img) && HeadList(d[k := x][pm.start]) == []
  {
  }

  /** The header write: it alone turns the durable image into the new one. */
  lemma CommitDisk(pm: Params, d: seq<Block>, img: seq<Block>, h: Block, lh: seq<int>)
    requires pm.Valid() && |d| == |img| == pm.nblocks && |lh| < pm.size
    requires HeadOk(h) && HeadList(h) == lh && Distinct(lh) && LogCopied(pm, img, d, lh, |lh|)
    requires forall j | 0 <= j < |lh| :: pm.Home(lh[j])
    requires forall b | pm.Home(b) && !InTail(lh, 0, b) :: d[b] == img[b]
    ensures DiskGood(pm, d[pm.start := h], img)
  {
  }

  /** One copy of install_trans. */
  lemma InstallDisk(pm: Params, d: seq<Block>, img: seq<Block>, i: nat)
    requires pm.Valid() && |d| == |img| == pm.nblocks && DiskGood(pm, d, img)
    requires i < |HeadList(d[pm.start])|
    ensures var lh := HeadList(d[pm.start]);
      d[pm.start + 1 + i] == img[lh[i]] && DiskGood(pm, d[lh[i] := img[lh[i]]], img) &&
      HeadList(d[lh[i] := img[lh[i]]][pm.start]) == lh
  {
    hide HeadList, HeadOk, Distinct;
    var lh := HeadList(d[pm.start]);
    var b := lh[i];
    assert pm.Home(b);
    var d2 := d[b := img[b]];
    assert d2[pm.start] == d[pm.start];
    forall j | 0 <= j < |lh|
      ensures pm.Home(lh[j]) && d2[pm.start + 1 + j] == img[lh[j]]
    {
      assert d[pm.start + 1 + j] == img[lh[j]];
    }
  }

  /** Erasing the header once everything is installed. */
  lemma ClearDisk(pm: Params, d: seq<Block>, img: seq<Block>, h: Block)
    requires pm.Valid() && |d| == |img| == pm.nblocks && HeadOk(h) && HeadList(h) == []
    requires SameHome(pm, d, img)
    ensures DiskGood(pm, d[pm.start := h], img) && SameHome(pm, d[pm.start := h], img)
  {
  }

  // Commit

  /** Blocks of the log area are never pending and their buffers mirror the disk. */
  lemma LogBuf(pm: Params, init: seq<Block>, s: State, b: int)
    requires Inv(pm, init, s) && InRange(s.disk, b) && !pm.Home(b)
    ensures !Pending(s, b)
    ensures Fetch(s, b) == Buf(s.disk[b], false, Free, false)
  {
    hide Reserved, Bracketed, DiskGood, PhaseOk, Apply, Open;
    if b in s.cache { assert BufOk(pm, Image(init, s), s, b); }
  }

  lemma QuietHeld(procs: seq<Proc>, cache: map<int, Buf>)
    requires Ops(procs) == 0
    ensures Held(procs, cache)
  {
    OpsZero(procs);
  }

  lemma WriteLogKeeps(pm: Params, init: seq<Block>, s: State)
    requires Inv(pm, init, s) && s.phase.WriteLog? && Enabled(pm, s, Commit) && |s.lh| < pm.size
    ensures Inv(pm, init, Do(pm, s, Commit))
  {
    hide Pinned, DiskGood, Bracketed, Apply, Open, Held, Distinct, Slack;
    var i := s.phase.i;
    LogFits(s.lh, s.outstanding, s.procs, true);
    if i < |s.lh| {
      WriteLogCopy(pm, init, s);
      QuietHeld(s.procs, Do(pm, s, Commit).cache);
    } else {
      SameTail(pm, init, s, s.(phase := CommitHead));
    }
  }

  /** A change of phase that moves no block from pending to installed. */
  lemma SameTail(pm: Params, init: seq<Block>, s: State, t: State)
    requires Inv(pm, init, s) && t == s.(phase := t.phase) && Recovering(t) == Recovering(s)
    requires Done(t.phase, |t.lh|) == Done(s.phase, |s.lh|) && s.phase.ReadHead? == t.phase.ReadHead?
    ensures Pinned(pm, Image(init, t), t)
  {
    hide DiskGood, PhaseOk, Apply, Open, Reserved, Bracketed, Coherent;
    forall y | y in t.cache ensures BufOk(pm, Image(init, t), t, y) {
      assert BufOk(pm, Image(init, s), s, y);
    }
  }

  /** write_log copies exactly the logged contents, because the cached copy is pinned. */
  lemma WriteLogCopy(pm: Params, init: seq<Block>, s: State)
    requires Inv(pm, init, s) && s.phase.WriteLog? && Enabled(pm, s, Commit)
    requires s.phase.i < |s.lh| <= LOGSIZE && |s.lh| < pm.size
    ensures var t := Do(pm, s, Commit);
      && t.disk == s.disk[pm.start + 1 + s.phase.i := Image(init, s)[s.lh[s.phase.i]]]
      && DiskGood(pm, t.disk, DurableImage(init, s))
      && HeadList(t.disk[pm.start]) == []
      && LogCopied(pm, Image(init, s), t.disk, s.lh, s.phase.i + 1)
      && Pinned(pm, Image(init, s), t)
  {
    hide Bracketed, Apply, Open, DiskGood;
    var i, t, img := s.phase.i, Do(pm, s, Commit), Image(init, s);
    var src, dst := s.lh[i], pm.start + 1 + i;
    OpsZero(s.procs);
    assert src in s.cache && BufOk(pm, img, s, src);
    LogWriteDisk(pm, s.disk, DurableImage(init, s), dst, img[src]);
    LogBuf(pm, init, s, dst);
    forall y | y in t.cache ensures BufOk(pm, img, t, y) {
      if y in s.cache { assert BufOk(pm, img, s, y); }
    }
  }

  lemma CommitHeadKeeps(pm: Params, init: seq<Block>, s: State)
    requires Inv(pm, init, s) && s.phase.CommitHead? && Enabled(pm, s, Commit)
    ensures Inv(pm, init, Do(pm, s, Commit))
    ensures DurableImage(init, Do(pm, s, Commit)) == Image(init, s)
  {
    hide DiskGood, Apply, Open, Held, LogCopied, Slack, WithHead;
    var t, img := Do(pm, s, Commit), Image(init, s);
    var h := Fetch(s, pm.start);
    LogFits(s.lh, s.outstanding, s.procs, true);
    HeadRoundTrip(h.data, s.lh);
    assert s.hist[..|s.hist|] == s.hist;
    OpsZero(s.procs);
    QuietHeld(s.procs, t.cache);
    LogBuf(pm, init, s, pm.start);
    CommitDisk(pm, s.disk, img, t.disk[pm.start], s.lh);
    forall y | y in t.cache ensures BufOk(pm, img, t, y) {
      if y in s.cache { assert BufOk(pm, img, s, y); }
    }
    assert Open(s.hist) == {};
  }

  lemma TailStep(lh: seq<int>, i: nat)
    requires i < |lh| && Distinct(lh)
    ensures forall y :: InTail(lh, i, y) <==> InTail(lh, i + 1, y) || y == lh[i]
    ensures !InTail(lh, i + 1, lh[i])
  {
  }

  ghost predicate Installing(pm: Params, s: State, t: State, i: nat) {
    && ((s.phase == Install(i) && t.phase == Install(i + 1)) || (s.phase == Reinstall(i) && t.phase == Reinstall(i + 1)))
    && i < |s.lh| <= LOGSIZE && CanCopy(s, pm.start + 1 + i, s.lh[i])
    && t == CopyBlock(s, pm.start + 1 + i, s.lh[i]).(phase := t.phase)
  }

  /** One round of install_trans, in a commit or in recovery. */
  lemma InstallCopy(pm: Params, init: seq<Block>, s: State, t: State, i: nat)
    requires Inv(pm, init, s) && Installing(pm, s, t, i)
    ensures t.disk == s.disk[s.lh[i] := Image(init, s)[s.lh[i]]]
    ensures DiskGood(pm, t.disk, Image(init, s)) && HeadList(t.disk[pm.start]) == s.lh
    ensures Pinned(pm, Image(init, s), t)
  {
    hide Bracketed, Apply, Open, DiskGood, Slack, Held, Distinct, Pinned, Ops, ProcOk, HeadList, LogCopied;
    var img := Image(init, s);
    assert s.hist[..|s.hist|] == s.hist;
    InstallDisk(pm, s.disk, img, i);
    LogBuf(pm, init, s, pm.start + 1 + i);
    InstallBufs(pm, img, s, t, i);
  }

  lemma InstallBufs(pm: Params, img: seq<Block>, s: State, t: State, i: nat)
    requires Installing(pm, s, t, i) && |s.disk| == |img| == pm.nblocks && Pinned(pm, img, s) && Distinct(s.lh)
    requires Fetch(s, pm.start + 1 + i) == Buf(img[s.lh[i]], false, Free, false)
    requires !pm.Home(pm.start + 1 + i) && s.disk[pm.start + 1 + i] == img[s.lh[i]]
    ensures Pinned(pm, img, t)
  {
    hide Distinct;
    TailStep(s.lh, i);
    forall y | y in t.cache ensures BufOk(pm, img, t, y) {
      if y in s.cache { assert BufOk(pm, img, s, y); }
    }
  }

  lemma InstallKeeps(pm: Params, init: seq<Block>, s: State)
    requires Inv(pm, init, s) && s.phase.Install? && Enabled(pm, s, Commit)
    ensures Inv(pm, init, Do(pm, s, Commit))
  {
    hide Pinned, DiskGood, Bracketed, Apply, Open, Held, Distinct, Slack;
    var i, t := s.phase.i, Do(pm, s, Commit);
    LogFits(s.lh, s.outstanding, s.procs, true);
    assert s.hist[..|s.hist|] == s.hist;
    if i < |s.lh| {
      InstallCopy(pm, init, s, t, i);
      QuietHeld(s.procs, t.cache);
    } else {
      SameTail(pm, init, s, t);
    }
  }

  lemma ClearKeeps(pm: Params, init: seq<Block>, s: State, t: State)
    requires Inv(pm, init, s) && (s.phase.ClearHead? || s.phase.RecoverClear?) && InRange(s.disk, pm.start)
    requires t == PutHead(pm, s, []).(phase := if s.phase.ClearHead? then Committed else Running)
    ensures Inv(pm, init, t)
    ensures SameHome(pm, t.disk, Image(init, t))
  {
    hide DiskGood, Apply, Open, Held, WithHead;
    var img := Image(init, s);
    assert s.hist[..|s.hist|] == s.hist;
    HeadRoundTrip(Fetch(s, pm.start).data, []);
    OpsZero(s.procs);
    LogFits(s.lh, s.outstanding, s.procs, true);
    QuietHeld(s.procs, t.cache);
    forall b | pm.Home(b) ensures s.disk[b] == img[b] {
      assert !Pending(s, b);
    }
    ClearDisk(pm, s.disk, img, t.disk[pm.start]);
    forall y | y in t.cache ensures BufOk(pm, img, t, y) {
      if y in s.cache { assert BufOk(pm, img, s, y); }
    }
  }

  lemma CommittedKeeps(pm: Params, init: seq<Block>, s: State)
    requires Inv(pm, init, s) && s.phase.Committed? && Enabled(pm, s, Commit)
    ensures Inv(pm, init, Do(pm, s, Commit))
  {
    hide Apply, Open, Held, Coherent;
    var t := Do(pm, s, Commit);
    assert s.hist[..|s.hist|] == s.hist;
    OpsZero(s.procs);
    assert Open(s.hist) == {};
    forall b | pm.Home(b) ensures s.disk[b] == Image(init, s)[b] {
      assert !Pending(s, b);
    }
    forall y | y in t.cache ensures BufOk(pm, Image(init, s), t, y) {
      assert BufOk(pm, Image(init, s), s, y);
    }
  }

  // Crash and recovery

  /** The durable part of a history, with every process gone, is still well bracketed. */
  lemma CrashBrackets(hist: seq<Event>, durable: nat, acked: nat, procs: seq<Proc>, idle: seq<Proc>)
    requires Bracketed(hist, durable, acked, procs) && forall p | 0 <= p < |idle| :: idle[p].Idle?
    ensures Bracketed(hist[..durable], durable, acked, idle)
  {
    hide Open;
    var h := hist[..durable];
    assert h[..durable] == h;
    forall k | 0 <= k < |h| && h[k].Write?
      ensures h[k].p in Open(h[..k])
    {
      assert h[..k] == hist[..k];
    }
  }

  /** A machine that has just crashed has nothing reserved, held or cached. */
  lemma CrashIdle(pm: Params, img: seq<Block>, t: State)
    requires t.lh == [] && t.outstanding == 0 && t.cache == map[] && t.phase == ReadHead
    requires |t.disk| == |img| == pm.nblocks && forall p | 0 <= p < |t.procs| :: t.procs[p].Idle?
    requires Ops(t.procs) == 0 && Slack(t.procs) == 0
    ensures Reserved([], 0, t.procs, true) && Held(t.procs, t.cache) && Pinned(pm, img, t)
  {
  }

  lemma CrashKeeps(pm: Params, init: seq<Block>, s: State)
    requires Enabled(pm, s, Crash) && Inv(pm, init, s)
    ensures Inv(pm, init, Do(pm, s, Crash))
    ensures Image(init, Do(pm, s, Crash)) == DurableImage(init, s)
  {
    hide DiskGood, Apply, Open, Bracketed, Pinned, Reserved, Held, Ops, Slack;
    var t := Do(pm, s, Crash);
    SumsIdle(|s.procs|);
    CrashBrackets(s.hist, s.durable, s.acked, s.procs, t.procs);
    DurableInside(s.hist, s.durable, s.acked, s.procs);
    assert t.hist[..t.durable] == t.hist;
    CrashIdle(pm, Image(init, t), t);
  }

  /** A process table at rest keeps its reservations whatever list read_head finds. */
  lemma QuietReserved(lh: seq<int>, lh2: seq<int>, outstanding: int, procs: seq<Proc>)
    requires Reserved(lh, outstanding, procs, true) && Distinct(lh2) && |lh2| <= LOGSIZE
    ensures Reserved(lh2, outstanding, procs, true)
  {
    OpsZero(procs);
    SlackBounds(procs);
    forall p | 0 <= p < |procs| ensures ProcOk(lh2, procs[p]) {
      assert ProcOk(lh, procs[p]);
    }
  }

  lemma HeadFits(pm: Params, d: seq<Block>, img: seq<Block>)
    requires pm.Valid() && |d| == |img| == pm.nblocks && DiskGood(pm, d, img)
    ensures Distinct(HeadList(d[pm.start])) && |HeadList(d[pm.start])| <= LOGSIZE && |HeadList(d[pm.start])| < pm.size
  {
    hide Distinct;
  }

  /** What read_head finds are home blocks, and the blocks it does not name are up to date. */
  lemma HeadPinned(pm: Params, img: seq<Block>, t: State)
    requires pm.Valid() && |t.disk| == |img| == pm.nblocks && DiskGood(pm, t.disk, img)
    requires t.lh == HeadList(t.disk[pm.start]) && t.phase == Reinstall(0) && t.cache == map[]
    ensures Pinned(pm, img, t)
  {
    hide Distinct, HeadList, HeadOk;
    forall b | b in t.lh
      ensures Pending(t, b)
    {
      var j :| 0 <= j < |t.lh| && t.lh[j] == b;
    }
  }

  lemma ReadHeadKeeps(pm: Params, init: seq<Block>, s: State)
    requires Inv(pm, init, s) && s.phase.ReadHead? && Enabled(pm, s, Recover)
    ensures Inv(pm, init, Do(pm, s, Recover))
  {
    hide Apply, Open, Bracketed, Reserved, Pinned, DiskGood, HeadList, Held;
    var t := Do(pm, s, Recover);
    assert s.hist[..|s.hist|] == s.hist;
    HeadPinned(pm, Image(init, s), t);
    HeadFits(pm, s.disk, Image(init, s));
    QuietReserved(s.lh, t.lh, s.outstanding, s.procs);
  }

  lemma ReinstallKeeps(pm: Params, init: seq<Block>, s: State)
    requires Inv(pm, init, s) && s.phase.Reinstall? && Enabled(pm, s, Recover)
    ensures Inv(pm, init, Do(pm, s, Recover))
  {
    hide Pinned, DiskGood, Bracketed, Apply, Open, Held, Distinct, Slack;
    var i, t := s.phase.i, Do(pm, s, Recover);
    LogFits(s.lh, s.outstanding, s.procs, true);
    assert s.hist[..|s.hist|] == s.hist;
    if i < |s.lh| {
      InstallCopy(pm, init, s, t, i);
      QuietHeld(s.procs, t.cache);
    } else {
      SameTail(pm, init, s, t);
    }
  }

  // All steps, all runs

  lemma CommitKeeps(pm: Params, init: seq<Block>, s: State)
    requires Inv(pm, init, s) && Enabled(pm, s, Commit) && (s.phase.WriteLog? ==> |s.lh| < pm.size)
    ensures Inv(pm, init, Do(pm, s, Commit))
  {
    hide Inv;
    match s.phase
    case WriteLog(_) => WriteLogKeeps(pm, init, s);
    case CommitHead => CommitHeadKeeps(pm, init, s);
    case Install(_) => InstallKeeps(pm, init, s);
    case ClearHead => ClearKeeps(pm, init, s, Do(pm, s, Commit));
    case Committed => CommittedKeeps(pm, init, s);
  }

  lemma RecoverKeeps(pm: Params, init: seq<Block>, s: State)
    requires Inv(pm, init, s) && Enabled(pm, s, Recover)
    ensures Inv(pm, init, Do(pm, s, Recover))
  {
    hide Inv;
    match s.phase
    case ReadHead => ReadHeadKeeps(pm, init, s);
    case Reinstall(_) => ReinstallKeeps(pm, init, s);
    case RecoverClear => ClearKeeps(pm, init, s, Do(pm, s, Recover));
  }

  lemma StepKeeps(pm: Params, init: seq<Block>, s: State, st: Step)
    requires Inv(pm, init, s) && Enabled(pm, s, st) && Fitting(pm, s, st)
    ensures Inv(pm, init, Do(pm, s, st))
  {
    assert s.phase.WriteLog? && st.Commit? ==> |s.lh| < pm.size;
    hide Inv, Enabled, Do, Fitting;
    match st
    case Bread(p, b) => BreadKeeps(pm, init, s, p, b);
    case Modify(p, b, x) => ModifyKeeps(pm, init, s, p, b, x);
    case Check(p, b) => CheckKeeps(pm, init, s, p, b);
    case LogWrite(p) => LogWriteKeeps(pm, init, s, p);
    case Brelse(p, b) => BrelseKeeps(pm, init, s, p, b);
    case Evict(b) => EvictKeeps(pm, init, s, b);
    case BeginOp(p) => BeginOpKeeps(pm, init, s, p);
    case EndOp(p) => EndOpKeeps(pm, init, s, p);
    case Crash => CrashKeeps(pm, init, s);
    case Commit => CommitKeeps(pm, init, s);
    case Recover => RecoverKeeps(pm, init, s);
  }
}
