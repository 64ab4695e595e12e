/**
 Crash safety of the log: one invariant, kept by every step of the machine, from which the
 atomicity of group commits, the write-ahead discipline and the coherence of reads follow
 for all runs.
 */
module LogSafety {
  import opened LogMachine

  // The invariant

  ghost function Ops(procs: seq<Proc>): nat {
    if procs == [] then 0 else (if procs[0].Idle? then 0 else 1) + Ops(procs[1..])
  }

  /** Blocks an operation may still append. */
  ghost function Unused(pr: Proc): int {
    if pr.Idle? then 0 else MAXOPBLOCKS - |pr.used|
  }

  ghost function Slack(procs: seq<Proc>): int {
    if procs == [] then 0 else Unused(procs[0]) + Slack(procs[1..])
  }

  ghost predicate Distinct(lh: seq<int>) {
    forall i, j | 0 <= i < j < |lh| :: lh[i] != lh[j]
  }

  /** The reservation invariant. */
  ghost predicate Reserved(lh: seq<int>, outstanding: int, procs: seq<Proc>, quiet: bool) {
    && Distinct(lh)
    && outstanding == Ops(procs)
    && |lh| + Slack(procs) <= LOGSIZE
    && (quiet ==> outstanding == 0)
    && (forall p | 0 <= p < |procs| :: ProcOk(lh, procs[p]))
  }

  ghost predicate ProcOk(lh: seq<int>, pr: Proc) {
    && (!pr.Idle? ==> |pr.used| <= MAXOPBLOCKS && forall b | b in pr.used :: b in lh)
    && (pr.Checked? ==> |pr.used + {pr.b}| <= MAXOPBLOCKS)
  }

  /** A process inside log_write still holds the buffer it logs. */
  ghost predicate Held(procs: seq<Proc>, cache: map<int, Buf>) {
    forall p | 0 <= p < |procs| && procs[p].Checked? ::
      procs[p].b in cache && cache[procs[p].b].holder == By(p)
  }

  /** Operation boundaries: the durable part of the history holds whole operations only. */
  ghost predicate Bracketed(hist: seq<Event>, durable: nat, acked: nat, procs: seq<Proc>) {
    && acked <= durable <= |hist|
    && (forall p :: p in Open(hist) <==> 0 <= p < |procs| && !procs[p].Idle?)
    && Open(hist[..durable]) == {}
    && WritesInside(hist)
  }

  /** Only open operations log blocks. */
  ghost predicate WritesInside(hist: seq<Event>) {
    forall k | 0 <= k < |hist| && hist[k].Write? :: hist[k].p in Open(hist[..k])
  }

  /** How many entries of the in-memory header are already installed. */
  function Done(ph: Phase, n: nat): nat {
    match ph
    case Install(i) => i
    case Reinstall(i) => i
    case ClearHead => n
    case Committed => n
    case RecoverClear => n
    case _ => 0
  }

  ghost predicate InTail(lh: seq<int>, k: nat, b: int) {
    exists j :: k <= j < |lh| && lh[j] == b
  }

  /** Logged and not yet installed. */
  ghost predicate Pending(s: State, b: int) {
    InTail(s.lh, Done(s.phase, |s.lh|), b)
  }

  /** Buffer c of block b, in a system that is recovering or not, with b pending or not. */
  ghost predicate Coherent(pm: Params, img: seq<Block>, d: seq<Block>, procs: seq<Proc>, b: int, c: Buf, recovering: bool, pending: bool)
    requires |d| == |img| == pm.nblocks
  {
    && InRange(d, b)
    && (!pm.Home(b) ==> c == Buf(d[b], false, Free, false))
    && (pm.Home(b) && !c.unlogged ==> c.data == img[b])
    && (pm.Home(b) && c.unlogged ==> c.holder.By? && c.holder.p < |procs| && !procs[c.holder.p].Idle?)
    && (recovering ==> c.holder == Free && !c.unlogged)
    && (c.dirty <==> pending && !recovering)
  }

  ghost predicate BufOk(pm: Params, img: seq<Block>, s: State, b: int)
    requires |s.disk| == |img| == pm.nblocks && b in s.cache
  {
    Coherent(pm, img, s.disk, s.procs, b, s.cache[b], Recovering(s), Pending(s, b))
  }

  /** Write-ahead: blocks of the open transaction are pinned, all others are clean on disk. */
  ghost predicate Pinned(pm: Params, img: seq<Block>, s: State)
    requires |s.disk| == |img| == pm.nblocks
  {
    && (forall b | b in s.cache :: BufOk(pm, img, s, b))
    && (forall j | 0 <= j < |s.lh| :: pm.Home(s.lh[j]))
    && (!Recovering(s) ==> forall j | Done(s.phase, |s.lh|) <= j < |s.lh| :: s.lh[j] in s.cache)
    && (!s.phase.ReadHead? ==> forall b | pm.Home(b) && !Pending(s, b) :: s.disk[b] == img[b])
  }

  /** Recovery would turn this disk into the image `img`. */
  ghost predicate DiskGood(pm: Params, d: seq<Block>, img: seq<Block>)
    requires pm.Valid() && |d| == |img| == pm.nblocks
  {
    var lh := HeadList(d[pm.start]);
    && HeadOk(d[pm.start]) && |lh| < pm.size
    && Distinct(lh)
    && (forall j | 0 <= j < |lh| :: pm.Home(lh[j]) && d[pm.start + 1 + j] == img[lh[j]])
    && (forall b | pm.Home(b) && b !in lh :: d[b] == img[b])
  }

  ghost predicate LogCopied(pm: Params, img: seq<Block>, d: seq<Block>, lh: seq<int>, n: nat)
    requires |d| == |img| == pm.nblocks
  {
    && n <= |lh| && pm.start + n < pm.nblocks
    && forall j | 0 <= j < n :: InRange(img, lh[j]) && d[pm.start + 1 + j] == img[lh[j]]
  }

  ghost predicate PhaseOk(pm: Params, img: seq<Block>, d: seq<Block>, lh: seq<int>, ph: Phase, settled: bool)
    requires pm.Valid() && |d| == |img| == pm.nblocks
  {
    var head := HeadList(d[pm.start]);
    match ph
    case Running => head == []
    case WriteLog(i) => head == [] && LogCopied(pm, img, d, lh, i)
    case CommitHead => head == [] && LogCopied(pm, img, d, lh, |lh|)
    case Install(i) => head == lh && settled && i <= |lh|
    case ClearHead => head == lh && settled
    case Committed => head == [] && lh == []
    case ReadHead => settled && lh == []
    case Reinstall(i) => head == lh && settled && i <= |lh|
    case RecoverClear => head == lh && settled
  }

  ghost function Image(init: seq<Block>, s: State): (r: seq<Block>)
    ensures |r| == |init|
  {
    Apply(init, s.hist)
  }

  ghost function DurableImage(init: seq<Block>, s: State): (r: seq<Block>)
    ensures |r| == |init|
  {
    Apply(init, if s.durable <= |s.hist| then s.hist[..s.durable] else s.hist)
  }

  ghost predicate Sized(pm: Params, init: seq<Block>, s: State) {
    pm.Valid() && |s.disk| == |init| == pm.nblocks && |s.procs| == pm.nproc
  }

  /** The logged blocks have room in the log area, unless write_log has yet to begin. */
  ghost predicate Fits(pm: Params, lh: seq<int>, ph: Phase) {
    |lh| < pm.size || ph == Running || ph == WriteLog(0)
  }

  /** write_log begins only with a list that has room in the log area. */
  ghost predicate Fitting(pm: Params, s: State, st: Step) {
    st.Commit? && s.phase == WriteLog(0) ==> |s.lh| < pm.size
  }

  ghost predicate Inv(pm: Params, init: seq<Block>, s: State) {
    && Sized(pm, init, s)
    && Fits(pm, s.lh, s.phase)
    && Reserved(s.lh, s.outstanding, s.procs, s.phase != Running)
    && Held(s.procs, s.cache)
    && Bracketed(s.hist, s.durable, s.acked, s.procs)
    && Pinned(pm, Image(init, s), s)
    && DiskGood(pm, s.disk, DurableImage(init, s))
    && PhaseOk(pm, Image(init, s), s.disk, s.lh, s.phase, s.durable == |s.hist|)
    && (s.phase.ReadHead? ==> s.cache == map[])
  }

  /** Boot on a disk that recovery turns into `init`. */
  ghost predicate Boot(pm: Params, init: seq<Block>, s: State) {
    && Sized(pm, init, s)
    && DiskGood(pm, s.disk, init)
    && s == State(s.disk, map[], [], 0, seq(pm.nproc, _ => Idle), ReadHead, false, [], 0, 0)
  }

  // Facts about sums over the process table

  lemma {:induction false} SumsUpdate(procs: seq<Proc>, p: nat, pr: Proc)
    requires p < |procs|
    ensures Ops(procs[p := pr]) == Ops(procs) - (if procs[p].Idle? then 0 else 1) + (if pr.Idle? then 0 else 1)
    ensures Slack(procs[p := pr]) == Slack(procs) - Unused(procs[p]) + Unused(pr)
  {
    if p == 0 {
      assert procs[p := pr][1..] == procs[1..];
    } else {
      SumsUpdate(procs[1..], p - 1, pr);
      assert procs[p := pr][1..] == procs[1..][p - 1 := pr];
    }
  }

  lemma {:induction false} SumsIdle(n: nat)
    ensures Ops(seq(n, _ => Idle)) == 0 && Slack(seq(n, _ => Idle)) == 0
  {
    if n > 0 {
      SumsIdle(n - 1);
      assert seq(n, _ => Idle)[1..] == seq(n - 1, _ => Idle);
    }
  }

  lemma {:induction false} OpsZero(procs: seq<Proc>)
    ensures Ops(procs) == 0 <==> forall p | 0 <= p < |procs| :: procs[p].Idle?
  {
    if procs != [] {
      OpsZero(procs[1..]);
      assert forall p | 0 <= p < |procs| :: procs[p].Idle? <==> (if p == 0 then procs[0].Idle? else procs[1..][p - 1].Idle?);
    }
  }

  lemma {:induction false} SlackBounds(procs: seq<Proc>)
    requires forall p | 0 <= p < |procs| && !procs[p].Idle? :: |procs[p].used| <= MAXOPBLOCKS
    ensures 0 <= Slack(procs) <= Ops(procs) * MAXOPBLOCKS
    ensures forall p | 0 <= p < |procs| :: Unused(procs[p]) <= Slack(procs)
  {
    if procs != [] {
      forall p | 0 <= p < |procs[1..]| && !procs[1..][p].Idle?
        ensures |procs[1..][p].used| <= MAXOPBLOCKS
      {
        assert procs[1..][p] == procs[p + 1];
      }
      SlackBounds(procs[1..]);
      forall p | 0 <= p < |procs|
        ensures Unused(procs[p]) <= Slack(procs)
      {
        if p > 0 { assert procs[p] == procs[1..][p - 1]; }
      }
    }
  }

  lemma LogFits(lh: seq<int>, outstanding: nat, procs: seq<Proc>, quiet: bool)
    requires Reserved(lh, outstanding, procs, quiet)
    ensures |lh| <= LOGSIZE
  {
    forall p | 0 <= p < |procs| && !procs[p].Idle? ensures |procs[p].used| <= MAXOPBLOCKS {
      assert ProcOk(lh, procs[p]);
    }
    SlackBounds(procs);
  }

  lemma HeadRoundTrip(prev: Block, lh: seq<int>)
    requires |lh| <= LOGSIZE
    ensures HeadList(WithHead(prev, lh)) == lh && HeadOk(WithHead(prev, lh))
  {
    assert WithHead(prev, lh)[1..1 + |lh|] == lh;
  }

  // Every step keeps the invariant

  /** Steps that change nothing but the cache. */
  lemma CacheStep(pm: Params, init: seq<Block>, s: State, t: State)
    requires Inv(pm, init, s) && t == s.(cache := t.cache)
    requires Held(s.procs, t.cache)
    requires forall b | b in t.cache :: BufOk(pm, Image(init, s), t, b)
    requires !Recovering(s) ==> forall b | b in s.cache && s.cache[b].dirty :: b in t.cache
    requires s.phase.ReadHead? ==> t.cache == map[]
    ensures Inv(pm, init, t)
  {
    hide Reserved, Bracketed, DiskGood, PhaseOk, Apply, Open, Held;
    assert !Recovering(s) ==> forall j | Done(s.phase, |s.lh|) <= j < |s.lh| :: BufOk(pm, Image(init, s), s, s.lh[j]);
  }

  lemma BreadKeeps(pm: Params, init: seq<Block>, s: State, p: nat, b: int)
    requires Inv(pm, init, s) && Enabled(pm, s, Bread(p, b))
    ensures Inv(pm, init, Do(pm, s, Bread(p, b)))
    ensures var c := Do(pm, s, Bread(p, b)).cache[b]; c.data == Image(init, s)[b] && !c.unlogged
  {
    hide Reserved, Bracketed, DiskGood, PhaseOk, Apply, Open;
    var t := Do(pm, s, Bread(p, b));
    forall x | x in t.cache ensures BufOk(pm, Image(init, s), t, x) {
      if x in s.cache { assert BufOk(pm, Image(init, s), s, x); }
    }
    CacheStep(pm, init, s, t);
  }

  lemma ModifyKeeps(pm: Params, init: seq<Block>, s: State, p: nat, b: int, x: Block)
    requires Inv(pm, init, s) && Enabled(pm, s, Modify(p, b, x))
    ensures Inv(pm, init, Do(pm, s, Modify(p, b, x)))
  {
    hide Reserved, Bracketed, DiskGood, PhaseOk, Apply, Open;
    var t := Do(pm, s, Modify(p, b, x));
    forall y | y in t.cache ensures BufOk(pm, Image(init, s), t, y) {
      assert BufOk(pm, Image(init, s), s, y);
    }
    CacheStep(pm, init, s, t);
  }

  lemma BrelseKeeps(pm: Params, init: seq<Block>, s: State, p: nat, b: int)
    requires Inv(pm, init, s) && Enabled(pm, s, Brelse(p, b))
    ensures Inv(pm, init, Do(pm, s, Brelse(p, b)))
  {
    hide Reserved, Bracketed, DiskGood, PhaseOk, Apply, Open;
    var t := Do(pm, s, Brelse(p, b));
    forall y | y in t.cache ensures BufOk(pm, Image(init, s), t, y) {
      assert BufOk(pm, Image(init, s), s, y);
    }
    CacheStep(pm, init, s, t);
  }

  lemma EvictKeeps(pm: Params, init: seq<Block>, s: State, b: int)
    requires Inv(pm, init, s) && Enabled(pm, s, Evict(b))
    ensures Inv(pm, init, Do(pm, s, Evict(b)))
  {
    hide Reserved, Bracketed, DiskGood, PhaseOk, Apply, Open;
    var t := Do(pm, s, Evict(b));
    forall y | y in t.cache ensures BufOk(pm, Image(init, s), t, y) {
      assert BufOk(pm, Image(init, s), s, y);
    }
    CacheStep(pm, init, s, t);
  }

  /** Steps of log_write's test, begin_op and end_op: the disk, the cache and the header stay. */
  lemma OpStep(pm: Params, init: seq<Block>, s: State, t: State)
    requires Inv(pm, init, s) && Sized(pm, init, t)
    requires t.disk == s.disk && t.cache == s.cache && t.lh == s.lh && t.durable == s.durable
    requires Image(init, t) == Image(init, s) && DurableImage(init, t) == DurableImage(init, s)
    requires !Recovering(s) && !Recovering(t) && Done(t.phase, |t.lh|) == Done(s.phase, |s.lh|)
    requires forall b | b in s.cache && s.cache[b].unlogged && s.cache[b].holder.By? && s.cache[b].holder.p < |s.procs| ::
               !t.procs[s.cache[b].holder.p].Idle?
    ensures Pinned(pm, Image(init, t), t) && DiskGood(pm, t.disk, DurableImage(init, t))
  {
    hide Reserved, Bracketed, DiskGood, PhaseOk, Apply, Open, Held;
    forall y | y in t.cache ensures BufOk(pm, Image(init, t), t, y) {
      assert BufOk(pm, Image(init, s), s, y);
    }
  }

  /** Process p changes state: the sums move by what p contributes. */
  lemma ProcStep(lh: seq<int>, outstanding: nat, procs: seq<Proc>, quiet: bool, p: nat, pr: Proc)
    requires Reserved(lh, outstanding, procs, quiet) && p < |procs| && ProcOk(lh, pr)
    requires |lh| + Slack(procs) - Unused(procs[p]) + Unused(pr) <= LOGSIZE
    ensures Reserved(lh, outstanding - (if procs[p].Idle? then 0 else 1) + (if pr.Idle? then 0 else 1), procs[p := pr], false)
  {
    SumsUpdate(procs, p, pr);
  }

  lemma CheckKeeps(pm: Params, init: seq<Block>, s: State, p: nat, b: int)
    requires Inv(pm, init, s) && Enabled(pm, s, Check(p, b))
    ensures Inv(pm, init, Do(pm, s, Check(p, b)))
  {
    hide WritesInside, DiskGood, PhaseOk, Apply, Open, Distinct, Slack;
    var t := Do(pm, s, Check(p, b));
    OpStep(pm, init, s, t);
    OpsZero(s.procs);
    if !t.panicked { ProcStep(s.lh, s.outstanding, s.procs, s.phase != Running, p, t.procs[p]); }
  }

  /** Appending one event leaves the durable part alone. */
  lemma HistoryGrows(init: seq<Block>, s: State, t: State, e: Event)
    requires s.durable <= |s.hist| && t.hist == s.hist + [e] && t.durable == s.durable
    ensures t.hist[..t.durable] == s.hist[..s.durable]
    ensures DurableImage(init, t) == DurableImage(init, s)
    ensures !e.Write? ==> Image(init, t) == Image(init, s)
    ensures e.Write? ==> Image(init, t) == Put(Image(init, s), e.b, e.data)
  {
    assert t.hist[..|t.hist| - 1] == s.hist;
    assert t.hist[..t.durable] == s.hist[..s.durable];
  }

  lemma EventBrackets(hist: seq<Event>, durable: nat, acked: nat, procs: seq<Proc>, e: Event, pr: Proc)
    requires Bracketed(hist, durable, acked, procs) && e.p < |procs|
    requires match e case Begin(_) => !pr.Idle? case End(_) => pr.Idle? case Write(_, _, _) => !pr.Idle? && !procs[e.p].Idle?
    ensures Bracketed(hist + [e], durable, acked, procs[e.p := pr])
  {
    var h := hist + [e];
    assert h[..|hist|] == hist;
    assert forall k | 0 <= k <= |hist| :: h[..k] == hist[..k];
  }

  lemma BeginOpKeeps(pm: Params, init: seq<Block>, s: State, p: nat)
    requires Inv(pm, init, s) && Enabled(pm, s, BeginOp(p))
    ensures Inv(pm, init, Do(pm, s, BeginOp(p)))
  {
    hide WritesInside, DiskGood, Apply, Open, Distinct;
    var t := Do(pm, s, BeginOp(p));
    HistoryGrows(init, s, t, Begin(p));
    OpStep(pm, init, s, t);
    SlackBounds(s.procs);
    EventBrackets(s.hist, s.durable, s.acked, s.procs, Begin(p), t.procs[p]);
    ProcStep(s.lh, s.outstanding, s.procs, false, p, InOp({}));
  }

  lemma EndOpKeeps(pm: Params, init: seq<Block>, s: State, p: nat)
    requires Inv(pm, init, s) && Enabled(pm, s, EndOp(p))
    ensures Inv(pm, init, Do(pm, s, EndOp(p)))
    ensures !Do(pm, s, EndOp(p)).panicked
  {
    hide DiskGood, Apply, Held, Pinned, Reserved, Bracketed, PhaseOk;
    var t := Do(pm, s, EndOp(p));
    EndOpReserved(s, p);
    EndOpPhase(pm, Image(init, s), s.disk, s.lh, s.durable == |s.hist|);
    DurableInside(s.hist, s.durable, s.acked, s.procs);
    HistoryGrows(init, s, t, End(p));
    EventBrackets(s.hist, s.durable, s.acked, s.procs, End(p), Idle);
    EndOpHeld(s, p);
    EndOpBufs(pm, init, s, p);
    OpStep(pm, init, s, t);
  }

  /** Nobody ends an operation during a commit, and the last one out leaves nothing outstanding. */
  lemma EndOpReserved(s: State, p: nat)
    requires Reserved(s.lh, s.outstanding, s.procs, s.phase != Running) && p < |s.procs| && s.procs[p].InOp?
    ensures s.phase == Running && s.outstanding > 0
    ensures Reserved(s.lh, s.outstanding - 1, s.procs[p := Idle], s.outstanding == 1)
  {
    hide Distinct, Slack, Ops;
    OpsZero(s.procs);
    assert ProcOk(s.lh, s.procs[p]);
    ProcStep(s.lh, s.outstanding, s.procs, false, p, Idle);
  }

  lemma EndOpPhase(pm: Params, img: seq<Block>, d: seq<Block>, lh: seq<int>, settled: bool)
    requires pm.Valid() && |d| == |img| == pm.nblocks && PhaseOk(pm, img, d, lh, Running, settled)
    ensures forall q :: PhaseOk(pm, img, d, lh, Running, q) && PhaseOk(pm, img, d, lh, WriteLog(0), q)
    ensures forall q :: lh == [] ==> PhaseOk(pm, img, d, lh, Committed, q)
  {
  }

  lemma DurableInside(hist: seq<Event>, durable: nat, acked: nat, procs: seq<Proc>)
    requires Bracketed(hist, durable, acked, procs)
    ensures durable <= |hist|
  {
  }

  lemma EndOpHeld(s: State, p: nat)
    requires Held(s.procs, s.cache) && p < |s.procs|
    ensures Held(s.procs[p := Idle], s.cache)
  {
  }

  /** Whoever holds a changed buffer is still inside its operation afterwards. */
  lemma EndOpBufs(pm: Params, init: seq<Block>, s: State, p: nat)
    requires Inv(pm, init, s) && Enabled(pm, s, EndOp(p))
    ensures forall b | b in s.cache && s.cache[b].unlogged && s.cache[b].holder.By? && s.cache[b].holder.p < |s.procs| ::
              !s.procs[p := Idle][s.cache[b].holder.p].Idle?
  {
    hide Reserved, Bracketed, DiskGood, PhaseOk, Apply, Open, Held, Distinct;
    forall b | b in s.cache && s.cache[b].unlogged && s.cache[b].holder.By? && s.cache[b].holder.p < |s.procs|
      ensures !s.procs[p := Idle][s.cache[b].holder.p].Idle?
    {
      assert BufOk(pm, Image(init, s), s, b);
    }
  }

  /** Lines 224-231 of log_write. */
  lemma LogWriteKeeps(pm: Params, init: seq<Block>, s: State, p: nat)
    requires Inv(pm, init, s) && Enabled(pm, s, LogWrite(p))
    ensures Inv(pm, init, Do(pm, s, LogWrite(p)))
  {
    hide WritesInside, DiskGood, Apply, Open, Slack, Distinct;
    var t := Do(pm, s, LogWrite(p));
    var b := s.procs[p].b;
    var img := Image(init, s);
    OpsZero(s.procs);
    assert BufOk(pm, img, s, b);
    HistoryGrows(init, s, t, Write(p, b, s.cache[b].data));
    EventBrackets(s.hist, s.durable, s.acked, s.procs, Write(p, b, s.cache[b].data), t.procs[p]);
    LogWriteReserved(s, p);
    LogWritePins(pm, init, s, p);
  }

  lemma LogWriteReserved(s: State, p: nat)
    requires Reserved(s.lh, s.outstanding, s.procs, false)
    requires p < |s.procs| && s.procs[p].Checked? && Holds(s, p, s.procs[p].b)
    ensures var t := DoLogWrite(s, p); Reserved(t.lh, t.outstanding, t.procs, false)
  {
    var t := DoLogWrite(s, p);
    var pr := s.procs[p];
    SumsUpdate(s.procs, p, t.procs[p]);
    assert ProcOk(s.lh, pr);
    assert pr.b !in s.lh ==> pr.b !in pr.used;
    forall q | 0 <= q < |t.procs| ensures ProcOk(t.lh, t.procs[q]) {
      assert ProcOk(s.lh, s.procs[q]);
    }
  }

  lemma LogWritePins(pm: Params, init: seq<Block>, s: State, p: nat)
    requires Inv(pm, init, s) && Enabled(pm, s, LogWrite(p)) && s.phase == Running
    requires Image(init, Do(pm, s, LogWrite(p))) == Put(Image(init, s), s.procs[p].b, s.cache[s.procs[p].b].data)
    ensures var t := Do(pm, s, LogWrite(p)); Pinned(pm, Image(init, t), t)
  {
    hide WritesInside, DiskGood, Apply, Open, Slack, Distinct;
    var t := Do(pm, s, LogWrite(p));
    var b := s.procs[p].b;
    var img := Image(init, s);
    assert BufOk(pm, img, s, b);
    forall y ensures Pending(t, y) <==> Pending(s, y) || y == b {
      if b in s.lh {
        var j :| 0 <= j < |s.lh| && s.lh[j] == b;
      } else {
        assert t.lh[|s.lh|] == b;
        assert forall j | 0 <= j < |s.lh| :: t.lh[j] == s.lh[j];
      }
    }
    forall y | y in t.cache ensures BufOk(pm, Image(init, t), t, y) {
      assert BufOk(pm, img, s, y);
    }
  }
}
