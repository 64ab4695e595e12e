/**
 The logging layer (kernel/log.c) over the buffer cache (kernel/bio.c), as a machine whose
 steps are the critical sections and the single-block disk writes of the source.  Any number
 of processes interleave; a crash may happen between any two steps, also during recovery.
 */
module LogMachine {

  const MAXOPBLOCKS := 10
  const LOGSIZE := 3 * MAXOPBLOCKS
  const WORDS := 128  // BSIZE / sizeof(int)

  type Block = b: seq<int> | |b| == WORDS witness seq(WORDS, _ => 0)

  /** Where the log lies, how long it and the disk are, and how many processes there are. */
  datatype Params = Params(start: nat, size: nat, nblocks: nat, nproc: nat) {
    ghost predicate Valid() {
      0 < size && start + size <= nblocks
    }

    /** Logged blocks lie outside the log area. */
    predicate Home(b: int) {
      0 <= b < nblocks && !(start <= b < start + size)
    }
  }

  /** struct logheader as it lies in a block: n, then block[0..n]. */
  function HeadList(b: Block): seq<int> {
    if HeadOk(b) then b[1..1 + b[0]] else []
  }

  predicate HeadOk(b: Block) {
    0 <= b[0] <= LOGSIZE
  }

  /** write_head overwrites n and the first n entries of the header block it read. */
  function WithHead(prev: Block, lh: seq<int>): Block {
    if |lh| < WORDS then [|lh|] + lh + prev[1 + |lh|..] else prev
  }

  // Machine state

  datatype Holder = Free | By(p: nat)

  /** A cached block.  `unlogged` marks data changed since the last log_write. */
  datatype Buf = Buf(data: Block, dirty: bool, holder: Holder, unlogged: bool)

  /** `used` is the set of blocks the operation has logged.  Checked is between log_write's
      capacity test, made without the lock, and its critical section. */
  datatype Proc = Idle | InOp(used: set<int>) | Checked(used: set<int>, b: int)

  datatype Phase =
    | Running
    | WriteLog(i: nat) | CommitHead | Install(i: nat) | ClearHead | Committed
    | ReadHead | Reinstall(i: nat) | RecoverClear

  /** What operations did, in the order of the critical sections. */
  datatype Event = Begin(p: nat) | Write(p: nat, b: int, data: Block) | End(p: nat)

  /** `hist`, `durable` and `acked` are history variables: hist[..durable] is what the disk
      holds, hist[..acked] is what some returned end_op has committed. */
  datatype State = State(
    disk: seq<Block>,
    cache: map<int, Buf>,
    lh: seq<int>,
    outstanding: nat,
    procs: seq<Proc>,
    phase: Phase,
    panicked: bool,
    hist: seq<Event>,
    durable: nat,
    acked: nat)

  datatype Step =
    | Bread(p: nat, b: int)
    | Modify(p: nat, b: int, data: Block)
    | Check(p: nat, b: int)
    | LogWrite(p: nat)
    | Brelse(p: nat, b: int)
    | Evict(b: int)
    | BeginOp(p: nat)
    | EndOp(p: nat)
    | Commit
    | Crash
    | Recover

  // Steps

  predicate Committing(s: State) {
    s.phase.WriteLog? || s.phase.CommitHead? || s.phase.Install? || s.phase.ClearHead? || s.phase.Committed?
  }

  predicate Recovering(s: State) {
    s.phase.ReadHead? || s.phase.Reinstall? || s.phase.RecoverClear?
  }

  predicate Holds(s: State, p: nat, b: int) {
    b in s.cache && s.cache[b].holder == By(p)
  }

  predicate Unheld(s: State, b: int) {
    b in s.cache ==> s.cache[b].holder == Free
  }

  predicate InRange(d: seq<Block>, b: int) {
    0 <= b < |d|
  }

  function Put(d: seq<Block>, b: int, x: Block): seq<Block> {
    if InRange(d, b) then d[b := x] else d
  }

  /** The buffer bread returns: the cached one, or a fresh clean one read from the disk. */
  function Fetch(s: State, b: int): Buf
    requires InRange(s.disk, b)
  {
    if b in s.cache then s.cache[b] else Buf(s.disk[b], false, Free, false)
  }

  /** memmove from block `src` to block `dst`, then bwrite of `dst`. */
  function CopyBlock(s: State, src: int, dst: int): State
    requires InRange(s.disk, src) && InRange(s.disk, dst)
  {
    var from := Fetch(s, src);
    s.(disk := s.disk[dst := from.data],
       cache := s.cache[src := from][dst := Buf(from.data, false, Free, false)])
  }

  /** write_head: read the header block, overlay n and block[], bwrite. */
  function PutHead(pm: Params, s: State, lh: seq<int>): State
    requires InRange(s.disk, pm.start)
  {
    var b := WithHead(Fetch(s, pm.start).data, lh);
    s.(disk := s.disk[pm.start := b], cache := s.cache[pm.start := Buf(b, false, Free, false)], lh := lh)
  }

  /** Both copy loops can run only when nobody else holds the two buffers. */
  predicate CanCopy(s: State, src: int, dst: int) {
    InRange(s.disk, src) && InRange(s.disk, dst) && Unheld(s, src) && Unheld(s, dst)
  }

  predicate Full(pm: Params, n: nat) {
    n >= LOGSIZE || n >= pm.size - 1
  }

  predicate Enabled(pm: Params, s: State, st: Step) {
    match st
    case Crash => true
    case Recover =>
      !s.panicked && InRange(s.disk, pm.start) &&
      (match s.phase
       case ReadHead => true
       case Reinstall(i) => i < |s.lh| ==> CanCopy(s, pm.start + 1 + i, s.lh[i])
       case RecoverClear => true
       case _ => false)
    case Commit =>
      !s.panicked && InRange(s.disk, pm.start) &&
      (match s.phase
       case WriteLog(i) => i < |s.lh| ==> CanCopy(s, s.lh[i], pm.start + 1 + i)
       case CommitHead => true
       case Install(i) => i < |s.lh| ==> CanCopy(s, pm.start + 1 + i, s.lh[i])
       case ClearHead => true
       case Committed => true
       case _ => false)
    case Bread(p, b) =>
      !s.panicked && !Recovering(s) && p < |s.procs| && pm.Home(b) && InRange(s.disk, b) && Unheld(s, b)
    case Modify(p, b, _) =>
      !s.panicked && !Recovering(s) && p < |s.procs| && s.procs[p].InOp? && Holds(s, p, b)
    case Check(p, b) =>
      !s.panicked && !Recovering(s) && p < |s.procs| && s.procs[p].InOp? && Holds(s, p, b) &&
      |s.procs[p].used + {b}| <= MAXOPBLOCKS
    case LogWrite(p) =>
      !s.panicked && !Recovering(s) && p < |s.procs| && s.procs[p].Checked? && Holds(s, p, s.procs[p].b)
    case Brelse(p, b) =>
      !s.panicked && !Recovering(s) && p < |s.procs| && Holds(s, p, b) && !s.cache[b].unlogged &&
      !(s.procs[p].Checked? && s.procs[p].b == b)
    case Evict(b) =>
      !s.panicked && b in s.cache && s.cache[b].holder == Free && !s.cache[b].dirty
    case BeginOp(p) =>
      !s.panicked && s.phase == Running && p < |s.procs| && s.procs[p] == Idle &&
      |s.lh| + (s.outstanding + 1) * MAXOPBLOCKS <= LOGSIZE
    case EndOp(p) =>
      !s.panicked && !Recovering(s) && p < |s.procs| && s.procs[p].InOp? &&
      forall b | b in s.cache && s.cache[b].holder == By(p) :: !s.cache[b].unlogged
  }

  function DoCommit(pm: Params, s: State): State
    requires Enabled(pm, s, Commit)
  {
    match s.phase
    case WriteLog(i) =>
      if i < |s.lh| then CopyBlock(s, s.lh[i], pm.start + 1 + i).(phase := WriteLog(i + 1))
      else s.(phase := CommitHead)
    case CommitHead => PutHead(pm, s, s.lh).(phase := Install(0), durable := |s.hist|)
    case Install(i) =>
      if i < |s.lh| then CopyBlock(s, pm.start + 1 + i, s.lh[i]).(phase := Install(i + 1))
      else s.(phase := ClearHead)
    case ClearHead => PutHead(pm, s, []).(phase := Committed)
    case Committed => s.(phase := Running, durable := |s.hist|, acked := |s.hist|)
  }

  function DoRecover(pm: Params, s: State): State
    requires Enabled(pm, s, Recover)
  {
    match s.phase
    case ReadHead => s.(lh := HeadList(Fetch(s, pm.start).data), phase := Reinstall(0))
    case Reinstall(i) =>
      if i < |s.lh| then CopyBlock(s, pm.start + 1 + i, s.lh[i]).(phase := Reinstall(i + 1))
      else s.(phase := RecoverClear)
    case RecoverClear => PutHead(pm, s, []).(phase := Running)
  }

  /** log_write's critical section: absorb or append, then pin the buffer. */
  function DoLogWrite(s: State, p: nat): State
    requires p < |s.procs| && s.procs[p].Checked? && Holds(s, p, s.procs[p].b)
  {
    var b := s.procs[p].b;
    s.(lh := if b in s.lh then s.lh else s.lh + [b],
       cache := s.cache[b := s.cache[b].(dirty := true, unlogged := false)],
       procs := s.procs[p := InOp(s.procs[p].used + {b})],
       hist := s.hist + [Write(p, b, s.cache[b].data)])
  }

  /** end_op up to the release of the lock: the last operation starts the commit. */
  function DoEndOp(s: State, p: nat): State
    requires p < |s.procs| && s.procs[p].InOp?
  {
    var n := if s.outstanding > 0 then s.outstanding - 1 else 0;
    var t := s.(outstanding := n, procs := s.procs[p := Idle], hist := s.hist + [End(p)]);
    if Committing(s) then t.(panicked := true)
    else if n == 0 then t.(phase := if |s.lh| > 0 then WriteLog(0) else Committed)
    else t
  }

  function Do(pm: Params, s: State, st: Step): State
    requires Enabled(pm, s, st)
  {
    match st
    case Bread(p, b) => s.(cache := s.cache[b := Fetch(s, b).(holder := By(p))])
    case Modify(p, b, x) => s.(cache := s.cache[b := s.cache[b].(data := x, unlogged := true)])
    case Check(p, b) =>
      if Full(pm, |s.lh|) then s.(panicked := true)
      else s.(procs := s.procs[p := Checked(s.procs[p].used, b)])
    case LogWrite(p) => DoLogWrite(s, p)
    case Brelse(p, b) => s.(cache := s.cache[b := s.cache[b].(holder := Free)])
    case Evict(b) => s.(cache := s.cache - {b})
    case BeginOp(p) =>
      s.(outstanding := s.outstanding + 1, procs := s.procs[p := InOp({})], hist := s.hist + [Begin(p)])
    case EndOp(p) => DoEndOp(s, p)
    case Commit => DoCommit(pm, s)
    case Crash =>
      s.(cache := map[], lh := [], outstanding := 0, procs := seq(|s.procs|, _ => Idle),
         phase := ReadHead, panicked := false,
         hist := if s.durable <= |s.hist| then s.hist[..s.durable] else s.hist)
    case Recover => DoRecover(pm, s)
  }

  /** The runs of the machine: every finite interleaving of enabled steps. */
  ghost predicate CanRun(pm: Params, s: State, steps: seq<Step>)
    decreases |steps|
  {
    steps == [] || (Enabled(pm, s, steps[0]) && CanRun(pm, Do(pm, s, steps[0]), steps[1..]))
  }

  ghost function Run(pm: Params, s: State, steps: seq<Step>): State
    requires CanRun(pm, s, steps)
    decreases |steps|
  {
    if steps == [] then s else Run(pm, Do(pm, s, steps[0]), steps[1..])
  }

  // What a history means

  /** The file-system image after the logged writes of a history. */
  ghost function Apply(init: seq<Block>, h: seq<Event>): (r: seq<Block>)
    ensures |r| == |init|
  {
    if h == [] then init
    else
      var r := Apply(init, h[..|h| - 1]);
      match h[|h| - 1]
      case Write(_, b, x) => Put(r, b, x)
      case _ => r
  }

  /** The operations begun and not ended in a history. */
  ghost function Open(h: seq<Event>): set<nat> {
    if h == [] then {}
    else
      var r := Open(h[..|h| - 1]);
      match h[|h| - 1]
      case Begin(p) => r + {p}
      case End(p) => r - {p}
      case Write(_, _, _) => r
  }

  ghost predicate SameHome(pm: Params, d: seq<Block>, e: seq<Block>)
    requires |d| == |e| == pm.nblocks
  {
    forall b | pm.Home(b) :: d[b] == e[b]
  }

  // Recovery as a function of the disk alone

  /** install_trans: the first k logged blocks copied to their home locations. */
  ghost function Installed(pm: Params, d: seq<Block>, lh: seq<int>, k: nat): (r: seq<Block>)
    requires k <= |lh|
    ensures |r| == |d|
  {
    if k == 0 then d
    else
      var r := Installed(pm, d, lh, k - 1);
      if InRange(r, pm.start + k) then Put(r, lh[k - 1], r[pm.start + k]) else r
  }

  /** recover_from_log run to its end. */
  ghost function Recovered(pm: Params, d: seq<Block>): (r: seq<Block>)
    requires InRange(d, pm.start)
    ensures |r| == |d|
  {
    var lh := HeadList(d[pm.start]);
    var r := Installed(pm, d, lh, |lh|);
    r[pm.start := WithHead(r[pm.start], [])]
  }
}
