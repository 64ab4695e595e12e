/**
 The interrupt-driven disk (kernel/ide.c) used by any number of processes, and the
 synchronous memory disk (kernel/memide.c) it refines.  A step is a stretch with idelock
 held, or a move of the device.
 */
module IdeProtocol {
  type Disk = map<(nat, nat), int>

  function OnDisk(d: Disk, dev: nat, blockno: nat): int {
    if (dev, blockno) in d then d[(dev, blockno)] else 0
  }

  /** holder is the process holding the sleep lock, -1 for none. */
  datatype Buffer = Buffer(valid: bool, dirty: bool, dev: nat, blockno: nat, data: int, holder: int)

  datatype Device = Idle | Busy(dev: nat, blockno: nat, write: bool, data: int) | Ready(got: int)

  /** Inside iderw, waiting for buffer b: `wrote` and `gave` recall its dirty flag and contents
      at the call. */
  datatype Proc = Out | Inside(b: nat, asleep: bool, wrote: bool, gave: int)

  datatype State = State(
    bufs: seq<Buffer>,
    queue: seq<nat>,
    device: Device,
    disk: Disk,
    procs: seq<Proc>,
    requested: seq<nat>,
    completed: seq<nat>)

  datatype Step =
    | Acquire(p: nat, b: nat) | Release(p: nat, b: nat)
    | Touch(p: nat, b: nat, data: int)
    | Recycle(b: nat, dev: nat, blockno: nat)
    | Iderw(p: nat, b: nat)
    | Finish
    | Intr
    | KillWake(p: nat)
    | Resume(p: nat)

  /** binit: every buffer is invalid, unlocked and names no device. */
  ghost predicate Init(s: State) {
    && s.queue == [] && s.device == Idle && s.requested == [] && s.completed == []
    && (forall p | 0 <= p < |s.procs| :: s.procs[p] == Out)
    && (forall b | 0 <= b < |s.bufs| :: Unnamed(s.bufs[b]))
  }

  ghost predicate Unnamed(b: Buffer) {
    !b.valid && !b.dirty && b.dev == 0 && b.blockno == 0 && b.holder == -1
  }

  // The synchronous disk

  /** memide's iderw. */
  function MemIderw(d: Disk, b: Buffer): (r: (Disk, Buffer))
    ensures r.1.valid && !r.1.dirty && r.1.data == OnDisk(r.0, b.dev, b.blockno)
  {
    if b.dirty then (d[(b.dev, b.blockno) := b.data], b.(valid := true, dirty := false))
    else (d, b.(data := OnDisk(d, b.dev, b.blockno), valid := true))
  }

  // The queued disk

  predicate Clean(b: Buffer) {
    b.valid && !b.dirty
  }

  function Issue(b: Buffer): Device {
    Busy(b.dev, b.blockno, b.dirty, if b.dirty then b.data else 0)
  }

  function Completed(b: Buffer, got: int): Buffer {
    b.(data := if b.dirty then b.data else got, valid := true, dirty := false)
  }

  predicate Holds(s: State, p: nat, b: nat) {
    p < |s.procs| && b < |s.bufs| && s.procs[p] == Out && s.bufs[b].holder == p
  }

  predicate Enabled(s: State, st: Step) {
    match st
    case Acquire(p, b) => p < |s.procs| && b < |s.bufs| && s.procs[p] == Out && s.bufs[b].holder == -1
    case Release(p, b) => Holds(s, p, b)
    case Touch(p, b, _) => Holds(s, p, b)
    case Recycle(b, dev, blockno) =>
      b < |s.bufs| && s.bufs[b].holder == -1 && !s.bufs[b].dirty && dev != 0 &&
      forall c | 0 <= c < |s.bufs| && c != b :: s.bufs[c].dev != dev || s.bufs[c].blockno != blockno
    case Iderw(p, b) => Holds(s, p, b) && !Clean(s.bufs[b]) && s.bufs[b].dev != 0
    case Finish => s.device.Busy?
    // One interrupt for each request issued, or none outstanding.
    case Intr => s.queue == [] || (s.device.Ready? && s.queue[0] < |s.bufs|)
    case KillWake(p) => p < |s.procs| && s.procs[p].Inside? && s.procs[p].asleep
    case Resume(p) => p < |s.procs| && s.procs[p].Inside? && !s.procs[p].asleep && s.procs[p].b < |s.bufs|
  }

  function Wake(procs: seq<Proc>, b: nat): (r: seq<Proc>)
    ensures |r| == |procs|
    ensures forall p | 0 <= p < |procs| ::
      r[p] == if procs[p].Inside? && procs[p].b == b then procs[p].(asleep := false) else procs[p]
  {
    seq(|procs|, p requires 0 <= p < |procs| =>
      if procs[p].Inside? && procs[p].b == b then procs[p].(asleep := false) else procs[p])
  }

  function DoIntr(s: State): State
    requires Enabled(s, Intr)
  {
    if s.queue == [] then s else
    var b := s.queue[0];
    var rest := s.queue[1..];
    var bufs := s.bufs[b := Completed(s.bufs[b], s.device.got)];
    s.(bufs := bufs, queue := rest, procs := Wake(s.procs, b), completed := s.completed + [b],
       device := if rest != [] && rest[0] < |bufs| then Issue(bufs[rest[0]]) else Idle)
  }

  function Next(s: State, st: Step): State
    requires Enabled(s, st)
  {
    match st
    case Acquire(p, b) => s.(bufs := s.bufs[b := s.bufs[b].(holder := p)])
    case Release(p, b) => s.(bufs := s.bufs[b := s.bufs[b].(holder := -1)])
    case Touch(p, b, data) => s.(bufs := s.bufs[b := s.bufs[b].(data := data, dirty := true)])
    case Recycle(b, dev, blockno) => s.(bufs := s.bufs[b := s.bufs[b].(dev := dev, blockno := blockno, valid := false)])
    case Iderw(p, b) =>
      s.(queue := s.queue + [b], requested := s.requested + [b],
         device := if s.queue == [] then Issue(s.bufs[b]) else s.device,
         procs := s.procs[p := Inside(b, true, s.bufs[b].dirty, s.bufs[b].data)])
    case Finish =>
      if s.device.write
      then s.(disk := s.disk[(s.device.dev, s.device.blockno) := s.device.data], device := Ready(0))
      else s.(device := Ready(OnDisk(s.disk, s.device.dev, s.device.blockno)))
    case Intr => DoIntr(s)
    case KillWake(p) => s.(procs := s.procs[p := s.procs[p].(asleep := false)])
    case Resume(p) =>
      if Clean(s.bufs[s.procs[p].b]) then s.(procs := s.procs[p := Out])
      else s.(procs := s.procs[p := s.procs[p].(asleep := true)])
  }

  ghost predicate CanRun(s: State, steps: seq<Step>)
    decreases |steps|
  {
    steps == [] || (Enabled(s, steps[0]) && CanRun(Next(s, steps[0]), steps[1..]))
  }

  ghost function Execute(s: State, steps: seq<Step>): State
    requires CanRun(s, steps)
    decreases |steps|
  {
    if steps == [] then s else Execute(Next(s, steps[0]), steps[1..])
  }

  // The invariant

  /** Different blocks, or no block at all. */
  ghost predicate Differ(a: Buffer, b: Buffer) {
    a.dev == b.dev == 0 || a.dev != b.dev || a.blockno != b.blockno
  }

  /** The buffer cache holds a block at most once. */
  ghost predicate Unique(bufs: seq<Buffer>) {
    forall i, j | 0 <= i < j < |bufs| :: Differ(bufs[i], bufs[j])
  }

  /** A queued buffer has work to do, and its holder waits for it. */
  ghost predicate QueueAt(bufs: seq<Buffer>, procs: seq<Proc>, b: nat) {
    b < |bufs| && !Clean(bufs[b]) && bufs[b].dev != 0 && 0 <= bufs[b].holder < |procs| &&
    procs[bufs[b].holder].Inside? && procs[bufs[b].holder].b == b
  }

  ghost predicate QueueOk(bufs: seq<Buffer>, procs: seq<Proc>, queue: seq<nat>) {
    && (forall i | 0 <= i < |queue| :: QueueAt(bufs, procs, queue[i]))
    && (forall i, j | 0 <= i < j < |queue| :: queue[i] != queue[j])
  }

  /** Who is inside iderw holds its buffer.  Asleep means still queued; off the queue means
      done, with buffer and disk agreeing. */
  ghost predicate ProcAt(bufs: seq<Buffer>, queue: seq<nat>, disk: Disk, p: nat, x: Proc) {
    x.Inside? ==>
      && x.b < |bufs| && bufs[x.b].holder == p
      && (x.asleep ==> x.b in queue) && (x.wrote ==> bufs[x.b].data == x.gave)
      && (if x.b in queue then bufs[x.b].dirty == x.wrote
          else Clean(bufs[x.b]) && bufs[x.b].data == OnDisk(disk, bufs[x.b].dev, bufs[x.b].blockno))
  }

  ghost predicate ProcsOk(bufs: seq<Buffer>, queue: seq<nat>, disk: Disk, procs: seq<Proc>) {
    forall p | 0 <= p < |procs| :: ProcAt(bufs, queue, disk, p, procs[p])
  }

  /** The device works on exactly the first request, or on none if there is none. */
  ghost predicate DeviceOk(s: State) {
    if s.queue == [] then s.device == Idle
    else
      var h := s.queue[0];
      h < |s.bufs| &&
      (s.device == Issue(s.bufs[h]) ||
       (s.device.Ready? &&
        (if s.bufs[h].dirty then s.bufs[h].data else s.device.got) == OnDisk(s.disk, s.bufs[h].dev, s.bufs[h].blockno)))
  }

  /** A valid buffer that is not dirty has what the disk has. */
  ghost predicate Coherent(bufs: seq<Buffer>, disk: Disk) {
    forall b | 0 <= b < |bufs| && bufs[b].valid && !bufs[b].dirty :: bufs[b].data == OnDisk(disk, bufs[b].dev, bufs[b].blockno)
  }

  ghost predicate Inv(s: State) {
    && Unique(s.bufs) && Coherent(s.bufs, s.disk) && QueueOk(s.bufs, s.procs, s.queue) && ProcsOk(s.bufs, s.queue, s.disk, s.procs) && DeviceOk(s)
    && s.requested == s.completed + s.queue
  }

  lemma InitInv(s: State)
    requires Init(s)
    ensures Inv(s)
  {
  }

  /** Changing a buffer nobody waits for. */
  lemma SetFree(s: State, b: nat, x: Buffer)
    requires Inv(s) && b < |s.bufs|
    requires s.bufs[b].holder == -1 || (0 <= s.bufs[b].holder < |s.procs| && s.procs[s.bufs[b].holder] == Out)
    requires forall c | 0 <= c < |s.bufs| && c != b :: Differ(s.bufs[c], x)
    requires x.valid && !x.dirty ==> x.data == OnDisk(s.disk, x.dev, x.blockno)
    ensures Inv(s.(bufs := s.bufs[b := x])) && b !in s.queue
  {
    var r := s.bufs[b := x];
    forall i | 0 <= i < |s.queue|
      ensures QueueAt(r, s.procs, s.queue[i]) && s.queue[i] != b
    {
      assert QueueAt(s.bufs, s.procs, s.queue[i]);
    }
    forall p | 0 <= p < |s.procs|
      ensures ProcAt(r, s.queue, s.disk, p, s.procs[p])
    {
      assert ProcAt(s.bufs, s.queue, s.disk, p, s.procs[p]);
    }
    forall i, j | 0 <= i < j < |r|
      ensures Differ(r[i], r[j])
    {
      assert Differ(s.bufs[i], s.bufs[j]);
    }
  }

  lemma HolderKeeps(s: State, st: Step)
    requires Inv(s) && Enabled(s, st) && (st.Acquire? || st.Release? || st.Touch? || st.Recycle?)
    ensures Inv(Next(s, st)) && st.b !in s.queue
  {
    var x := Next(s, st).bufs[st.b];
    forall c | 0 <= c < |s.bufs| && c != st.b
      ensures Differ(s.bufs[c], x)
    {
      assert c < st.b ==> Differ(s.bufs[c], s.bufs[st.b]);
      assert st.b < c ==> Differ(s.bufs[st.b], s.bufs[c]);
    }
    hide Inv;
    SetFree(s, st.b, x);
  }

  lemma IderwKeeps(s: State, p: nat, b: nat)
    requires Inv(s) && Enabled(s, Iderw(p, b))
    ensures Inv(Next(s, Iderw(p, b)))
  {
    var t := Next(s, Iderw(p, b));
    forall i | 0 <= i < |t.queue|
      ensures QueueAt(t.bufs, t.procs, t.queue[i])
      ensures i < |s.queue| ==> t.queue[i] != b
    {
      assert i < |s.queue| ==> QueueAt(s.bufs, s.procs, s.queue[i]);
    }
    forall q | 0 <= q < |t.procs|
      ensures ProcAt(t.bufs, t.queue, t.disk, q, t.procs[q])
    {
      assert ProcAt(s.bufs, s.queue, s.disk, q, s.procs[q]);
    }
    assert s.completed + s.queue + [b] == s.completed + (s.queue + [b]);
  }

  lemma FinishKeeps(s: State)
    requires Inv(s) && Enabled(s, Finish)
    ensures Inv(Next(s, Finish))
  {
    var t := Next(s, Finish);
    var h := s.queue[0];
    assert QueueAt(s.bufs, s.procs, h);
    forall p | 0 <= p < |t.procs|
      ensures ProcAt(t.bufs, t.queue, t.disk, p, t.procs[p])
    {
      var x := s.procs[p];
      assert ProcAt(s.bufs, s.queue, s.disk, p, x);
      if x.Inside? {
        assert x.b < h ==> Differ(s.bufs[x.b], s.bufs[h]);
        assert h < x.b ==> Differ(s.bufs[h], s.bufs[x.b]);
      }
    }
  }

  lemma IntrQueue(bufs: seq<Buffer>, procs: seq<Proc>, queue: seq<nat>, x: Buffer, ps: seq<Proc>)
    requires QueueOk(bufs, procs, queue) && queue != [] && queue[0] < |bufs| && ps == Wake(procs, queue[0])
    ensures QueueOk(bufs[queue[0] := x], ps, queue[1..]) && queue[0] !in queue[1..]
  {
    var rest := queue[1..];
    forall i | 0 <= i < |rest|
      ensures QueueAt(bufs[queue[0] := x], ps, rest[i])
    {
      assert rest[i] == queue[i + 1];
      assert QueueAt(bufs, procs, queue[i + 1]);
    }
    assert forall i, j | 0 <= i < j < |rest| :: rest[i] == queue[i + 1] && rest[j] == queue[j + 1];
  }

  lemma IntrProcs(bufs: seq<Buffer>, procs: seq<Proc>, queue: seq<nat>, disk: Disk, x: Buffer, ps: seq<Proc>)
    requires ProcsOk(bufs, queue, disk, procs) && queue != [] && queue[0] < |bufs| && queue[0] !in queue[1..]
    requires ps == Wake(procs, queue[0])
    requires Clean(x) && x.data == OnDisk(disk, x.dev, x.blockno) && x.holder == bufs[queue[0]].holder
    requires bufs[queue[0]].dirty ==> x.data == bufs[queue[0]].data
    ensures ProcsOk(bufs[queue[0] := x], queue[1..], disk, ps)
  {
    var rest := queue[1..];
    assert queue == [queue[0]] + rest;
    forall p | 0 <= p < |ps|
      ensures ProcAt(bufs[queue[0] := x], rest, disk, p, ps[p])
    {
      assert ProcAt(bufs, queue, disk, p, procs[p]);
    }
  }

  lemma IntrKeeps(s: State)
    requires Inv(s) && Enabled(s, Intr)
    ensures Inv(Next(s, Intr))
  {
    if s.queue != [] {
      var t := Next(s, Intr);
      var h := s.queue[0];
      IntrQueue(s.bufs, s.procs, s.queue, t.bufs[h], t.procs);
      IntrProcs(s.bufs, s.procs, s.queue, s.disk, t.bufs[h], t.procs);
      assert t.queue != [] ==> QueueAt(t.bufs, t.procs, t.queue[0]);
      forall i, j | 0 <= i < j < |t.bufs|
        ensures Differ(t.bufs[i], t.bufs[j])
      {
        assert Differ(s.bufs[i], s.bufs[j]);
      }
      assert s.completed + s.queue == s.completed + [h] + s.queue[1..];
    }
  }

  lemma WaitKeeps(s: State, st: Step)
    requires Inv(s) && Enabled(s, st) && (st.KillWake? || st.Resume?)
    ensures Inv(Next(s, st))
  {
    var t := Next(s, st);
    var p := st.p;
    assert ProcAt(s.bufs, s.queue, s.disk, p, s.procs[p]);
    forall i | 0 <= i < |s.queue|
      ensures QueueAt(s.bufs, t.procs, s.queue[i])
    {
      assert QueueAt(s.bufs, s.procs, s.queue[i]);
    }
    forall q | 0 <= q < |t.procs|
      ensures ProcAt(s.bufs, s.queue, s.disk, q, t.procs[q])
    {
      assert ProcAt(s.bufs, s.queue, s.disk, q, s.procs[q]);
    }
  }

  lemma StepKeeps(s: State, st: Step)
    requires Inv(s) && Enabled(s, st)
    ensures Inv(Next(s, st))
  {
    hide Inv, Enabled, Next;
    match st
    case Iderw(p, b) => IderwKeeps(s, p, b);
    case Finish => FinishKeeps(s);
    case Intr => IntrKeeps(s);
    case KillWake(p) => WaitKeeps(s, st);
    case Resume(p) => WaitKeeps(s, st);
    case _ => HolderKeeps(s, st);
  }

  lemma {:induction false} RunKeeps(s: State, steps: seq<Step>)
    requires Inv(s) && CanRun(s, steps)
    ensures Inv(Execute(s, steps))
    decreases |steps|
  {
    hide Inv, Enabled, Next;
    if steps != [] {
      StepKeeps(s, steps[0]);
      RunKeeps(Next(s, steps[0]), steps[1..]);
    }
  }

  // Refinement

  /** The buffers as the synchronous disk has them: the head request counts as done as soon as
      the device has finished it. */
  ghost function AbsBufs(s: State): seq<Buffer> {
    if s.device.Ready? && s.queue != [] && s.queue[0] < |s.bufs|
    then s.bufs[s.queue[0] := Completed(s.bufs[s.queue[0]], s.device.got)]
    else s.bufs
  }

  /** The device finishing a request is memide's iderw on the first queued buffer; queueing,
      interrupts, wakeups and returns do nothing; what a holder does to its buffer is done to
      that buffer on both sides. */
  lemma Refines(s: State, st: Step)
    requires Inv(s) && Enabled(s, st)
    ensures var t := Next(s, st);
      match st
      case Finish =>
        s.queue != [] && s.queue[0] < |s.bufs| &&
        var r := MemIderw(s.disk, AbsBufs(s)[s.queue[0]]);
        t.disk == r.0 && AbsBufs(t) == AbsBufs(s)[s.queue[0] := r.1]
      case Acquire(p, b) => t.disk == s.disk && b < |AbsBufs(s)| && AbsBufs(t) == AbsBufs(s)[b := s.bufs[b].(holder := p)]
      case Release(_, b) => t.disk == s.disk && b < |AbsBufs(s)| && AbsBufs(t) == AbsBufs(s)[b := s.bufs[b].(holder := -1)]
      case Touch(_, b, data) =>
        t.disk == s.disk && b < |AbsBufs(s)| && AbsBufs(t) == AbsBufs(s)[b := s.bufs[b].(data := data, dirty := true)]
      case Recycle(b, dev, blockno) =>
        t.disk == s.disk && b < |AbsBufs(s)| && AbsBufs(t) == AbsBufs(s)[b := s.bufs[b].(dev := dev, blockno := blockno, valid := false)]
      case _ => t.disk == s.disk && AbsBufs(t) == AbsBufs(s)
  {
    if st.Acquire? || st.Release? || st.Touch? || st.Recycle? {
      HolderKeeps(s, st);
    }
  }

  /** An operation of the synchronous system: memide's iderw on a buffer, or a holder's change
      to one. */
  datatype Op = Sync(b: nat) | Put(b: nat, x: Buffer)

  ghost function SyncRun(disk: Disk, bufs: seq<Buffer>, ops: seq<Op>): (Disk, seq<Buffer>)
    decreases |ops|
  {
    if ops == [] then (disk, bufs)
    else if ops[0].b >= |bufs| then SyncRun(disk, bufs, ops[1..])
    else match ops[0]
      case Put(b, x) => SyncRun(disk, bufs[b := x], ops[1..])
      case Sync(b) => var r := MemIderw(disk, bufs[b]); SyncRun(r.0, bufs[b := r.1], ops[1..])
  }

  ghost function OpsOf(s: State, st: Step): seq<Op>
    requires Enabled(s, st)
  {
    match st
    case Finish => if s.queue == [] then [] else [Sync(s.queue[0])]
    case Acquire(_, b) => [Put(b, Next(s, st).bufs[b])]
    case Release(_, b) => [Put(b, Next(s, st).bufs[b])]
    case Touch(_, b, _) => [Put(b, Next(s, st).bufs[b])]
    case Recycle(b, _, _) => [Put(b, Next(s, st).bufs[b])]
    case _ => []
  }

  ghost function Ops(s: State, steps: seq<Step>): seq<Op>
    requires CanRun(s, steps)
    decreases |steps|
  {
    if steps == [] then [] else OpsOf(s, steps[0]) + Ops(Next(s, steps[0]), steps[1..])
  }

  lemma StepRefines(s: State, st: Step, more: seq<Op>)
    requires Inv(s) && Enabled(s, st)
    ensures SyncRun(s.disk, AbsBufs(s), OpsOf(s, st) + more) == SyncRun(Next(s, st).disk, AbsBufs(Next(s, st)), more)
  {
    Refines(s, st);
    var ops := OpsOf(s, st);
    hide Inv, AbsBufs, Next, Enabled;
    assert ops == [] ==> ops + more == more;
    assert ops != [] ==> (ops + more)[1..] == more;
  }

  lemma {:induction false} RunRefines(s: State, steps: seq<Step>)
    requires Inv(s) && CanRun(s, steps)
    ensures SyncRun(s.disk, AbsBufs(s), Ops(s, steps)) == (Execute(s, steps).disk, AbsBufs(Execute(s, steps)))
    decreases |steps|
  {
    hide Inv, AbsBufs, Next, Enabled, OpsOf;
    if steps != [] {
      StepKeeps(s, steps[0]);
      RunRefines(Next(s, steps[0]), steps[1..]);
      StepRefines(s, steps[0], Ops(Next(s, steps[0]), steps[1..]));
    }
  }

  /** Every run of the queued disk is a run of the synchronous one: with no request
      outstanding, disk and buffers are those memide leaves. */
  lemma QuiescentIsSynchronous(s: State, steps: seq<Step>)
    requires Init(s) && CanRun(s, steps) && Execute(s, steps).queue == []
    ensures SyncRun(s.disk, s.bufs, Ops(s, steps)) == (Execute(s, steps).disk, Execute(s, steps).bufs)
  {
    InitInv(s);
    RunRefines(s, steps);
  }

  // What every run keeps

  /** Requests complete in the order they were made, each exactly once; the device works on the
      oldest one that is not complete. */
  lemma FifoOnce(s: State, steps: seq<Step>)
    requires Init(s) && CanRun(s, steps)
    ensures var t := Execute(s, steps);
      && t.requested == t.completed + t.queue
      && (t.device == Idle <==> t.completed == t.requested)
      && (t.completed < t.requested && t.device.Busy? ==>
            var h := t.requested[|t.completed|]; h < |t.bufs| && t.device == Issue(t.bufs[h]))
  {
    InitInv(s);
    RunKeeps(s, steps);
  }

  /** The buffer cache may hand out a valid buffer without asking the disk: unless dirty, it
      agrees with it. */
  lemma ValidAgrees(s: State, steps: seq<Step>, b: nat)
    requires Init(s) && CanRun(s, steps) && b < |Execute(s, steps).bufs|
    ensures var t := Execute(s, steps); var x := t.bufs[b];
      x.valid && !x.dirty ==> x.data == OnDisk(t.disk, x.dev, x.blockno)
  {
    InitInv(s);
    RunKeeps(s, steps);
  }

  /** iderw returns only when its request is complete, in the state memide's iderw gives:
      clean, equal to the disk, and equal to what it was given if that was dirty. */
  lemma ReturnsSynced(s: State, steps: seq<Step>, p: nat)
    requires Init(s) && CanRun(s, steps) && Enabled(Execute(s, steps), Resume(p))
    ensures var t := Execute(s, steps); var u := Next(t, Resume(p)); var x := t.procs[p];
      u.procs[p] == Out <==> x.b !in t.queue
    ensures var t := Execute(s, steps); var u := Next(t, Resume(p)); var x := t.procs[p];
      u.procs[p] == Out ==>
        var b := u.bufs[x.b];
        Clean(b) && b.holder == p && b.data == OnDisk(u.disk, b.dev, b.blockno) && (x.wrote ==> b.data == x.gave)
  {
    InitInv(s);
    RunKeeps(s, steps);
    var t := Execute(s, steps);
    assert ProcAt(t.bufs, t.queue, t.disk, p, t.procs[p]);
    if t.procs[p].b in t.queue {
      var i :| 0 <= i < |t.queue| && t.queue[i] == t.procs[p].b;
      assert QueueAt(t.bufs, t.procs, t.queue[i]);
    }
  }

  /** No lost wakeup: who sleeps in iderw waits for a request not complete yet, and the device
      is at work. */
  lemma SleepersQueued(s: State, steps: seq<Step>, p: nat)
    requires Init(s) && CanRun(s, steps) && p < |Execute(s, steps).procs|
    ensures var t := Execute(s, steps);
      t.procs[p].Inside? && t.procs[p].asleep ==> t.procs[p].b in t.queue && t.device != Idle
  {
    InitInv(s);
    RunKeeps(s, steps);
    var t := Execute(s, steps);
    assert ProcAt(t.bufs, t.queue, t.disk, p, t.procs[p]);
  }
}
