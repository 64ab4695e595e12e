/**
 Readers and writers of a pipe (kernel/pipe.c), any number of them.  The pipe's lock is held
 from its acquisition to the next sleep or return, so a step is one such stretch.
 */
module PipeProtocol {
  import opened Pipe

  /** What the last call returned: Wrote(n) and Got(x) are a count of bytes, Failed is -1. */
  datatype Result = Fresh | Wrote(n: nat) | Got(x: seq<byte>) | Failed

  /** What a process is doing with the pipe; of n bytes to write, `rest` are still to go in. */
  datatype Proc =
    | Idle(last: Result)
    | Writing(rest: seq<byte>, n: nat) | WriteSleep(rest: seq<byte>, n: nat)
    | Reading(want: int) | ReadSleep(want: int)

  /** The last five fields are an observer's: the bytes that entered the queue, with who put them
      in; the bytes that left it; and for each process what its current or last pipewrite was
      given, what that call has put in, and what earlier ones had. */
  datatype State = State(
    queue: seq<byte>,
    readopen: bool,
    writeopen: bool,
    procs: seq<Proc>,
    killed: seq<bool>,
    entered: seq<(nat, byte)>,
    consumed: seq<byte>,
    given: seq<seq<byte>>,
    put: seq<seq<byte>>,
    earlier: seq<seq<byte>>)

  ghost predicate Init(s: State) {
    && s.queue == [] && s.readopen && s.writeopen && |s.killed| == |s.procs| && s.entered == [] && s.consumed == []
    && (forall p | 0 <= p < |s.procs| :: s.procs[p] == Idle(Fresh))
    && s.given == s.put == s.earlier == seq(|s.procs|, _ => [])
  }

  datatype Step =
    | CallWrite(p: nat, addr: seq<byte>)
    | CallRead(p: nat, n: int)
    | WriteRun(p: nat)
    | ReadRun(p: nat)
    | Kill(p: nat)
    | CloseRead
    | CloseWrite

  function WakeReaders(procs: seq<Proc>): (r: seq<Proc>)
    ensures |r| == |procs|
    ensures forall p | 0 <= p < |procs| :: r[p] == if procs[p].ReadSleep? then Reading(procs[p].want) else procs[p]
  {
    seq(|procs|, p requires 0 <= p < |procs| => if procs[p].ReadSleep? then Reading(procs[p].want) else procs[p])
  }

  function WakeWriters(procs: seq<Proc>): (r: seq<Proc>)
    ensures |r| == |procs|
    ensures forall p | 0 <= p < |procs| :: r[p] == if procs[p].WriteSleep? then Writing(procs[p].rest, procs[p].n) else procs[p]
  {
    seq(|procs|, p requires 0 <= p < |procs| => if procs[p].WriteSleep? then Writing(procs[p].rest, procs[p].n) else procs[p])
  }

  predicate Enabled(s: State, st: Step) {
    match st
    case CallWrite(p, _) => p < |s.procs| && s.procs[p].Idle? && s.writeopen
    case CallRead(p, _) => p < |s.procs| && s.procs[p].Idle? && s.readopen
    case WriteRun(p) => p < |s.procs| && p < |s.killed| && s.procs[p].Writing? && |s.queue| <= PIPESIZE
    case ReadRun(p) => p < |s.procs| && p < |s.killed| && s.procs[p].Reading?
    case Kill(p) => p < |s.procs| && p < |s.killed|
    // An end is closed when its last file descriptor goes, so nobody is inside that operation.
    case CloseRead => s.readopen && forall p | 0 <= p < |s.procs| :: !s.procs[p].Reading? && !s.procs[p].ReadSleep?
    case CloseWrite => s.writeopen && forall p | 0 <= p < |s.procs| :: !s.procs[p].Writing? && !s.procs[p].WriteSleep?
  }

  /** pipewrite from taking the lock to sleeping or returning. */
  function DoWrite(s: State, p: nat): State
    requires Enabled(s, WriteRun(p))
  {
    var rest := s.procs[p].rest;
    var k := Fits(|s.queue|, |rest|);
    var t := s.(queue := s.queue + rest[..k]);
    if k == |rest| then t.(procs := WakeReaders(s.procs)[p := Idle(Wrote(s.procs[p].n))])
    else if !s.readopen || s.killed[p] then t.(procs := s.procs[p := Idle(Failed)])
    else t.(procs := WakeReaders(s.procs)[p := WriteSleep(rest[k..], s.procs[p].n)])
  }

  /** piperead from taking the lock to sleeping or returning. */
  function DoRead(s: State, p: nat): State
    requires Enabled(s, ReadRun(p))
  {
    var n := s.procs[p].want;
    if s.queue == [] && s.writeopen then
      if s.killed[p] then s.(procs := s.procs[p := Idle(Failed)]) else s.(procs := s.procs[p := ReadSleep(n)])
    else
      var k := Least(n, |s.queue|);
      s.(queue := s.queue[k..], procs := WakeWriters(s.procs)[p := Idle(Got(s.queue[..k]))])
  }

  function Act(s: State, st: Step): State
    requires Enabled(s, st)
  {
    match st
    case CallWrite(p, addr) => s.(procs := s.procs[p := Writing(addr, |addr|)])
    case CallRead(p, n) => s.(procs := s.procs[p := Reading(n)])
    case WriteRun(p) => DoWrite(s, p)
    case ReadRun(p) => DoRead(s, p)
    case Kill(p) =>
      s.(killed := s.killed[p := true],
         procs := s.procs[p := match s.procs[p]
                               case ReadSleep(n) => Reading(n)
                               case WriteSleep(rest, n) => Writing(rest, n)
                               case x => x])
    case CloseRead => s.(readopen := false, procs := WakeWriters(s.procs))
    case CloseWrite => s.(writeopen := false, procs := WakeReaders(s.procs))
  }

  function At(xs: seq<seq<byte>>, p: nat): seq<byte> {
    if p < |xs| then xs[p] else []
  }

  function Set(xs: seq<seq<byte>>, p: nat, x: seq<byte>): seq<seq<byte>> {
    if p < |xs| then xs[p := x] else xs
  }

  function Tagged(p: nat, x: seq<byte>): (r: seq<(nat, byte)>)
    ensures |r| == |x|
  {
    seq(|x|, i requires 0 <= i < |x| => (p, x[i]))
  }

  /** What can be seen of a step from outside: the call, and how the queue changed. */
  function Seen(s: State, st: Step, t: State): State {
    match st
    case CallWrite(p, addr) =>
      t.(given := Set(s.given, p, addr), put := Set(s.put, p, []), earlier := Set(s.earlier, p, At(s.earlier, p) + At(s.put, p)))
    case WriteRun(p) =>
      var x := if |s.queue| <= |t.queue| then t.queue[|s.queue|..] else [];
      t.(entered := s.entered + Tagged(p, x), put := Set(s.put, p, At(s.put, p) + x))
    case ReadRun(p) =>
      var x := if |t.queue| <= |s.queue| then s.queue[..|s.queue| - |t.queue|] else [];
      t.(consumed := s.consumed + x)
    case _ => t
  }

  function Next(s: State, st: Step): State
    requires Enabled(s, st)
  {
    Seen(s, st, Act(s, st))
  }

  ghost predicate CanRun(s: State, steps: seq<Step>)
    decreases |steps|
  {
    steps == [] || (Enabled(s, steps[0]) && CanRun(Next(s, steps[0]), steps[1..]))
  }

  ghost function Execute(s: State, steps: seq<Step>): State
    requires CanRun(s, steps)
    decreases |steps|
  {
    if steps == [] then s else Execute(Next(s, steps[0]), steps[1..])
  }

  // Bytes come out in the order they went in

  function Bytes(log: seq<(nat, byte)>): seq<byte> {
    seq(|log|, i requires 0 <= i < |log| => log[i].1)
  }

  /** The bytes that p put in. */
  function By(log: seq<(nat, byte)>, p: nat): seq<byte> {
    if log == [] then []
    else By(log[..|log| - 1], p) + if log[|log| - 1].0 == p then [log[|log| - 1].1] else []
  }

  /** While a pipewrite goes on, what it has put in and what it has still to write make up what it
      was given.  A call that returned a count has put in all of it, a call that failed part. */
  ghost predicate WriterOk(x: Proc, given: seq<byte>, put: seq<byte>) {
    match x
    case Writing(rest, n) => given == put + rest && n == |given|
    case WriteSleep(rest, n) => given == put + rest && n == |given|
    case Idle(Wrote(n)) => given == put && n == |given|
    case _ => put <= given
  }

  ghost predicate Sized(s: State) {
    |s.killed| == |s.given| == |s.put| == |s.earlier| == |s.procs|
  }

  ghost predicate Fifo(s: State) {
    && Sized(s) && Bytes(s.entered) == s.consumed + s.queue && |s.queue| <= PIPESIZE
    && (forall p | 0 <= p < |s.procs| :: EndOpen(s.procs[p], s.readopen, s.writeopen))
    && (forall p | 0 <= p < |s.procs| :: WriterOk(s.procs[p], s.given[p], s.put[p]))
    && (forall p | 0 <= p < |s.procs| :: By(s.entered, p) == s.earlier[p] + s.put[p])
  }

  ghost predicate EndOpen(x: Proc, readopen: bool, writeopen: bool) {
    (x.Writing? || x.WriteSleep? ==> writeopen) && (x.Reading? || x.ReadSleep? ==> readopen)
  }

  lemma {:induction false} ByTagged(log: seq<(nat, byte)>, p: nat, x: seq<byte>, q: nat)
    ensures By(log + Tagged(p, x), q) == By(log, q) + if p == q then x else []
    decreases |x|
  {
    if x == [] {
      assert log + Tagged(p, x) == log;
    } else {
      var n := |x| - 1;
      ByTagged(log, p, x[..n], q);
      assert (log + Tagged(p, x))[..|log| + n] == log + Tagged(p, x[..n]);
      assert (log + Tagged(p, x))[|log| + n] == (p, x[n]);
    }
  }

  lemma BytesTagged(log: seq<(nat, byte)>, p: nat, x: seq<byte>)
    ensures Bytes(log + Tagged(p, x)) == Bytes(log) + x
  {
  }

  /** What pipewrite does, as the observer sees it. */
  lemma WriteSeen(s: State, p: nat) returns (x: seq<byte>, more: seq<byte>)
    requires Sized(s) && Enabled(s, WriteRun(p))
    ensures s.procs[p].rest == x + more && (more == [] || |s.queue + x| == PIPESIZE) && |s.queue + x| <= PIPESIZE
    ensures var t := Next(s, WriteRun(p));
      && t == s.(queue := s.queue + x, procs := t.procs, entered := s.entered + Tagged(p, x), put := s.put[p := s.put[p] + x])
      && |t.procs| == |s.procs|
      && (forall q | 0 <= q < |s.procs| && q != p :: t.procs[q] == s.procs[q] || (s.procs[q].ReadSleep? && t.procs[q] == Reading(s.procs[q].want)))
      && (if more == [] then t.procs[p] == Idle(Wrote(s.procs[p].n))
          else if !s.readopen || s.killed[p] then t.procs[p] == Idle(Failed)
          else t.procs[p] == WriteSleep(more, s.procs[p].n))
  {
    hide Tagged;
    var rest := s.procs[p].rest;
    var k := Fits(|s.queue|, |rest|);
    x, more := rest[..k], rest[k..];
    assert Act(s, WriteRun(p)).queue[|s.queue|..] == x;
  }

  lemma WriteFifo(s: State, p: nat)
    requires Fifo(s) && Enabled(s, WriteRun(p))
    ensures Fifo(Next(s, WriteRun(p)))
  {
    hide Next, By, Bytes, Tagged;
    var t := Next(s, WriteRun(p));
    var x, more := WriteSeen(s, p);
    assert s.put[p] + (x + more) == s.put[p] + x + more;
    assert s.consumed + s.queue + x == s.consumed + (s.queue + x);
    BytesTagged(s.entered, p, x);
    forall q | 0 <= q < |t.procs|
      ensures By(t.entered, q) == t.earlier[q] + t.put[q]
    {
      ByTagged(s.entered, p, x, q);
      assert s.earlier[p] + s.put[p] + x == s.earlier[p] + (s.put[p] + x);
    }
  }

  lemma CallFifo(s: State, st: Step)
    requires Fifo(s) && Enabled(s, st) && (st.CallWrite? || st.CallRead?)
    ensures Fifo(Next(s, st))
  {
    hide By, Bytes;
    var t := Next(s, st);
    if st.CallWrite? { assert s.earlier[st.p] + s.put[st.p] + [] == s.earlier[st.p] + s.put[st.p]; }
  }

  lemma WriterKept(s: State, p: nat)
    requires Fifo(s) && Enabled(s, ReadRun(p))
    ensures forall q | 0 <= q < |s.procs| :: WriterOk(Next(s, ReadRun(p)).procs[q], s.given[q], s.put[q])
  {
    hide By, Bytes;
  }

  lemma ReadFifo(s: State, p: nat)
    requires Fifo(s) && Enabled(s, ReadRun(p))
    ensures Fifo(Next(s, ReadRun(p)))
  {
    hide By, Bytes, WriterOk;
    WriterKept(s, p);
    var t := Next(s, ReadRun(p));
    assert s.queue == s.queue[..|s.queue| - |t.queue|] + t.queue;
    assert s.consumed + s.queue == s.consumed + s.queue[..|s.queue| - |t.queue|] + t.queue;
  }

  lemma StepFifo(s: State, st: Step)
    requires Fifo(s) && Enabled(s, st)
    ensures Fifo(Next(s, st))
  {
    hide By, Bytes;
    match st
    case WriteRun(p) => WriteFifo(s, p);
    case ReadRun(p) => ReadFifo(s, p);
    case CallWrite(_, _) => CallFifo(s, st);
    case CallRead(_, _) => CallFifo(s, st);
    case _ =>
  }

  lemma {:induction false} RunFifo(s: State, steps: seq<Step>)
    requires Fifo(s) && CanRun(s, steps)
    ensures Fifo(Execute(s, steps))
    decreases |steps|
  {
    hide Fifo, Enabled, Next;
    if steps != [] {
      StepFifo(s, steps[0]);
      RunFifo(Next(s, steps[0]), steps[1..]);
    }
  }

  lemma InitFifo(s: State)
    requires Init(s)
    ensures Fifo(s)
  {
  }

  /** What has left the pipe is always a prefix of what has entered it. */
  lemma ReadsArePrefix(s: State, steps: seq<Step>)
    requires Init(s) && CanRun(s, steps)
    ensures var t := Execute(s, steps);
      t.consumed <= Bytes(t.entered) && 0 <= |t.entered| - |t.consumed| <= PIPESIZE
  {
    InitFifo(s);
    RunFifo(s, steps);
  }

  /** What has entered is an interleaving of what the processes put in, and each call puts in what
      it was given: all of it in order if it returns a count, a prefix so far. */
  lemma WritesArrive(s: State, steps: seq<Step>, p: nat)
    requires Init(s) && CanRun(s, steps) && p < |Execute(s, steps).procs|
    ensures var t := Execute(s, steps);
      && p < |t.given| == |t.put| == |t.earlier|
      && By(t.entered, p) == t.earlier[p] + t.put[p] && t.put[p] <= t.given[p]
      && (t.procs[p].Writing? || t.procs[p].WriteSleep? ==> t.given[p] == t.put[p] + t.procs[p].rest)
      && (t.procs[p].Idle? && t.procs[p].last.Wrote? ==> t.put[p] == t.given[p] && t.procs[p].last.n == |t.given[p]|)
  {
    InitFifo(s);
    RunFifo(s, steps);
  }

  /** A piperead returns the bytes that left the queue, the oldest first: as many as it asked for,
      or all there were.  It returns nothing only from an empty pipe without a writing end or for
      a request of nothing. */
  lemma ReadGives(s: State, p: nat)
    requires Fifo(s) && Enabled(s, ReadRun(p))
    ensures var t := Next(s, ReadRun(p));
      match t.procs[p]
      case Idle(Got(x)) =>
        && s.queue == x + t.queue && t.consumed == s.consumed + x
        && (if s.procs[p].want <= 0 then x == [] else |x| <= s.procs[p].want && (|x| == s.procs[p].want || t.queue == []))
        && (s.queue == [] ==> !s.writeopen)
      case Idle(Failed) => s.queue == [] && s.writeopen && s.killed[p] && t.queue == [] && t.consumed == s.consumed
      case ReadSleep(n) => n == s.procs[p].want && s.queue == [] && s.writeopen && !s.killed[p] && t.consumed == s.consumed
      case _ => false
  {
    var t := Next(s, ReadRun(p));
    if t.procs[p].Idle? && t.procs[p].last.Got? {
      assert s.queue == s.queue[..|s.queue| - |t.queue|] + t.queue;
    }
  }

  /** A pipewrite stops only when its bytes are in, or when the pipe is full; then it fails exactly
      if it was killed or nobody can read. */
  lemma WriteGoes(s: State, p: nat)
    requires Fifo(s) && Enabled(s, WriteRun(p))
    ensures var t := Next(s, WriteRun(p));
      match t.procs[p]
      case Idle(Wrote(_)) => t.queue == s.queue + s.procs[p].rest
      case Idle(Failed) => |t.queue| == PIPESIZE && t.put[p] < t.given[p] && (!s.readopen || s.killed[p])
      case WriteSleep(rest, _) => |t.queue| == PIPESIZE && rest != [] && s.readopen && !s.killed[p]
      case _ => false
  {
    hide Next, By, Bytes, Tagged;
    var x, more := WriteSeen(s, p);
    assert s.put[p] + (x + more) == s.put[p] + x + more;
  }

  // Closing an end

  /** The writing end is closed: nobody writes, and nobody waits for bytes. */
  ghost predicate NoMoreWrites(s: State) {
    !s.writeopen && forall p | 0 <= p < |s.procs| :: !s.procs[p].Writing? && !s.procs[p].WriteSleep? && !s.procs[p].ReadSleep?
  }

  /** The reading end is closed: nobody reads, and nobody waits for room. */
  ghost predicate NoMoreReads(s: State) {
    !s.readopen && forall p | 0 <= p < |s.procs| :: !s.procs[p].Reading? && !s.procs[p].ReadSleep? && !s.procs[p].WriteSleep?
  }

  lemma ClosedStep(s: State, st: Step)
    requires Enabled(s, st)
    ensures NoMoreWrites(s) ==> NoMoreWrites(Next(s, st)) && Next(s, st).entered == s.entered
    ensures NoMoreReads(s) ==> NoMoreReads(Next(s, st)) && Next(s, st).consumed == s.consumed
  {
  }

  lemma {:induction false} ClosedRun(s: State, steps: seq<Step>)
    requires CanRun(s, steps)
    ensures NoMoreWrites(s) ==> NoMoreWrites(Execute(s, steps)) && Execute(s, steps).entered == s.entered
    ensures NoMoreReads(s) ==> NoMoreReads(Execute(s, steps)) && Execute(s, steps).consumed == s.consumed
    decreases |steps|
  {
    hide Enabled, Next, NoMoreReads, NoMoreWrites;
    if steps != [] {
      ClosedStep(s, steps[0]);
      ClosedRun(Next(s, steps[0]), steps[1..]);
    }
  }

  /** After the writing end is closed nothing more enters and no reader ever sleeps; after the
      reading end, nothing more leaves and no writer ever sleeps. */
  lemma CloseEnds(s: State, st: Step, steps: seq<Step>)
    requires (st == CloseWrite || st == CloseRead) && Enabled(s, st) && CanRun(Next(s, st), steps)
    ensures var t := Execute(Next(s, st), steps);
      if st == CloseWrite then NoMoreWrites(t) && t.entered == s.entered else NoMoreReads(t) && t.consumed == s.consumed
  {
    ClosedRun(Next(s, st), steps);
  }

  // Nobody sleeps without reason

  ghost predicate SleepOk(s: State) {
    forall p | 0 <= p < |s.procs| ::
      (s.procs[p].WriteSleep? ==> |s.queue| == PIPESIZE && s.readopen) &&
      (s.procs[p].ReadSleep? ==> s.queue == [] && s.writeopen)
  }

  /** A writer that was killed finds the pipe full after putting bytes in, and returns without
      waking the readers. */
  ghost predicate SilentReturn(s: State, st: Step) {
    st.WriteRun? && Enabled(s, st) && s.killed[st.p] && 0 < Fits(|s.queue|, |s.procs[st.p].rest|) < |s.procs[st.p].rest| &&
    exists q :: 0 <= q < |s.procs| && s.procs[q].ReadSleep?
  }

  /** Every step keeps the sleepers justified, except exactly the silent return. */
  lemma StepSleep(s: State, st: Step)
    requires Fifo(s) && SleepOk(s) && Enabled(s, st)
    ensures SleepOk(Next(s, st)) <==> !SilentReturn(s, st)
  {
    hide By, Bytes, WriterOk, Tagged;
    match st
    case WriteRun(p) => WriteSleeps(s, p);
    case ReadRun(p) => ReadSleeps(s, p);
    case _ =>
  }

  lemma ReadSleeps(s: State, p: nat)
    requires SleepOk(s) && Enabled(s, ReadRun(p))
    ensures SleepOk(Next(s, ReadRun(p)))
  {
  }

  lemma WriteSleeps(s: State, p: nat)
    requires Fifo(s) && SleepOk(s) && Enabled(s, WriteRun(p))
    ensures SleepOk(Next(s, WriteRun(p))) <==> !SilentReturn(s, WriteRun(p))
  {
    hide By, Bytes, WriterOk, Tagged;
    var t := Next(s, WriteRun(p));
    if SilentReturn(s, WriteRun(p)) {
      var q :| 0 <= q < |s.procs| && s.procs[q].ReadSleep?;
      assert t.procs[q].ReadSleep? && t.queue != [];
    } else {
      WriteSleepOk(s, p);
    }
  }

  lemma WriteSleepOk(s: State, p: nat)
    requires Fifo(s) && SleepOk(s) && Enabled(s, WriteRun(p)) && !SilentReturn(s, WriteRun(p))
    ensures SleepOk(Next(s, WriteRun(p)))
  {
    hide By, Bytes, WriterOk, Tagged;
    var t := Next(s, WriteRun(p));
    forall q | 0 <= q < |t.procs|
      ensures t.procs[q].WriteSleep? ==> |t.queue| == PIPESIZE && t.readopen
      ensures t.procs[q].ReadSleep? ==> t.queue == [] && t.writeopen
    {
      assert s.procs[q].WriteSleep? ==> |s.queue| == PIPESIZE;
      assert s.procs[q].ReadSleep? ==> s.queue == [] && s.readopen;
    }
  }

  ghost predicate NoSilentReturn(s: State, steps: seq<Step>)
    requires CanRun(s, steps)
    decreases |steps|
  {
    steps == [] || (!SilentReturn(s, steps[0]) && NoSilentReturn(Next(s, steps[0]), steps[1..]))
  }

  /** In runs without a silent return, a sleeping writer faces a full pipe with a reader end,
      a sleeping reader an empty pipe with a writer end. */
  lemma {:induction false} RunSleep(s: State, steps: seq<Step>)
    requires Fifo(s) && SleepOk(s) && CanRun(s, steps) && NoSilentReturn(s, steps)
    ensures SleepOk(Execute(s, steps))
    decreases |steps|
  {
    hide Fifo, SleepOk, Enabled, Next, SilentReturn;
    if steps != [] {
      StepFifo(s, steps[0]);
      StepSleep(s, steps[0]);
      RunSleep(Next(s, steps[0]), steps[1..]);
    }
  }

  /** A reader and a writer of an open pipe that nobody has read from. */
  function Two(queue: seq<byte>, a: Proc, b: Proc, killed: bool, given: seq<byte>): State {
    State(queue, true, true, [a, b], [false, killed], Tagged(1, queue), [], [[], given], [[], queue], [[], []])
  }

  ghost predicate Goes(s: State, st: Step, t: State) {
    Enabled(s, st) && Next(s, st) == t
  }

  lemma StrandedRead()
    ensures Goes(Two([], Idle(Fresh), Idle(Fresh), false, []), CallRead(0, 1), Two([], Reading(1), Idle(Fresh), false, []))
    ensures Goes(Two([], Reading(1), Idle(Fresh), false, []), ReadRun(0), Two([], ReadSleep(1), Idle(Fresh), false, []))
  {
  }

  lemma StrandedCall(x: seq<byte>)
    ensures Goes(Two([], ReadSleep(1), Idle(Fresh), false, []), CallWrite(1, x), Two([], ReadSleep(1), Writing(x, |x|), false, x))
    ensures Goes(Two([], ReadSleep(1), Writing(x, |x|), false, x), Kill(1), Two([], ReadSleep(1), Writing(x, |x|), true, x))
  {
    var none: seq<byte> := [];
    assert none + none == none;
  }

  lemma StrandedReturn(x: seq<byte>)
    requires |x| > PIPESIZE
    ensures Goes(Two([], ReadSleep(1), Writing(x, |x|), true, x), WriteRun(1), Two(x[..PIPESIZE], ReadSleep(1), Idle(Failed), true, x))
  {
    var s := Two([], ReadSleep(1), Writing(x, |x|), true, x);
    assert Act(s, WriteRun(1)).queue == x[..PIPESIZE];
    assert Tagged(1, []) + Tagged(1, x[..PIPESIZE]) == Tagged(1, x[..PIPESIZE]);
  }

  /** The silent return happens: a reader is left asleep beside a full pipe. */
  lemma ReaderStranded() returns (s: State, steps: seq<Step>)
    ensures Init(s) && CanRun(s, steps)
    ensures var t := Execute(s, steps);
      |t.procs| == 2 && t.procs == [ReadSleep(1), Idle(Failed)] && |t.queue| == PIPESIZE && t.readopen && t.writeopen
  {
    hide Enabled, Next, CanRun, Execute;
    var x: seq<byte> := seq(PIPESIZE + 1, _ => 0);
    s := Two([], Idle(Fresh), Idle(Fresh), false, []);
    assert s.given == s.put == s.earlier == seq(2, _ => []);
    steps := [CallRead(0, 1), ReadRun(0), CallWrite(1, x), Kill(1), WriteRun(1)];
    StrandedRead();
    StrandedCall(x);
    StrandedReturn(x);
    var ss := [s, Two([], Reading(1), Idle(Fresh), false, []), Two([], ReadSleep(1), Idle(Fresh), false, []),
               Two([], ReadSleep(1), Writing(x, |x|), false, x), Two([], ReadSleep(1), Writing(x, |x|), true, x),
               Two(x[..PIPESIZE], ReadSleep(1), Idle(Failed), true, x)];
    PathRuns(ss, steps);
  }

  ghost predicate Path(ss: seq<State>, steps: seq<Step>) {
    |ss| == |steps| + 1 && forall i | 0 <= i < |steps| :: Goes(ss[i], steps[i], ss[i + 1])
  }

  lemma {:induction false} PathRuns(ss: seq<State>, steps: seq<Step>)
    requires Path(ss, steps)
    ensures CanRun(ss[0], steps) && Execute(ss[0], steps) == ss[|steps|]
    decreases |steps|
  {
    hide Enabled, Next;
    if steps != [] {
      assert Goes(ss[0], steps[0], ss[1]);
      assert Path(ss[1..], steps[1..]) by {
        forall i | 0 <= i < |steps| - 1
          ensures Goes(ss[1..][i], steps[1..][i], ss[1..][i + 1])
        {
          assert Goes(ss[i + 1], steps[i + 1], ss[i + 2]);
        }
      }
      PathRuns(ss[1..], steps[1..]);
    }
  }
}
