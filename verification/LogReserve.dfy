/**
 What a log area of a given size and a cache of a given number of buffers allow.  log_write
 never panics exactly when the area is larger than LOGSIZE; crashes are atomic exactly then,
 when the area is the header alone, or when there are no more buffers than the area has
 blocks.  The image that mkfs builds has a log of LOGSIZE blocks, and the cache NBUF == LOGSIZE
 buffers: the panic and an overrun of the list are reachable, and the overrun tears no file
 system only because the commit finds no buffer.
 */
module LogReserve {
  import opened LogMachine
  import opened LogSafety
  import opened LogBudget
  import opened LogTheorems

  lemma {:induction false} RunAppend(pm: Params, s: State, a: seq<Step>, b: seq<Step>)
    requires CanRun(pm, s, a) && CanRun(pm, Run(pm, s, a), b)
    ensures CanRun(pm, s, a + b) && Run(pm, s, a + b) == Run(pm, Run(pm, s, a), b)
    ensures Strict(pm, s, a) && Strict(pm, Run(pm, s, a), b) ==> Strict(pm, s, a + b)
    ensures forall m: nat :: Bounded(pm, s, a, m) && Bounded(pm, Run(pm, s, a), b, m) ==> Bounded(pm, s, a + b, m)
    decreases |a|
  {
    hide Enabled, Do;
    if a == [] {
      assert a + b == b;
    } else {
      assert (a + b)[1..] == a[1..] + b && (a + b)[0] == a[0];
      RunAppend(pm, Do(pm, s, a[0]), a[1..], b);
    }
  }

  /** Three processes and enough home blocks behind the log. */
  ghost predicate Roomy(pm: Params) {
    pm.Valid() && pm.nproc >= 3 && pm.start + pm.size + LOGSIZE < pm.nblocks
  }

  function HomeBlock(pm: Params, k: int): int {
    pm.start + pm.size + k
  }

  /** The first n home blocks behind the log. */
  ghost function Homes(pm: Params, n: nat): (r: seq<int>)
    ensures |r| == n && (forall k | 0 <= k < n :: r[k] == HomeBlock(pm, k))
    ensures forall b :: b in r <==> HomeBlock(pm, 0) <= b < HomeBlock(pm, n)
  {
    if n == 0 then [] else Homes(pm, n - 1) + [HomeBlock(pm, n - 1)]
  }

  predicate AllZero(x: Block) {
    forall w | 0 <= w < WORDS :: x[w] == 0
  }

  const ZERO: Block := seq(WORDS, _ => 0)

  ghost function ZeroDisk(pm: Params): seq<Block> {
    seq(pm.nblocks, _ => ZERO)
  }

  ghost function BootState(pm: Params): State {
    State(ZeroDisk(pm), map[], [], 0, seq(pm.nproc, _ => Idle), ReadHead, false, [], 0, 0)
  }

  /** Nothing but zeros has been written. */
  ghost predicate Blank(pm: Params, s: State) {
    && InRange(s.disk, pm.start) && HeadList(s.disk[pm.start]) == []
    && (forall b | pm.Home(b) && InRange(s.disk, b) :: AllZero(s.disk[b]))
    && (forall b | b in s.cache && pm.Home(b) :: AllZero(s.cache[b].data))
    && (forall k | 0 <= k < |s.hist| && s.hist[k].Write? :: AllZero(s.hist[k].data))
  }

  /** The cache holds the first n home blocks behind the log, and nobody holds a buffer. */
  ghost predicate HasHomes(pm: Params, cache: map<int, Buf>, n: nat) {
    && |cache| == n && (forall b :: b in cache <==> HomeBlock(pm, 0) <= b < HomeBlock(pm, n))
    && (forall b | b in cache :: cache[b].holder == Free)
  }

  ghost predicate AllDirty(cache: map<int, Buf>) {
    forall b | b in cache :: cache[b].dirty
  }

  lemma HasNext(pm: Params, cache: map<int, Buf>, n: nat, x: Buf)
    requires HasHomes(pm, cache, n) && x.holder == Free
    ensures HomeBlock(pm, n) !in cache && |cache| == n && HasHomes(pm, cache[HomeBlock(pm, n) := x], n + 1)
    ensures AllDirty(cache) && x.dirty ==> AllDirty(cache[HomeBlock(pm, n) := x])
  {
    OneBuffer(cache, HomeBlock(pm, n), x);
  }

  lemma HasIn(pm: Params, cache: map<int, Buf>, n: nat, k: nat)
    requires HasHomes(pm, cache, n) && k < n
    ensures HomeBlock(pm, k) in cache && cache[HomeBlock(pm, k)].holder == Free
  {
  }

  /** A buffer changed in place. */
  lemma HasSame(pm: Params, cache: map<int, Buf>, n: nat, k: nat, x: Buf)
    requires HasHomes(pm, cache, n) && x.holder == Free && k < n
    ensures HasHomes(pm, cache[HomeBlock(pm, k) := x], n)
  {
    OneBuffer(cache, HomeBlock(pm, k), x);
  }

  /** Three operations are open and have logged the first n home blocks in turn. */
  ghost predicate Logged(pm: Params, s: State, n: nat) {
    && s.phase == Running && !s.panicked && |s.disk| == pm.nblocks && |s.procs| == pm.nproc >= 3
    && s.outstanding == 3 && Blank(pm, s)
    && s.lh == Homes(pm, n)
    && HasHomes(pm, s.cache, n) && AllDirty(s.cache)
    && (forall p | 0 <= p < 3 :: Share(pm, s.procs[p], p, n))
  }

  ghost predicate Share(pm: Params, pr: Proc, p: nat, n: nat) {
    && pr.InOp? && |pr.used| == (n + 2 - p) / 3 && (p < n ==> HomeBlock(pm, p) in pr.used)
    && forall b | b in pr.used :: HomeBlock(pm, 0) <= b < HomeBlock(pm, n)
  }

  /** Some strict run of the machine with m buffers, from boot on the zeroed disk, ends in s. */
  ghost predicate Reached(pm: Params, m: nat, s: State) {
    exists steps :: Leads(pm, m, steps, s)
  }

  ghost predicate Leads(pm: Params, m: nat, steps: seq<Step>, s: State) {
    CanRun(pm, BootState(pm), steps) && Strict(pm, BootState(pm), steps) && Bounded(pm, BootState(pm), steps, m) &&
    Run(pm, BootState(pm), steps) == s
  }

  lemma OneMore(pm: Params, m: nat, s: State, st: Step)
    requires Reached(pm, m, s) && Enabled(pm, s, st) && (st.Check? ==> |s.procs[st.p].used| < MAXOPBLOCKS)
    requires |Do(pm, s, st).cache| <= m
    ensures Reached(pm, m, Do(pm, s, st))
  {
    hide Enabled, Do;
    var steps :| Leads(pm, m, steps, s);
    var t := Do(pm, s, st);
    assert [st][1..] == [] && CanRun(pm, t, []) && Run(pm, t, []) == t && Strict(pm, t, []) && Bounded(pm, t, [], m);
    assert CanRun(pm, s, [st]) && Run(pm, s, [st]) == t && Strict(pm, s, [st]);
    LastBounded(pm, BootState(pm), steps, m);
    assert Bounded(pm, s, [st], m);
    RunAppend(pm, BootState(pm), steps, [st]);
    assert Leads(pm, m, steps + [st], Do(pm, s, st));
  }

  lemma {:induction false} LastBounded(pm: Params, s: State, steps: seq<Step>, m: nat)
    requires CanRun(pm, s, steps) && Bounded(pm, s, steps, m)
    ensures |Run(pm, s, steps).cache| <= m
    decreases |steps|
  {
    hide Enabled, Do;
    if steps != [] { LastBounded(pm, Do(pm, s, steps[0]), steps[1..], m); }
  }

  /** A buffer changed in place, or one more. */
  lemma OneBuffer(cache: map<int, Buf>, b: int, x: Buf)
    ensures |cache[b := x]| == if b in cache then |cache| else |cache| + 1
  {
    assert cache[b := x].Keys == cache.Keys + {b};
  }

  lemma AtBoot(pm: Params, m: nat)
    requires Roomy(pm)
    ensures Reached(pm, m, BootState(pm)) && Blank(pm, BootState(pm))
  {
    assert ZeroDisk(pm)[pm.start] == ZERO && HeadList(ZERO) == [];
    assert Leads(pm, m, [], BootState(pm));
  }

  lemma RecoversBlank(pm: Params, m: nat) returns (s: State)
    requires Roomy(pm) && 0 < m
    ensures Reached(pm, m, s) && s.phase == Running && !s.panicked && |s.disk| == pm.nblocks && s.lh == [] && s.outstanding == 0
    ensures s.procs == seq(pm.nproc, _ => Idle) && s.cache.Keys == {pm.start}
    ensures s.cache[pm.start].holder == Free && !s.cache[pm.start].dirty && Blank(pm, s)
  {
    hide Reached;
    AtBoot(pm, m);
    s := BootState(pm);
    OneMore(pm, m, s, Recover);
    s := Do(pm, s, Recover);
    OneMore(pm, m, s, Recover);
    s := Do(pm, s, Recover);
    OneBuffer(map[], pm.start, PutHead(pm, s, []).cache[pm.start]);
    OneMore(pm, m, s, Recover);
    s := Do(pm, s, Recover);
  }

  /** After recovery the header's buffer is recycled. */
  lemma Booted(pm: Params, m: nat) returns (s: State)
    requires Roomy(pm) && 0 < m
    ensures Reached(pm, m, s) && s.phase == Running && !s.panicked && |s.disk| == pm.nblocks && s.lh == [] && s.outstanding == 0
    ensures s.procs == seq(pm.nproc, _ => Idle) && s.cache == map[] && Blank(pm, s)
  {
    hide Reached, HeadList, AllZero;
    s := RecoversBlank(pm, m);
    assert s.cache - {pm.start} == map[];
    OneMore(pm, m, s, Evict(pm.start));
    s := Do(pm, s, Evict(pm.start));
  }

  lemma ThreeOps(pm: Params, m: nat) returns (s: State)
    requires Roomy(pm) && 0 < m
    ensures Reached(pm, m, s) && Logged(pm, s, 0)
  {
    s := Booted(pm, m);
    OneMore(pm, m, s, BeginOp(0));
    s := Do(pm, s, BeginOp(0));
    OneMore(pm, m, s, BeginOp(1));
    s := Do(pm, s, BeginOp(1));
    OneMore(pm, m, s, BeginOp(2));
    s := Do(pm, s, BeginOp(2));
    assert s.lh == Homes(pm, 0) && HasHomes(pm, s.cache, 0);
  }

  ghost predicate Going(pm: Params, m: nat, s: State, p: nat, b: int) {
    Reached(pm, m, s) && |s.cache| <= m && s.phase == Running && !s.panicked && |s.disk| == pm.nblocks && p < |s.procs| && pm.Home(b)
  }

  /** bread of an unheld block. */
  lemma TakeBuf(pm: Params, m: nat, s: State, p: nat, b: int) returns (t: State)
    requires Going(pm, m, s, p, b) && Unheld(s, b) && (b in s.cache || |s.cache| < m)
    ensures Going(pm, m, t, p, b) && Holds(t, p, b)
    ensures t == s.(cache := s.cache[b := Fetch(s, b).(holder := By(p))])
  {
    OneBuffer(s.cache, b, Fetch(s, b).(holder := By(p)));
    OneMore(pm, m, s, Bread(p, b));
    t := Do(pm, s, Bread(p, b));
  }

  /** The capacity test of log_write succeeds. */
  lemma PassCheck(pm: Params, m: nat, s: State, p: nat, b: int) returns (t: State)
    requires Going(pm, m, s, p, b) && Holds(s, p, b) && !Full(pm, |s.lh|)
    requires s.procs[p].InOp? && |s.procs[p].used| < MAXOPBLOCKS
    ensures Going(pm, m, t, p, b)
    ensures t == s.(procs := s.procs[p := Checked(s.procs[p].used, b)])
  {
    OneMore(pm, m, s, Check(p, b));
    t := Do(pm, s, Check(p, b));
  }

  /** The critical section of log_write appends a new block. */
  lemma Append(pm: Params, m: nat, s: State, p: nat, b: int) returns (t: State)
    requires Going(pm, m, s, p, b) && Holds(s, p, b)
    requires s.procs[p].Checked? && s.procs[p].b == b && b !in s.lh
    ensures Going(pm, m, t, p, b) && Holds(t, p, b) && !t.cache[b].unlogged
    ensures t == s.(lh := s.lh + [b], procs := s.procs[p := InOp(s.procs[p].used + {b})],
                    cache := s.cache[b := s.cache[b].(dirty := true, unlogged := false)],
                    hist := s.hist + [Write(p, b, s.cache[b].data)])
  {
    OneBuffer(s.cache, b, s.cache[b].(dirty := true, unlogged := false));
    OneMore(pm, m, s, LogWrite(p));
    t := Do(pm, s, LogWrite(p));
  }

  lemma GiveBack(pm: Params, m: nat, s: State, p: nat, b: int) returns (t: State)
    requires Going(pm, m, s, p, b) && Holds(s, p, b) && s.procs[p].InOp? && !s.cache[b].unlogged
    ensures Going(pm, m, t, p, b)
    ensures t == s.(cache := s.cache[b := s.cache[b].(holder := Free)])
  {
    OneBuffer(s.cache, b, s.cache[b].(holder := Free));
    OneMore(pm, m, s, Brelse(p, b));
    t := Do(pm, s, Brelse(p, b));
  }

  /** The next home block in turn is logged by the next process in turn. */
  lemma LogNext(pm: Params, m: nat, s: State, n: nat) returns (t: State)
    requires Roomy(pm) && n < LOGSIZE && n < m && Reached(pm, m, s) && Logged(pm, s, n) && !Full(pm, n)
    ensures Reached(pm, m, t) && Logged(pm, t, n + 1)
  {
    hide Reached, CanRun, Run, Strict, Enabled, Do, Share, HasHomes, AllDirty, HeadList, AllZero;
    var p, b := n % 3, HomeBlock(pm, n);
    ShareIs(pm, s.procs[p], p, n);
    HasNext(pm, s.cache, n, Buf(s.disk[b], true, Free, false));
    t := TakeBuf(pm, m, s, p, b);
    t := PassCheck(pm, m, t, p, b);
    t := Append(pm, m, t, p, b);
    t := GiveBack(pm, m, t, p, b);
    assert t.cache == s.cache[b := Buf(s.disk[b], true, Free, false)];
    assert t.lh == s.lh + [b] == Homes(pm, n + 1);
    forall q | 0 <= q < 3 ensures Share(pm, t.procs[q], q, n + 1) {
      assert Share(pm, s.procs[q], q, n);
      ShareNext(pm, s.procs[q], q, n);
    }
  }

  lemma ShareIs(pm: Params, pr: Proc, p: nat, n: nat)
    requires p < 3 && Share(pm, pr, p, n) && n < LOGSIZE && p == n % 3
    ensures pr.InOp? && |pr.used| < MAXOPBLOCKS && HomeBlock(pm, n) !in pr.used
  {
  }

  lemma ShareNext(pm: Params, pr: Proc, q: nat, n: nat)
    requires q < 3 && Share(pm, pr, q, n)
    ensures q != n % 3 ==> Share(pm, pr, q, n + 1)
    ensures q == n % 3 ==> Share(pm, InOp(pr.used + {HomeBlock(pm, n)}), q, n + 1)
  {
    assert HomeBlock(pm, n) !in pr.used;
  }

  lemma LogUpTo(pm: Params, m: nat, n: nat) returns (s: State)
    requires Roomy(pm) && n <= LOGSIZE && n <= m && 0 < m && forall k | 0 <= k < n :: !Full(pm, k)
    ensures Reached(pm, m, s) && Logged(pm, s, n)
  {
    if n == 0 {
      s := ThreeOps(pm, m);
    } else {
      s := LogUpTo(pm, m, n - 1);
      s := LogNext(pm, m, s, n - 1);
    }
  }

  /** With a log no longer than LOGSIZE, three operations within their budget make log_write panic. */
  lemma SmallLogPanics(pm: Params, m: nat) returns (t: State)
    requires Roomy(pm) && pm.size <= LOGSIZE && pm.size <= m
    ensures Reached(pm, m, t) && t.panicked
  {
    hide Reached, HeadList, AllZero;
    var n := pm.size - 1;
    var s := LogUpTo(pm, m, n);
    var p, b := n % 3, HomeBlock(pm, n);
    assert Share(pm, s.procs[p], p, n);
    t := TakeBuf(pm, m, s, p, b);
    OneMore(pm, m, t, Check(p, b));
    t := Do(pm, t, Check(p, b));
  }

  ghost predicate NoPanic(pm: Params, init: seq<Block>, boot: State, steps: seq<Step>) {
    Boot(pm, init, boot) && CanRun(pm, boot, steps) && Strict(pm, boot, steps) ==> !Run(pm, boot, steps).panicked
  }

  /** "too big a transaction" is unreachable exactly when log.size > LOGSIZE. */
  lemma PanicFreeIff(pm: Params)
    requires Roomy(pm)
    ensures (forall init, boot, steps :: NoPanic(pm, init, boot, steps)) <==> pm.size > LOGSIZE
  {
    if pm.size > LOGSIZE {
      forall init, boot, steps ensures NoPanic(pm, init, boot, steps) {
        if Boot(pm, init, boot) && CanRun(pm, boot, steps) && Strict(pm, boot, steps) {
          BootAccounted(pm, init, boot);
          StrictRunsDoNotPanic(pm, boot, steps);
        }
      }
    } else {
      var t := SmallLogPanics(pm, LOGSIZE);
      var steps :| Leads(pm, LOGSIZE, steps, t);
      assert ZeroDisk(pm)[pm.start] == ZERO && HeadList(ZERO) == [];
      assert !NoPanic(pm, ZeroDisk(pm), BootState(pm), steps);
    }
  }

  // A log area that is too small

  /** Two racing log_writes have put as many blocks on the list as the area has: the last
      log block is home block 0, and the block that goes there holds ones. */
  ghost predicate Overrun(pm: Params, s: State) {
    && !s.panicked && |s.disk| == pm.nblocks && s.lh == Homes(pm, pm.size)
    && InRange(s.disk, pm.start) && HeadList(s.disk[pm.start]) == []
    && HasHomes(pm, s.cache, pm.size)
    && HomeBlock(pm, pm.size - 1) in s.cache && s.cache[HomeBlock(pm, pm.size - 1)].data[0] == 1
    && ZeroWrites(s.hist, HomeBlock(pm, 0))
  }

  ghost predicate ZeroWrites(h: seq<Event>, b: int) {
    forall k | 0 <= k < |h| && h[k].Write? && h[k].b == b :: AllZero(h[k].data)
  }

  lemma ChangeBuf(pm: Params, m: nat, s: State, p: nat, b: int, x: Block) returns (t: State)
    requires Going(pm, m, s, p, b) && Holds(s, p, b) && s.procs[p].InOp?
    ensures Going(pm, m, t, p, b) && Holds(t, p, b)
    ensures t == s.(cache := s.cache[b := s.cache[b].(data := x, unlogged := true)])
  {
    OneBuffer(s.cache, b, s.cache[b].(data := x, unlogged := true));
    OneMore(pm, m, s, Modify(p, b, x));
    t := Do(pm, s, Modify(p, b, x));
  }

  /** The state after p logs b and q logs c, which it has filled with x, both tests coming
      before both appends. */
  ghost function Raced(s: State, p: nat, b: int, q: nat, c: int, x: Block): State
    requires InRange(s.disk, b) && InRange(s.disk, c) && p != q && p < |s.procs| && q < |s.procs|
    requires s.procs[p].InOp? && s.procs[q].InOp?
  {
    var y := Fetch(s, b).data;
    s.(lh := s.lh + [b] + [c],
       procs := s.procs[p := InOp(s.procs[p].used + {b})][q := InOp(s.procs[q].used + {c})],
       cache := s.cache[b := Buf(y, true, Free, false)][c := Buf(x, true, Free, false)],
       hist := s.hist + [Write(p, b, y)] + [Write(q, c, x)])
  }

  /** Two processes take a block each. */
  lemma TakeBoth(pm: Params, m: nat, s: State, p: nat, b: int, q: nat, c: int) returns (t: State)
    requires Going(pm, m, s, p, b) && Going(pm, m, s, q, c) && Unheld(s, b) && Unheld(s, c) && p != q && b != c
    requires |s.cache| + 2 <= m
    ensures Going(pm, m, t, p, b) && Going(pm, m, t, q, c)
    ensures t == s.(cache := s.cache[b := Fetch(s, b).(holder := By(p))][c := Fetch(s, c).(holder := By(q))])
  {
    hide Reached;
    OneBuffer(s.cache, b, Fetch(s, b).(holder := By(p)));
    t := TakeBuf(pm, m, s, p, b);
    t := TakeBuf(pm, m, t, q, c);
  }

  lemma RaceSteps(pm: Params, m: nat, s: State, p: nat, b: int, q: nat, c: int, x: Block) returns (t: State)
    requires Going(pm, m, s, p, b) && Going(pm, m, s, q, c) && Unheld(s, b) && Unheld(s, c) && p != q && b != c
    requires s.procs[p].InOp? && |s.procs[p].used| < MAXOPBLOCKS && s.procs[q].InOp? && |s.procs[q].used| < MAXOPBLOCKS
    requires !Full(pm, |s.lh|) && b !in s.lh && c !in s.lh && |s.cache| + 2 <= m
    ensures Reached(pm, m, t) && t == Raced(s, p, b, q, c, x)
  {
    hide Reached, CanRun, Run, Strict, Enabled, Do;
    t := TakeBoth(pm, m, s, p, b, q, c);
    t := ChangeBuf(pm, m, t, q, c, x);
    t := PassCheck(pm, m, t, p, b);
    t := PassCheck(pm, m, t, q, c);
    t := Append(pm, m, t, p, b);
    t := Append(pm, m, t, q, c);
    t := GiveBack(pm, m, t, p, b);
    t := GiveBack(pm, m, t, q, c);
  }

  lemma RacedOverruns(pm: Params, s: State, p: nat, q: nat, x: Block)
    requires Roomy(pm) && 2 <= pm.size <= LOGSIZE && Logged(pm, s, pm.size - 2) && x[0] == 1
    requires p != q && p < |s.procs| && q < |s.procs| && s.procs[p].InOp? && s.procs[q].InOp?
    ensures var t := Raced(s, p, HomeBlock(pm, pm.size - 2), q, HomeBlock(pm, pm.size - 1), x);
      Overrun(pm, t) && AllDirty(t.cache)
  {
    hide HeadList, Share, AllZero, HasHomes, AllDirty;
    var n := pm.size - 2;
    var b, c := HomeBlock(pm, n), HomeBlock(pm, n + 1);
    var t := Raced(s, p, b, q, c, x);
    assert t.lh == Homes(pm, n + 1) + [c] == Homes(pm, pm.size);
    HasNext(pm, s.cache, n, t.cache[b]);
    HasNext(pm, s.cache[b := t.cache[b]], n + 1, t.cache[c]);
    RacedZero(s, p, b, q, c, x, HomeBlock(pm, 0));
  }

  lemma RacedZero(s: State, p: nat, b: int, q: nat, c: int, x: Block, z: int)
    requires InRange(s.disk, b) && InRange(s.disk, c) && p != q && p < |s.procs| && q < |s.procs|
    requires s.procs[p].InOp? && s.procs[q].InOp? && z != c
    requires ZeroWrites(s.hist, z) && AllZero(Fetch(s, b).data)
    ensures ZeroWrites(Raced(s, p, b, q, c, x).hist, z)
  {
    hide AllZero;
  }

  /** Two processes in turn may still log a block each, and both pass the test. */
  lemma RaceReady(pm: Params, s: State, n: nat)
    requires Roomy(pm) && n == pm.size - 2 && pm.size <= LOGSIZE && Logged(pm, s, n)
    ensures var b, c, p, q := HomeBlock(pm, n), HomeBlock(pm, n + 1), n % 3, (n + 1) % 3;
      && (forall r | 0 <= r < 3 :: s.procs[r].InOp?) && |s.procs[p].used| < MAXOPBLOCKS && |s.procs[q].used| < MAXOPBLOCKS
      && b !in s.cache && c !in s.cache && |s.cache| == |s.lh| == n && b !in s.lh && c !in s.lh
      && s.phase == Running && !s.panicked && |s.disk| == pm.nblocks && |s.procs| == pm.nproc && s.outstanding == 3
  {
    hide Share, HeadList, Blank, HasHomes, AllDirty, Homes;
    RaceShares(pm, s.procs, n);
    HasNot(pm, s.cache, n);
  }

  lemma RaceShares(pm: Params, procs: seq<Proc>, n: nat)
    requires |procs| >= 3 && n + 1 < LOGSIZE && forall p | 0 <= p < 3 :: Share(pm, procs[p], p, n)
    ensures forall r | 0 <= r < 3 :: procs[r].InOp?
    ensures |procs[n % 3].used| < MAXOPBLOCKS && |procs[(n + 1) % 3].used| < MAXOPBLOCKS
  {
    hide Share;
    var p, q := n % 3, (n + 1) % 3;
    forall r | 0 <= r < 3 ensures procs[r].InOp? {
      ShareOp(pm, procs[r], r, n);
    }
    ShareIs(pm, procs[p], p, n);
    ShareNext(pm, procs[q], q, n);
    ShareIs(pm, procs[q], q, n + 1);
  }

  lemma HasNot(pm: Params, cache: map<int, Buf>, n: nat)
    requires HasHomes(pm, cache, n)
    ensures HomeBlock(pm, n) !in cache && HomeBlock(pm, n + 1) !in cache && |cache| == n
  {
  }

  /** The capacity test is made before the lock is taken: on a log of 2 to LOGSIZE blocks two
      racing log_writes leave a list whose last log block lies behind the log area. */
  lemma RaceOverrunsLog(pm: Params, m: nat) returns (t: State)
    requires Roomy(pm) && 2 <= pm.size <= LOGSIZE && pm.size <= m
    ensures Reached(pm, m, t) && t.phase == Running && |t.lh| == pm.size && pm.Home(pm.start + |t.lh|)
    ensures Overrun(pm, t) && t.outstanding == 3 && |t.procs| == pm.nproc
    ensures (forall p | 0 <= p < 3 :: t.procs[p].InOp?) && AllDirty(t.cache)
  {
    hide Reached, Logged, Overrun, AllDirty;
    var n := pm.size - 2;
    var s := LogUpTo(pm, m, n);
    RaceReady(pm, s, n);
    var p, q, x := n % 3, (n + 1) % 3, seq(WORDS, _ => 1);
    t := RaceSteps(pm, m, s, p, HomeBlock(pm, n), q, HomeBlock(pm, n + 1), x);
    RacedOverruns(pm, s, p, q, x);
  }

  lemma ShareOp(pm: Params, pr: Proc, p: nat, n: nat)
    requires Share(pm, pr, p, n)
    ensures pr.InOp?
  {
  }

  /** The last of the three operations starts the commit. */
  lemma EndAll(pm: Params, m: nat, s: State) returns (t: State)
    requires Reached(pm, m, s) && |s.cache| <= m
    requires s.phase == Running && !s.panicked && s.outstanding == 3 && |s.procs| >= 3 && s.lh != []
    requires (forall b | b in s.cache :: s.cache[b].holder == Free) && (forall p | 0 <= p < 3 :: s.procs[p].InOp?)
    ensures Reached(pm, m, t)
    ensures t == s.(phase := WriteLog(0), outstanding := 0, procs := s.procs[0 := Idle][1 := Idle][2 := Idle],
                    hist := s.hist + [End(0)] + [End(1)] + [End(2)])
  {
    OneMore(pm, m, s, EndOp(0));
    t := Do(pm, s, EndOp(0));
    OneMore(pm, m, t, EndOp(1));
    t := Do(pm, t, EndOp(1));
    OneMore(pm, m, t, EndOp(2));
    t := Do(pm, t, EndOp(2));
  }

  /** A round of write_log, after which the buffer of its log block is recycled. */
  lemma OneRound(pm: Params, m: nat, s: State, i: nat) returns (t: State)
    requires Roomy(pm) && 2 <= pm.size <= LOGSIZE && pm.size < m && i < pm.size
    requires Reached(pm, m, s) && Overrun(pm, s) && s.phase == WriteLog(i)
    ensures Reached(pm, m, t) && Overrun(pm, t) && t.phase == WriteLog(i + 1)
    ensures i + 1 == pm.size ==> t.disk[HomeBlock(pm, 0)][0] == 1
  {
    hide HeadList, Reached, Homes, ZeroWrites, HasHomes;
    var b, src := LogBlock(pm, i), HomeBlock(pm, i);
    HasIn(pm, s.cache, pm.size, i);
    RoundCache(pm, s.cache, i, Buf(s.cache[src].data, false, Free, false));
    OneMore(pm, m, s, Commit);
    t := Do(pm, s, Commit);
    if i + 1 < pm.size {
      OneMore(pm, m, t, Evict(b));
      t := Do(pm, t, Evict(b));
    }
  }

  /** What a round does to the cache. */
  lemma RoundCache(pm: Params, cache: map<int, Buf>, i: nat, x: Buf)
    requires HasHomes(pm, cache, pm.size) && i < pm.size && x.holder == Free
    ensures HomeBlock(pm, i) in cache && Unheldable(cache, LogBlock(pm, i))
    ensures var c := cache[HomeBlock(pm, i) := cache[HomeBlock(pm, i)]][LogBlock(pm, i) := x];
      if i + 1 < pm.size then |c| == pm.size + 1 && c - {LogBlock(pm, i)} == cache else |c| == pm.size && HasHomes(pm, c, pm.size)
  {
    assert cache[HomeBlock(pm, i) := cache[HomeBlock(pm, i)]] == cache;
    OneBuffer(cache, LogBlock(pm, i), x);
    if i + 1 == pm.size { HasSame(pm, cache, pm.size, 0, x); }
  }

  ghost predicate Unheldable(cache: map<int, Buf>, b: int) {
    b in cache ==> cache[b].holder == Free
  }

  /** write_log up to its last round, which writes home block 0. */
  lemma {:induction false} WriteOver(pm: Params, m: nat, s: State, i: nat) returns (t: State)
    requires Roomy(pm) && 2 <= pm.size <= LOGSIZE && pm.size < m && i <= pm.size
    requires Reached(pm, m, s) && Overrun(pm, s) && s.phase == WriteLog(i)
    requires i == pm.size ==> s.disk[HomeBlock(pm, 0)][0] == 1
    ensures Reached(pm, m, t) && Overrun(pm, t) && t.disk[HomeBlock(pm, 0)][0] == 1
    decreases pm.size - i
  {
    hide Reached, Overrun;
    OverrunSized(pm, s);
    if i == pm.size {
      t := s;
    } else {
      t := OneRound(pm, m, s, i);
      OverrunSized(pm, t);
      t := WriteOver(pm, m, t, i + 1);
    }
  }

  lemma OverrunSized(pm: Params, s: State)
    requires Overrun(pm, s)
    ensures |s.disk| == pm.nblocks
  {
  }

  lemma {:induction false} ZeroStays(init: seq<Block>, h: seq<Event>, b: int)
    requires InRange(init, b) && AllZero(init[b]) && ZeroWrites(h, b)
    ensures AllZero(Apply(init, h)[b])
  {
    if h != [] { ZeroStays(init, h[..|h| - 1], b); }
  }

  /** On a log of 2 to LOGSIZE blocks, with more buffers than blocks in the log, operations
      within their budget, and a crash in the middle of write_log, leave a disk that recovery
      turns into the state after no prefix of the history at all. */
  lemma OverrunTears(pm: Params, m: nat) returns (t: State)
    requires Roomy(pm) && 2 <= pm.size <= LOGSIZE && pm.size < m
    ensures Reached(pm, m, t) && !t.panicked && |t.disk| == pm.nblocks
    ensures forall k | 0 <= k <= |t.hist| :: !SameHome(pm, Recovered(pm, t.disk), Apply(ZeroDisk(pm), t.hist[..k]))
  {
    hide Reached, HeadList;
    t := RaceOverrunsLog(pm, m);
    t := EndAll(pm, m, t);
    t := WriteOver(pm, m, t, 0);
    var b := HomeBlock(pm, 0);
    assert Recovered(pm, t.disk)[b][0] == 1;
    forall k | 0 <= k <= |t.hist|
      ensures !SameHome(pm, Recovered(pm, t.disk), Apply(ZeroDisk(pm), t.hist[..k]))
    {
      ZeroStays(ZeroDisk(pm), t.hist[..k], b);
      assert pm.Home(b);
    }
  }

  // Atomicity

  /** Recovering the disk in s gives the state after k events, which hold every acknowledged
      commit and whole operations only. */
  ghost predicate RecoversTo(pm: Params, init: seq<Block>, s: State, k: nat) {
    pm.Valid() && |s.disk| == |init| == pm.nblocks &&
    s.acked <= k <= |s.hist| && Open(s.hist[..k]) == {} && SameHome(pm, Recovered(pm, s.disk), Apply(init, s.hist[..k]))
  }

  ghost predicate Atomic(pm: Params, init: seq<Block>, boot: State, steps: seq<Step>) {
    Boot(pm, init, boot) && CanRun(pm, boot, steps) ==>
      exists k: nat :: RecoversTo(pm, init, Run(pm, boot, steps), k)
  }

  /** The same of the runs of a kernel with m buffers. */
  ghost predicate AtomicWithin(pm: Params, m: nat, init: seq<Block>, boot: State, steps: seq<Step>) {
    CanRun(pm, boot, steps) && Bounded(pm, boot, steps, m) ==> Atomic(pm, init, boot, steps)
  }

  lemma FittingAtomic(pm: Params, init: seq<Block>, boot: State, steps: seq<Step>)
    requires Boot(pm, init, boot) && CanRun(pm, boot, steps) && FittingRun(pm, boot, steps)
    ensures Atomic(pm, init, boot, steps)
  {
    CrashAtomicity(pm, init, boot, steps);
    assert RecoversTo(pm, init, Run(pm, boot, steps), Run(pm, boot, steps).durable);
  }

  lemma TornNotAtomic(pm: Params, m: nat) returns (steps: seq<Step>)
    requires Roomy(pm) && 2 <= pm.size <= LOGSIZE && pm.size < m
    ensures CanRun(pm, BootState(pm), steps) && Bounded(pm, BootState(pm), steps, m)
    ensures !Atomic(pm, ZeroDisk(pm), BootState(pm), steps)
  {
    var t := OverrunTears(pm, m);
    steps :| Leads(pm, m, steps, t);
    assert ZeroDisk(pm)[pm.start] == ZERO && HeadList(ZERO) == [];
    assert forall k: nat :: !RecoversTo(pm, ZeroDisk(pm), t, k);
  }

  /** With m buffers crashes are atomic in every run exactly when the log is larger than LOGSIZE,
      is the header alone, or has at least m blocks. */
  lemma AtomicWithinIff(pm: Params, m: nat)
    requires Roomy(pm)
    ensures (forall init, boot, steps :: AtomicWithin(pm, m, init, boot, steps)) <==>
            pm.size > LOGSIZE || pm.size == 1 || pm.size >= m
  {
    hide Atomic, Boot, CanRun, Bounded, FittingRun;
    if pm.size > LOGSIZE || pm.size == 1 || pm.size >= m {
      forall init, boot, steps ensures AtomicWithin(pm, m, init, boot, steps) {
        if Boot(pm, init, boot) && CanRun(pm, boot, steps) && Bounded(pm, boot, steps, m) {
          if pm.size > LOGSIZE || pm.size == 1 {
            RunsFit(pm, init, boot, steps);
          } else {
            BootInv(pm, init, boot);
            BoundedFits(pm, init, boot, steps, m);
          }
          FittingAtomic(pm, init, boot, steps);
        } else if !Boot(pm, init, boot) {
          NoBoot(pm, init, boot, steps);
        }
      }
    } else {
      var steps := TornNotAtomic(pm, m);
      assert !AtomicWithin(pm, m, ZeroDisk(pm), BootState(pm), steps);
    }
  }

  lemma NoBoot(pm: Params, init: seq<Block>, boot: State, steps: seq<Step>)
    requires !Boot(pm, init, boot)
    ensures Atomic(pm, init, boot, steps)
  {
  }

  /** Whatever the number of buffers: exactly when the log is larger than LOGSIZE, or is the
      header alone. */
  lemma AtomicIff(pm: Params)
    requires Roomy(pm)
    ensures (forall init, boot, steps :: Atomic(pm, init, boot, steps)) <==> pm.size > LOGSIZE || pm.size == 1
  {
    hide Boot, CanRun, Bounded, FittingRun;
    if pm.size > LOGSIZE || pm.size == 1 {
      forall init, boot, steps ensures Atomic(pm, init, boot, steps) {
        if Boot(pm, init, boot) && CanRun(pm, boot, steps) {
          RunsFit(pm, init, boot, steps);
          FittingAtomic(pm, init, boot, steps);
        }
      }
    } else {
      var steps := TornNotAtomic(pm, pm.size + 1);
      assert !Atomic(pm, ZeroDisk(pm), BootState(pm), steps);
    }
  }

  /** The test counts entries, not new ones: an operation that re-logs a block after using its
      whole budget can panic however large the log is. */
  lemma AbsorbedWritePanics(pm: Params) returns (s: State, st: Step)
    requires Roomy(pm) && pm.size > LOGSIZE
    ensures Reached(pm, NBUF, s) && st.Check? && Enabled(pm, s, st) && st.b in s.procs[st.p].used
    ensures Do(pm, s, st).panicked
  {
    hide Reached;
    s := LogUpTo(pm, NBUF, LOGSIZE);
    assert Share(pm, s.procs[0], 0, LOGSIZE);
    var b := HomeBlock(pm, 0);
    assert s.lh[0] == b && b in s.lh;
    s := TakeBuf(pm, NBUF, s, 0, b);
    assert s.procs[0].used + {b} == s.procs[0].used;
    st := Check(0, b);
  }

  // The kernel as it is

  /** NBUF, the number of buffers in the cache, equals LOGSIZE. */
  const NBUF := LOGSIZE

  /** The image mkfs makes: its log begins at block 2 and is LOGSIZE blocks long. */
  const SHIPPED := Params(2, LOGSIZE, 1000, 64)

  /** On the shipped image operations within their budget can make log_write panic. */
  lemma ShippedImagePanics() returns (t: State)
    ensures Roomy(SHIPPED) && Reached(SHIPPED, NBUF, t) && t.panicked
  {
    t := SmallLogPanics(SHIPPED, NBUF);
  }

  /** On the shipped image crashes are atomic with the NBUF buffers there are, and would not be
      with one more. */
  lemma ShippedImageAtomic() returns (steps: seq<Step>)
    ensures Roomy(SHIPPED) && forall init, boot, more :: AtomicWithin(SHIPPED, NBUF, init, boot, more)
    ensures !AtomicWithin(SHIPPED, NBUF + 1, ZeroDisk(SHIPPED), BootState(SHIPPED), steps)
  {
    hide Atomic, CanRun, Bounded;
    AtomicWithinIff(SHIPPED, NBUF);
    steps := TornNotAtomic(SHIPPED, NBUF + 1);
  }

  /** The state bget panics in: every buffer is dirty, and none is that of the log block. */
  ghost predicate Starved(pm: Params, s: State) {
    && |s.cache| == NBUF && LogBlock(pm, 0) !in s.cache
    && (forall b | b in s.cache :: s.cache[b].dirty && s.cache[b].holder == Free)
  }

  lemma StarvedStops(pm: Params, s: State)
    requires Starved(pm, s)
    ensures forall drop :: !RoundFits(s, drop, LogBlock(pm, 0), NBUF)
  {
    forall drop
      ensures !RoundFits(s, drop, LogBlock(pm, 0), NBUF)
    {
      var dst := LogBlock(pm, 0);
      if Droppable(s, drop) {
        assert forall b | b in s.cache :: b !in drop;
        assert s.cache.Keys - drop == s.cache.Keys;
        assert |s.cache.Keys + {dst}| == |s.cache| + 1;
      }
    }
  }

  /** On any log of at least LOGSIZE blocks, a kernel with NBUF buffers and operations within
      their budget reach a commit for whose first log block there is no buffer. */
  lemma FullLogStarves(pm: Params) returns (t: State)
    requires Roomy(pm) && pm.size >= LOGSIZE
    ensures Reached(pm, NBUF, t) && t.phase == WriteLog(0) && !t.panicked && Starved(pm, t)
    ensures forall drop :: !RoundFits(t, drop, LogBlock(pm, 0), NBUF)
  {
    hide Reached, Share, HeadList, Blank;
    if pm.size == LOGSIZE {
      t := RaceOverrunsLog(pm, NBUF);
    } else {
      t := LogUpTo(pm, NBUF, LOGSIZE);
      forall p | 0 <= p < 3 ensures t.procs[p].InOp? {
        ShareOp(pm, t.procs[p], p, LOGSIZE);
      }
    }
    assert t.lh != [];
    t := EndAll(pm, NBUF, t);
    StarvedStops(pm, t);
  }
}
