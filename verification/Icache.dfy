/**
 The inode cache (kernel/fs.c) under concurrency.  An agent is one reference to a cached inode
 together with what its owner is doing through it; there may be any number of agents.
 */
module Icache {
  /** What the disk and the cache keep of an inode; `rest` stands for sizes and addresses. */
  datatype Inode = Inode(typ: int, nlink: nat, rest: int)

  /** holder is the agent holding the sleep lock, -1 for none. */
  datatype Entry = Entry(inum: nat, ref: nat, valid: bool, mem: Inode, holder: int)

  /** Idle reference; inside ilock with the lock; after ilock; after a change not written back;
      then iput: with the lock, having seen the last reference, after itrunc, after the type is
      cleared on disk, after valid is cleared, after the lock is released.  NoType is ilock's
      panic on an inode without a type: that agent never moves again. */
  datatype Pc = Has | Raw | Locked | Dirty | Put | Freeing | Trunced | Freed | Invalid | Dropping | NoType

  /** Alloced is ialloc between marking the inode on disk and iget. */
  datatype Agent = Nobody | Alloced(inum: nat) | At(e: nat, pc: Pc)

  datatype State = State(disk: seq<Inode>, entries: seq<Entry>, agents: seq<Agent>)

  datatype Step =
    | Iget(t: nat, inum: nat) | Idup(t: nat, from: nat)
    | Ilock(t: nat) | Load(t: nat) | Change(t: nat, x: Inode) | Iupdate(t: nat) | Iunlock(t: nat)
    | PutLock(t: nat) | PutCheck(t: nat) | PutTrunc(t: nat) | PutFree(t: nat) | PutInvalid(t: nat)
    | PutRelease(t: nat) | PutDrop(t: nat)
    | IallocWrite(t: nat, typ: int, inum: nat) | IallocGet(t: nat)

  predicate Holding(pc: Pc) {
    pc != Has && pc != Dropping
  }

  /** The reference is to an allocated inode. */
  predicate Client(pc: Pc) {
    pc != Freed && pc != Invalid && pc != Dropping
  }

  ghost predicate Init(s: State) {
    && (forall t | 0 <= t < |s.agents| :: s.agents[t] == Nobody)
    && (forall e | 0 <= e < |s.entries| :: s.entries[e].ref == 0 && s.entries[e].holder == -1)
  }

  // iget's scan

  /** The entry in use for inum, |es| if there is none. */
  function Cached(es: seq<Entry>, inum: nat, i: nat := 0): (r: nat)
    requires i <= |es|
    ensures i <= r <= |es| && (r < |es| ==> es[r].ref > 0 && es[r].inum == inum)
    ensures forall j | i <= j < r :: !(es[j].ref > 0 && es[j].inum == inum)
    decreases |es| - i
  {
    if i == |es| || (es[i].ref > 0 && es[i].inum == inum) then i else Cached(es, inum, i + 1)
  }

  function FirstEmpty(es: seq<Entry>, i: nat := 0): (r: nat)
    requires i <= |es|
    ensures i <= r <= |es| && (r < |es| ==> es[r].ref == 0)
    decreases |es| - i
  {
    if i == |es| || es[i].ref == 0 then i else FirstEmpty(es, i + 1)
  }

  function IgetEntry(es: seq<Entry>, inum: nat): (r: nat)
    ensures r <= |es|
  {
    if Cached(es, inum) < |es| then Cached(es, inum) else FirstEmpty(es)
  }

  function IgetEntries(es: seq<Entry>, inum: nat): (r: seq<Entry>)
    requires IgetEntry(es, inum) < |es|
  {
    var e := IgetEntry(es, inum);
    if Cached(es, inum) < |es| then es[e := es[e].(ref := es[e].ref + 1)]
    else es[e := es[e].(inum := inum, ref := 1, valid := false)]
  }

  /** iget's loop over the cache, which looks for the entry and an empty slot at once. */
  method IgetScan(es: array<Entry>, inum: nat) returns (e: nat)
    modifies es
    ensures e == IgetEntry(old(es[..]), inum)
    ensures e < es.Length ==> es[..] == IgetEntries(old(es[..]), inum)
    ensures e == es.Length ==> es[..] == old(es[..])
  {
    var empty := es.Length;
    var ip := 0;
    while ip < es.Length
      invariant ip <= es.Length && es[..] == old(es[..])
      invariant Cached(es[..], inum) == Cached(es[..], inum, ip)
      invariant if empty == es.Length then FirstEmpty(es[..]) == FirstEmpty(es[..], ip) else FirstEmpty(es[..]) == empty
    {
      if es[ip].ref > 0 && es[ip].inum == inum {
        es[ip] := es[ip].(ref := es[ip].ref + 1);
        return ip;
      }
      if empty == es.Length && es[ip].ref == 0 {
        empty := ip;
      }
      ip := ip + 1;
    }
    if empty < es.Length {
      es[empty] := es[empty].(inum := inum, ref := 1, valid := false);
    }
    return empty;
  }

  // Steps

  predicate Doing(s: State, t: nat, pc: Pc) {
    t < |s.agents| && s.agents[t].At? && s.agents[t].pc == pc && s.agents[t].e < |s.entries| &&
    s.entries[s.agents[t].e].inum < |s.disk|
  }

  predicate Enabled(s: State, st: Step) {
    match st
    case Iget(t, inum) =>
      t < |s.agents| && s.agents[t] == Nobody && inum < |s.disk| && IgetEntry(s.entries, inum) < |s.entries|
    case Idup(t, from) =>
      t < |s.agents| && s.agents[t] == Nobody && (Doing(s, from, Has) || Doing(s, from, Locked))
    case Ilock(t) => Doing(s, t, Has) && s.entries[s.agents[t].e].holder == -1
    case Load(t) => Doing(s, t, Raw)
    case Change(t, x) => (Doing(s, t, Locked) || Doing(s, t, Dirty)) && x.typ != 0
    case Iupdate(t) => Doing(s, t, Locked) || Doing(s, t, Dirty)
    // A changed inode is written back before it is unlocked.
    case Iunlock(t) => Doing(s, t, Locked)
    case PutLock(t) => Doing(s, t, Has) && s.entries[s.agents[t].e].holder == -1
    case PutCheck(t) => Doing(s, t, Put)
    case PutTrunc(t) => Doing(s, t, Freeing)
    case PutFree(t) => Doing(s, t, Trunced)
    case PutInvalid(t) => Doing(s, t, Freed)
    case PutRelease(t) => Doing(s, t, Invalid)
    case PutDrop(t) => Doing(s, t, Dropping) && s.entries[s.agents[t].e].ref > 0
    // The source looks at one inode after the other: any one it finds free.
    case IallocWrite(t, typ, inum) =>
      t < |s.agents| && s.agents[t] == Nobody && typ != 0 && 1 <= inum < |s.disk| && s.disk[inum].typ == 0
    case IallocGet(t) =>
      t < |s.agents| && s.agents[t].Alloced? && s.agents[t].inum < |s.disk| &&
      IgetEntry(s.entries, s.agents[t].inum) < |s.entries|
  }

  /** Agent t moves on to pc, its entry and inode becoming x and d. */
  function Local(s: State, t: nat, pc: Pc, x: Entry, d: Inode): State
    requires t < |s.agents| && s.agents[t].At? && s.agents[t].e < |s.entries| && s.entries[s.agents[t].e].inum < |s.disk|
  {
    var e := s.agents[t].e;
    State(s.disk[s.entries[e].inum := d], s.entries[e := x], s.agents[t := At(e, pc)])
  }

  predicate IsLocal(st: Step) {
    !st.Iget? && !st.IallocGet? && !st.Idup? && !st.PutDrop? && !st.IallocWrite?
  }

  /** The steps of an agent on its own entry. */
  function NextLocal(s: State, st: Step): State
    requires Enabled(s, st) && IsLocal(st)
  {
    var t := st.t;
    var x := s.entries[s.agents[t].e];
    var d := s.disk[x.inum];
    match st
    case Ilock(_) => Local(s, t, Raw, x.(holder := t), d)
    case Load(_) =>
      if x.valid then Local(s, t, Locked, x, d)
      else Local(s, t, if d.typ == 0 then NoType else Locked, x.(mem := d, valid := true), d)
    case Change(_, y) => Local(s, t, Dirty, x.(mem := y), d)
    case Iupdate(_) => Local(s, t, Locked, x, x.mem)
    case Iunlock(_) => Local(s, t, Has, x.(holder := -1), d)
    case PutLock(_) => Local(s, t, Put, x.(holder := t), d)
    case PutCheck(_) =>
      if x.valid && x.mem.nlink == 0 && x.ref == 1 then Local(s, t, Freeing, x, d)
      else Local(s, t, Dropping, x.(holder := -1), d)
    case PutTrunc(_) => var y := x.mem.(rest := 0); Local(s, t, Trunced, x.(mem := y), y)
    case PutFree(_) => var y := x.mem.(typ := 0); Local(s, t, Freed, x.(mem := y), y)
    case PutInvalid(_) => Local(s, t, Invalid, x.(valid := false), d)
    case PutRelease(_) => Local(s, t, Dropping, x.(holder := -1), d)
  }

  function Next(s: State, st: Step): State
    requires Enabled(s, st)
  {
    match st
    case Iget(t, inum) =>
      s.(entries := IgetEntries(s.entries, inum), agents := s.agents[t := At(IgetEntry(s.entries, inum), Has)])
    case IallocGet(t) =>
      var inum := s.agents[t].inum;
      s.(entries := IgetEntries(s.entries, inum), agents := s.agents[t := At(IgetEntry(s.entries, inum), Has)])
    case Idup(t, from) =>
      var e := s.agents[from].e;
      s.(entries := s.entries[e := s.entries[e].(ref := s.entries[e].ref + 1)], agents := s.agents[t := At(e, Has)])
    case PutDrop(t) =>
      var e := s.agents[t].e;
      s.(entries := s.entries[e := s.entries[e].(ref := s.entries[e].ref - 1)], agents := s.agents[t := Nobody])
    case IallocWrite(t, typ, inum) =>
      s.(disk := s.disk[inum := Inode(typ, 0, 0)], agents := s.agents[t := Alloced(inum)])
    case _ => NextLocal(s, st)
  }

  ghost predicate CanRun(s: State, steps: seq<Step>)
    decreases |steps|
  {
    steps == [] || (Enabled(s, steps[0]) && CanRun(Next(s, steps[0]), steps[1..]))
  }

  ghost function Execute(s: State, steps: seq<Step>): State
    requires CanRun(s, steps)
    decreases |steps|
  {
    if steps == [] then s else Execute(Next(s, steps[0]), steps[1..])
  }

  // The invariant

  function One(a: Agent, e: nat): nat {
    if a.At? && a.e == e then 1 else 0
  }

  /** How many references to entry e there are. */
  function Count(agents: seq<Agent>, e: nat): nat {
    if agents == [] then 0 else One(agents[0], e) + Count(agents[1..], e)
  }

  ghost predicate RefsOk(agents: seq<Agent>, entries: seq<Entry>) {
    forall e | 0 <= e < |entries| :: entries[e].ref == Count(agents, e)
  }

  /** An agent's entry exists, and it holds the lock just when its pc says so. */
  ghost predicate AgentAt(s: State, t: nat, a: Agent) {
    a.At? ==>
      a.e < |s.entries| && s.entries[a.e].inum < |s.disk| && (Holding(a.pc) <==> s.entries[a.e].holder == t)
  }

  /** What an entry holds, given its inode on disk and where its holder is. */
  ghost predicate EntryOk(x: Entry, d: Inode, h: Agent) {
    && (x.valid && !(h.At? && (h.pc == Dirty || h.pc == Freed || h.pc == NoType)) ==> x.mem == d)
    && (x.valid && !(h.At? && (h.pc == Freed || h.pc == NoType)) ==> x.mem.typ != 0)
    && (h.At? && h.pc == Dirty ==> d.typ != 0)
    && (h.At? && (h.pc == Locked || h.pc == Dirty || h.pc == Freeing || h.pc == Trunced || h.pc == Freed) ==> x.valid)
    && (h.At? && (h.pc == Freeing || h.pc == Trunced) ==> x.mem.nlink == 0)
    && (h.At? && h.pc == Invalid ==> !x.valid)
  }

  ghost function HolderOf(agents: seq<Agent>, x: Entry): Agent {
    if 0 <= x.holder < |agents| then agents[x.holder] else Nobody
  }

  ghost predicate EntryAt(s: State, e: nat, x: Entry) {
    && (x.holder != -1 ==> 0 <= x.holder < |s.agents| && HolderOf(s.agents, x).At? && HolderOf(s.agents, x).e == e)
    && (x.ref > 0 ==> x.inum < |s.disk| && EntryOk(x, s.disk[x.inum], HolderOf(s.agents, x)))
  }

  ghost predicate Apart(x: Entry, y: Entry) {
    x.ref > 0 && y.ref > 0 ==> x.inum != y.inum
  }

  ghost predicate AgentsOk(s: State) {
    forall t | 0 <= t < |s.agents| :: AgentAt(s, t, s.agents[t])
  }

  ghost predicate EntriesOk(s: State) {
    forall e | 0 <= e < |s.entries| :: EntryAt(s, e, s.entries[e])
  }

  ghost predicate Unique(entries: seq<Entry>) {
    forall e, f | 0 <= e < |entries| && 0 <= f < |entries| && e != f :: Apart(entries[e], entries[f])
  }

  /** What every step keeps, whatever inode iget is asked for. */
  ghost predicate Inv(s: State) {
    RefsOk(s.agents, s.entries) && AgentsOk(s) && EntriesOk(s) && Unique(s.entries)
  }

  /** References other than those left over from freeing are to allocated inodes. */
  ghost predicate TypedAt(s: State, a: Agent) {
    && (a.At? ==>
          && a.e < |s.entries| && s.entries[a.e].inum < |s.disk| && a.pc != NoType
          && (Client(a.pc) ==> s.disk[s.entries[a.e].inum].typ != 0))
    && (a.Alloced? ==> a.inum < |s.disk| && s.disk[a.inum].typ != 0 && s.disk[a.inum].nlink == 0)
  }

  /** While one agent frees an inode no other refers to it; while one allocates it, the others
      are leftovers. */
  ghost predicate PairAt(entries: seq<Entry>, a: Agent, b: Agent) {
    && (a.At? && b.At? && Alone(a.pc) ==> b.e != a.e)
    && (a.Alloced? && b.Alloced? ==> b.inum != a.inum)
    && (a.Alloced? && b.At? && b.e < |entries| && entries[b.e].inum == a.inum ==> !Client(b.pc))
  }

  predicate Alone(pc: Pc) {
    pc == Freeing || pc == Trunced
  }

  ghost predicate PairsOk(agents: seq<Agent>, entries: seq<Entry>) {
    forall t, u | 0 <= t < |agents| && 0 <= u < |agents| && t != u :: PairAt(entries, agents[t], agents[u])
  }

  ghost predicate AllTyped(s: State) {
    forall t | 0 <= t < |s.agents| :: TypedAt(s, s.agents[t])
  }

  /** Kept by every step but an iget of an inode that is free or about to be. */
  ghost predicate Typed(s: State) {
    Inv(s) && AllTyped(s) && PairsOk(s.agents, s.entries)
  }

  // Counting references

  lemma {:induction false} CountSet(agents: seq<Agent>, t: nat, a: Agent, e: nat)
    requires t < |agents|
    ensures Count(agents[t := a], e) == Count(agents, e) - One(agents[t], e) + One(a, e)
  {
    if t == 0 {
      assert agents[t := a][1..] == agents[1..];
    } else {
      assert agents[t := a][1..] == agents[1..][t - 1 := a];
      CountSet(agents[1..], t - 1, a, e);
    }
  }

  lemma {:induction false} CountOne(agents: seq<Agent>, t: nat, e: nat)
    requires t < |agents|
    ensures Count(agents, e) >= One(agents[t], e)
  {
    if t > 0 {
      CountOne(agents[1..], t - 1, e);
    }
  }

  lemma {:induction false} CountTwo(agents: seq<Agent>, t: nat, u: nat, e: nat)
    requires t < u < |agents|
    ensures Count(agents, e) >= One(agents[t], e) + One(agents[u], e)
  {
    if t > 0 {
      CountTwo(agents[1..], t - 1, u - 1, e);
    } else {
      CountOne(agents[1..], u - 1, e);
    }
  }

  lemma {:induction false} CountNone(agents: seq<Agent>, e: nat)
    requires forall t | 0 <= t < |agents| :: agents[t] == Nobody
    ensures Count(agents, e) == 0
  {
    if agents != [] {
      CountNone(agents[1..], e);
    }
  }

  lemma InitInv(s: State)
    requires Init(s)
    ensures Inv(s) && Typed(s)
  {
    forall e | 0 <= e < |s.entries|
      ensures s.entries[e].ref == Count(s.agents, e)
    {
      CountNone(s.agents, e);
    }
  }

  /** The entry of an agent is in use. */
  lemma InUse(s: State, t: nat)
    requires Inv(s) && t < |s.agents| && s.agents[t].At?
    ensures s.agents[t].e < |s.entries| && s.entries[s.agents[t].e].ref > 0 && s.entries[s.agents[t].e].inum < |s.disk|
  {
    assert AgentAt(s, t, s.agents[t]);
    CountOne(s.agents, t, s.agents[t].e);
  }

  // An agent's step on its own entry

  ghost predicate LockMoves(t: nat, pc: Pc, pc2: Pc, y: Entry, x: Entry) {
    if Holding(pc) == Holding(pc2) then x.holder == y.holder
    else if Holding(pc2) then y.holder == -1 && x.holder == t
    else x.holder == -1
  }

  /** What a local step must respect: y and was are the entry and its inode before it. */
  ghost predicate LocalOk(t: nat, pc: Pc, pc2: Pc, y: Entry, x: Entry, was: Inode, d: Inode) {
    x.inum == y.inum && x.ref == y.ref && LockMoves(t, pc, pc2, y, x) && (d != was ==> Holding(pc))
  }

  ghost predicate OwnEntry(s: State, t: nat) {
    t < |s.agents| && s.agents[t].At? && s.agents[t].e < |s.entries| && s.entries[s.agents[t].e].inum < |s.disk|
  }

  ghost predicate LocalMove(s: State, t: nat, pc: Pc, x: Entry, d: Inode) {
    OwnEntry(s, t) &&
    var y := s.entries[s.agents[t].e]; LocalOk(t, s.agents[t].pc, pc, y, x, s.disk[y.inum], d)
  }

  lemma LocalAgents(s: State, t: nat, pc: Pc, x: Entry, d: Inode)
    requires Inv(s) && LocalMove(s, t, pc, x, d)
    ensures AgentsOk(Local(s, t, pc, x, d))
  {
    var r := Local(s, t, pc, x, d);
    assert AgentAt(s, t, s.agents[t]);
    forall u | 0 <= u < |r.agents|
      ensures AgentAt(r, u, r.agents[u])
    {
      assert AgentAt(s, u, s.agents[u]);
    }
  }

  lemma LocalRefs(s: State, t: nat, pc: Pc, x: Entry, d: Inode)
    requires Inv(s) && LocalMove(s, t, pc, x, d)
    ensures RefsOk(Local(s, t, pc, x, d).agents, Local(s, t, pc, x, d).entries)
    ensures Unique(Local(s, t, pc, x, d).entries)
  {
    var r := Local(s, t, pc, x, d);
    forall f | 0 <= f < |r.entries|
      ensures r.entries[f].ref == Count(r.agents, f)
    {
      CountSet(s.agents, t, At(s.agents[t].e, pc), f);
    }
    forall f, g | 0 <= f < |r.entries| && 0 <= g < |r.entries| && f != g
      ensures Apart(r.entries[f], r.entries[g])
    {
      assert Apart(s.entries[f], s.entries[g]);
    }
  }

  lemma LocalEntries(s: State, t: nat, pc: Pc, x: Entry, d: Inode)
    requires Inv(s) && LocalMove(s, t, pc, x, d)
    requires EntryOk(x, d, HolderOf(s.agents[t := At(s.agents[t].e, pc)], x))
    ensures EntriesOk(Local(s, t, pc, x, d))
  {
    var r := Local(s, t, pc, x, d);
    var e := s.agents[t].e;
    InUse(s, t);
    assert AgentAt(s, t, s.agents[t]);
    forall f | 0 <= f < |r.entries|
      ensures EntryAt(r, f, r.entries[f])
    {
      assert EntryAt(s, f, s.entries[f]);
      assert f != e ==> Apart(s.entries[e], s.entries[f]);
    }
  }

  /** A local step respects LocalOk and leaves its own entry right. */
  ghost predicate IsLocalStep(s: State, st: Step, pc: Pc, x: Entry, d: Inode)
    requires Enabled(s, st) && IsLocal(st)
  {
    var e := s.agents[st.t].e;
    && NextLocal(s, st) == Local(s, st.t, pc, x, d) && LocalMove(s, st.t, pc, x, d)
    && EntryOk(x, d, HolderOf(s.agents[st.t := At(e, pc)], x))
  }

  lemma LocalIs(s: State, st: Step) returns (pc: Pc, x: Entry, d: Inode)
    requires Inv(s) && Enabled(s, st) && IsLocal(st)
    ensures IsLocalStep(s, st, pc, x, d)
  {
    hide Inv, AgentAt;
    var t := st.t;
    var e := s.agents[t].e;
    LocalFacts(s, t);
    var r := NextLocal(s, st);
    pc, x, d := r.agents[t].pc, r.entries[e], r.disk[s.entries[e].inum];
  }

  /** What the invariant says of an agent's own entry. */
  lemma LocalFacts(s: State, t: nat)
    requires Inv(s) && t < |s.agents| && s.agents[t].At?
    ensures OwnEntry(s, t)
    ensures var e := s.agents[t].e;
      && s.entries[e].ref > 0 && EntryAt(s, e, s.entries[e]) && AgentAt(s, t, s.agents[t])
      && (Holding(s.agents[t].pc) <==> s.entries[e].holder == t)
  {
    InUse(s, t);
  }

  lemma LocalKeeps(s: State, st: Step)
    requires Inv(s) && Enabled(s, st) && IsLocal(st)
    ensures Inv(Next(s, st))
  {
    hide RefsOk, AgentsOk, EntriesOk, Unique, EntryOk, LocalMove, NextLocal, Local;
    var pc, x, d := LocalIs(s, st);
    assert OwnEntry(s, st.t) by { LocalFacts(s, st.t); }
    LocalAgents(s, st.t, pc, x, d);
    LocalRefs(s, st.t, pc, x, d);
    LocalEntries(s, st.t, pc, x, d);
  }

  /** What a local step respects as long as all references are to allocated inodes. */
  ghost predicate LocalTyped(pc: Pc, pc2: Pc, ref: nat, was: Inode, d: Inode) {
    && pc2 != NoType
    && (Client(pc2) ==> Client(pc) && d.typ != 0)
    && (d != was ==> Client(pc) && (d.typ != 0 || Alone(pc)))
    && (Alone(pc2) ==> Alone(pc) || ref == 1)
  }

  lemma LocalIsTyped(s: State, st: Step, pc: Pc, x: Entry, d: Inode)
    requires Typed(s) && Enabled(s, st) && IsLocal(st) && IsLocalStep(s, st, pc, x, d)
    ensures var y := s.entries[s.agents[st.t].e]; LocalTyped(s.agents[st.t].pc, pc, y.ref, s.disk[y.inum], d)
  {
    assert TypedAt(s, s.agents[st.t]);
    LocalFacts(s, st.t);
    hide Typed, Inv, AgentAt;
    var r := NextLocal(s, st);
    assert r.agents[st.t].pc == pc && r.disk[s.entries[s.agents[st.t].e].inum] == d;
  }

  lemma LocalAllTyped(s: State, t: nat, pc: Pc, x: Entry, d: Inode)
    requires Typed(s) && LocalMove(s, t, pc, x, d)
    requires var y := s.entries[s.agents[t].e]; LocalTyped(s.agents[t].pc, pc, y.ref, s.disk[y.inum], d)
    ensures AllTyped(Local(s, t, pc, x, d))
  {
    var r := Local(s, t, pc, x, d);
    var e := s.agents[t].e;
    InUse(s, t);
    assert TypedAt(s, s.agents[t]);
    forall u | 0 <= u < |r.agents|
      ensures TypedAt(r, r.agents[u])
    {
      assert TypedAt(s, s.agents[u]);
      if u != t {
        assert PairAt(s.entries, s.agents[t], s.agents[u]) && PairAt(s.entries, s.agents[u], s.agents[t]);
        if s.agents[u].At? {
          InUse(s, u);
          assert s.agents[u].e != e ==> Apart(s.entries[e], s.entries[s.agents[u].e]);
        }
      }
    }
  }

  lemma LocalPairs(s: State, t: nat, pc: Pc, x: Entry, d: Inode)
    requires Typed(s) && LocalMove(s, t, pc, x, d)
    requires var y := s.entries[s.agents[t].e]; LocalTyped(s.agents[t].pc, pc, y.ref, s.disk[y.inum], d)
    ensures PairsOk(Local(s, t, pc, x, d).agents, Local(s, t, pc, x, d).entries)
  {
    var r := Local(s, t, pc, x, d);
    var e := s.agents[t].e;
    forall u, v | 0 <= u < |r.agents| && 0 <= v < |r.agents| && u != v
      ensures PairAt(r.entries, r.agents[u], r.agents[v])
    {
      assert PairAt(s.entries, s.agents[u], s.agents[v]);
      if u < v { CountTwo(s.agents, u, v, e); } else { CountTwo(s.agents, v, u, e); }
    }
  }

  lemma LocalKeepsTyped(s: State, st: Step)
    requires Typed(s) && Enabled(s, st) && IsLocal(st)
    ensures Typed(Next(s, st))
  {
    hide Inv, AllTyped, PairsOk, EntryOk, LocalMove, LocalTyped, NextLocal, Local;
    LocalKeeps(s, st);
    var pc, x, d := LocalIs(s, st);
    assert OwnEntry(s, st.t) by { LocalFacts(s, st.t); }
    LocalIsTyped(s, st, pc, x, d);
    LocalAllTyped(s, st.t, pc, x, d);
    LocalPairs(s, st.t, pc, x, d);
  }

  // Taking, dropping and allocating references

  /** Agent t, without a reference so far, gets one to entry e, which becomes x. */
  ghost predicate JoinOk(s: State, t: nat, e: nat, x: Entry) {
    && t < |s.agents| && e < |s.entries| && !s.agents[t].At?
    && x.inum < |s.disk| && x.ref == s.entries[e].ref + 1 && x.holder == s.entries[e].holder
    && (s.entries[e].ref > 0 ==> x == s.entries[e].(ref := x.ref))
    && (s.entries[e].ref == 0 ==> !x.valid && forall f | 0 <= f < |s.entries| && s.entries[f].ref > 0 :: s.entries[f].inum != x.inum)
  }

  /** The inode is allocated, and no other agent is freeing the entry or allocating it. */
  ghost predicate JoinSafe(s: State, t: nat, e: nat, inum: nat) {
    inum < |s.disk| && s.disk[inum].typ != 0 && forall u | 0 <= u < |s.agents| && u != t :: JoinPair(s.agents[u], e, inum)
  }

  ghost predicate JoinPair(b: Agent, e: nat, inum: nat) {
    (b.At? && Alone(b.pc) ==> b.e != e) && (b.Alloced? ==> b.inum != inum)
  }

  function Joined(s: State, t: nat, e: nat, x: Entry): State
    requires t < |s.agents| && e < |s.entries|
  {
    s.(entries := s.entries[e := x], agents := s.agents[t := At(e, Has)])
  }

  /** An entry out of use has no agents and no holder. */
  lemma Unused(s: State, e: nat)
    requires Inv(s) && e < |s.entries| && s.entries[e].ref == 0
    ensures s.entries[e].holder == -1
    ensures forall u | 0 <= u < |s.agents| && s.agents[u].At? :: s.agents[u].e != e
  {
    forall u | 0 <= u < |s.agents|
      ensures s.agents[u].At? ==> s.agents[u].e != e
    {
      CountOne(s.agents, u, e);
    }
    assert EntryAt(s, e, s.entries[e]);
  }

  lemma JoinAgents(s: State, t: nat, e: nat, x: Entry)
    requires Inv(s) && JoinOk(s, t, e, x)
    ensures AgentsOk(Joined(s, t, e, x))
  {
    var r := Joined(s, t, e, x);
    if s.entries[e].ref == 0 {
      Unused(s, e);
    }
    forall u | 0 <= u < |r.agents|
      ensures AgentAt(r, u, r.agents[u])
    {
      assert AgentAt(s, u, s.agents[u]) && EntryAt(s, e, s.entries[e]);
    }
  }

  lemma JoinEntries(s: State, t: nat, e: nat, x: Entry)
    requires Inv(s) && JoinOk(s, t, e, x)
    ensures EntriesOk(Joined(s, t, e, x)) && Unique(Joined(s, t, e, x).entries)
    ensures RefsOk(Joined(s, t, e, x).agents, Joined(s, t, e, x).entries)
  {
    var r := Joined(s, t, e, x);
    if s.entries[e].ref == 0 {
      Unused(s, e);
    }
    forall f | 0 <= f < |r.entries|
      ensures EntryAt(r, f, r.entries[f]) && r.entries[f].ref == Count(r.agents, f)
    {
      assert EntryAt(s, f, s.entries[f]);
      CountSet(s.agents, t, At(e, Has), f);
    }
    forall f, g | 0 <= f < |r.entries| && 0 <= g < |r.entries| && f != g
      ensures Apart(r.entries[f], r.entries[g])
    {
      assert Apart(s.entries[f], s.entries[g]);
    }
  }

  lemma JoinKeeps(s: State, t: nat, e: nat, x: Entry)
    requires Inv(s) && JoinOk(s, t, e, x)
    ensures Inv(Joined(s, t, e, x))
  {
    hide RefsOk, AgentsOk, EntriesOk, Unique, JoinOk;
    assert t < |s.agents| && e < |s.entries| by { JoinIndices(s, t, e, x); }
    JoinAgents(s, t, e, x);
    JoinEntries(s, t, e, x);
  }

  lemma JoinIndices(s: State, t: nat, e: nat, x: Entry)
    requires JoinOk(s, t, e, x)
    ensures t < |s.agents| && e < |s.entries|
  {
  }

  lemma JoinTyped(s: State, t: nat, e: nat, x: Entry)
    requires Typed(s) && JoinOk(s, t, e, x) && JoinSafe(s, t, e, x.inum)
    ensures AllTyped(Joined(s, t, e, x))
  {
    var r := Joined(s, t, e, x);
    if s.entries[e].ref == 0 {
      Unused(s, e);
    }
    forall u | 0 <= u < |r.agents|
      ensures TypedAt(r, r.agents[u])
    {
      assert TypedAt(s, s.agents[u]) && EntryAt(s, e, s.entries[e]);
    }
  }

  lemma JoinPairs(s: State, t: nat, e: nat, x: Entry)
    requires Typed(s) && JoinOk(s, t, e, x) && JoinSafe(s, t, e, x.inum)
    ensures PairsOk(Joined(s, t, e, x).agents, Joined(s, t, e, x).entries)
  {
    var r := Joined(s, t, e, x);
    if s.entries[e].ref == 0 {
      Unused(s, e);
    }
    forall u, v | 0 <= u < |r.agents| && 0 <= v < |r.agents| && u != v
      ensures PairAt(r.entries, r.agents[u], r.agents[v])
    {
      assert PairAt(s.entries, s.agents[u], s.agents[v]);
      assert u != t ==> JoinPair(s.agents[u], e, x.inum);
    }
  }

  /** A new reference keeps all references typed exactly when it is safe. */
  lemma JoinTypedIff(s: State, t: nat, e: nat, x: Entry)
    requires Typed(s) && JoinOk(s, t, e, x)
    ensures Typed(Joined(s, t, e, x)) <==> JoinSafe(s, t, e, x.inum)
  {
    hide Inv, AllTyped, PairsOk, JoinOk, JoinSafe;
    JoinIndices(s, t, e, x);
    JoinKeeps(s, t, e, x);
    if JoinSafe(s, t, e, x.inum) {
      JoinTyped(s, t, e, x);
      JoinPairs(s, t, e, x);
    }
    if Typed(Joined(s, t, e, x)) {
      JoinNeeds(s, t, e, x);
    }
  }

  lemma JoinNeeds(s: State, t: nat, e: nat, x: Entry)
    requires JoinOk(s, t, e, x) && Typed(Joined(s, t, e, x))
    ensures JoinSafe(s, t, e, x.inum)
  {
    hide Inv;
    var r := Joined(s, t, e, x);
    assert TypedAt(r, r.agents[t]);
    forall u | 0 <= u < |s.agents| && u != t
      ensures JoinPair(s.agents[u], e, x.inum)
    {
      assert PairAt(r.entries, r.agents[u], r.agents[t]);
    }
  }

  lemma IgetJoins(s: State, t: nat, inum: nat)
    requires Inv(s) && t < |s.agents| && IgetEntry(s.entries, inum) < |s.entries| && !s.agents[t].At? && inum < |s.disk|
    ensures var e := IgetEntry(s.entries, inum);
      IgetEntries(s.entries, inum) == s.entries[e := IgetEntries(s.entries, inum)[e]] &&
      JoinOk(s, t, e, IgetEntries(s.entries, inum)[e]) && IgetEntries(s.entries, inum)[e].inum == inum
  {
    var e := IgetEntry(s.entries, inum);
    assert EntryAt(s, e, s.entries[e]);
  }

  /** iget keeps the invariant for every inode, and all references typed exactly when the inode
      is allocated and no other agent is freeing it or between allocating and getting it. */
  lemma IgetTypedIff(s: State, t: nat, inum: nat)
    requires Inv(s) && Enabled(s, Iget(t, inum))
    ensures Inv(Next(s, Iget(t, inum)))
    ensures Typed(s) ==> (Typed(Next(s, Iget(t, inum))) <==> JoinSafe(s, t, IgetEntry(s.entries, inum), inum))
  {
    hide Inv, JoinOk, Typed, JoinSafe;
    IgetJoins(s, t, inum);
    var e := IgetEntry(s.entries, inum);
    var x := IgetEntries(s.entries, inum)[e];
    JoinKeeps(s, t, e, x);
    if Typed(s) {
      JoinTypedIff(s, t, e, x);
    }
  }

  /** An iget of an inode with links, as a directory entry should name, is safe. */
  lemma LinkedSafe(s: State, t: nat, inum: nat)
    requires Typed(s) && Enabled(s, Iget(t, inum)) && s.disk[inum].typ != 0 && s.disk[inum].nlink > 0
    ensures JoinSafe(s, t, IgetEntry(s.entries, inum), inum)
  {
    var e := IgetEntry(s.entries, inum);
    forall u | 0 <= u < |s.agents| && u != t
      ensures JoinPair(s.agents[u], e, inum)
    {
      assert TypedAt(s, s.agents[u]) && AgentAt(s, u, s.agents[u]);
      if s.agents[u].At? {
        InUse(s, u);
        assert EntryAt(s, s.agents[u].e, s.entries[s.agents[u].e]);
      }
    }
  }

  lemma IallocGetKeeps(s: State, t: nat)
    requires Inv(s) && Enabled(s, IallocGet(t))
    ensures Inv(Next(s, IallocGet(t))) && (Typed(s) ==> Typed(Next(s, IallocGet(t))))
  {
    hide Inv, JoinOk, JoinSafe;
    var inum := s.agents[t].inum;
    IgetJoins(s, t, inum);
    var e := IgetEntry(s.entries, inum);
    var x := IgetEntries(s.entries, inum)[e];
    JoinKeeps(s, t, e, x);
    if Typed(s) {
      AllocedSafe(s, t, e);
      hide Typed;
      JoinTypedIff(s, t, e, x);
    }
  }

  lemma AllocedSafe(s: State, t: nat, e: nat)
    requires Typed(s) && t < |s.agents| && s.agents[t].Alloced? && e == IgetEntry(s.entries, s.agents[t].inum)
    ensures JoinSafe(s, t, e, s.agents[t].inum)
  {
    var inum := s.agents[t].inum;
    assert TypedAt(s, s.agents[t]);
    forall u | 0 <= u < |s.agents| && u != t
      ensures JoinPair(s.agents[u], e, inum)
    {
      assert PairAt(s.entries, s.agents[t], s.agents[u]);
      if s.agents[u].At? {
        InUse(s, u);
      }
    }
  }

  lemma IdupKeeps(s: State, t: nat, from: nat)
    requires Inv(s) && Enabled(s, Idup(t, from))
    ensures Inv(Next(s, Idup(t, from))) && (Typed(s) ==> Typed(Next(s, Idup(t, from))))
  {
    hide Inv, Typed, JoinSafe;
    var e := s.agents[from].e;
    var x := s.entries[e].(ref := s.entries[e].ref + 1);
    InUse(s, from);
    JoinKeeps(s, t, e, x);
    if Typed(s) {
      DupSafe(s, t, from);
      JoinTypedIff(s, t, e, x);
    }
  }

  lemma DupSafe(s: State, t: nat, from: nat)
    requires Typed(s) && Enabled(s, Idup(t, from))
    ensures JoinSafe(s, t, s.agents[from].e, s.entries[s.agents[from].e].inum)
  {
    hide Inv;
    assert TypedAt(s, s.agents[from]);
    forall u | 0 <= u < |s.agents| && u != t
      ensures JoinPair(s.agents[u], s.agents[from].e, s.entries[s.agents[from].e].inum)
    {
      assert u != from ==> PairAt(s.entries, s.agents[u], s.agents[from]);
    }
  }

  lemma DropKeeps(s: State, t: nat)
    requires Inv(s) && Enabled(s, PutDrop(t))
    ensures Inv(Next(s, PutDrop(t)))
  {
    var r := Next(s, PutDrop(t));
    assert AgentAt(s, t, s.agents[t]);
    forall u | 0 <= u < |r.agents|
      ensures AgentAt(r, u, r.agents[u])
    {
      assert AgentAt(s, u, s.agents[u]);
    }
    forall f | 0 <= f < |r.entries|
      ensures EntryAt(r, f, r.entries[f]) && r.entries[f].ref == Count(r.agents, f)
    {
      assert EntryAt(s, f, s.entries[f]);
      CountSet(s.agents, t, Nobody, f);
    }
    forall f, g | 0 <= f < |r.entries| && 0 <= g < |r.entries| && f != g
      ensures Apart(r.entries[f], r.entries[g])
    {
      assert Apart(s.entries[f], s.entries[g]);
    }
  }

  lemma DropTyped(s: State, t: nat)
    requires Typed(s) && Enabled(s, PutDrop(t))
    ensures Typed(Next(s, PutDrop(t)))
  {
    DropKeeps(s, t);
    hide Inv;
    var r := Next(s, PutDrop(t));
    forall u | 0 <= u < |r.agents|
      ensures TypedAt(r, r.agents[u])
    {
      assert TypedAt(s, s.agents[u]);
    }
    forall u, v | 0 <= u < |r.agents| && 0 <= v < |r.agents| && u != v
      ensures PairAt(r.entries, r.agents[u], r.agents[v])
    {
      assert PairAt(s.entries, s.agents[u], s.agents[v]);
    }
  }

  lemma IallocKeeps(s: State, t: nat, typ: int, inum: nat)
    requires Inv(s) && Enabled(s, IallocWrite(t, typ, inum))
    ensures Inv(Next(s, IallocWrite(t, typ, inum)))
  {
    var r := Next(s, IallocWrite(t, typ, inum));
    forall u | 0 <= u < |r.agents|
      ensures AgentAt(r, u, r.agents[u])
    {
      assert AgentAt(s, u, s.agents[u]);
    }
    forall f | 0 <= f < |r.entries|
      ensures EntryAt(r, f, r.entries[f]) && r.entries[f].ref == Count(r.agents, f)
    {
      var x := s.entries[f];
      assert EntryAt(s, f, x);
      assert x.holder != -1 ==> AgentAt(s, x.holder, s.agents[x.holder]);
      CountSet(s.agents, t, Alloced(inum), f);
    }
  }

  lemma IallocTyped(s: State, t: nat, typ: int, inum: nat)
    requires Typed(s) && Enabled(s, IallocWrite(t, typ, inum))
    ensures Typed(Next(s, IallocWrite(t, typ, inum)))
  {
    IallocKeeps(s, t, typ, inum);
    hide Inv;
    var r := Next(s, IallocWrite(t, typ, inum));
    forall u | 0 <= u < |r.agents|
      ensures TypedAt(r, r.agents[u])
    {
      assert TypedAt(s, s.agents[u]);
    }
    forall u, v | 0 <= u < |r.agents| && 0 <= v < |r.agents| && u != v
      ensures PairAt(r.entries, r.agents[u], r.agents[v])
    {
      assert PairAt(s.entries, s.agents[u], s.agents[v]) && TypedAt(s, s.agents[u]) && TypedAt(s, s.agents[v]);
    }
  }

  lemma StepKeeps(s: State, st: Step)
    requires Inv(s) && Enabled(s, st)
    ensures Inv(Next(s, st))
  {
    hide Inv, Enabled, Next, Typed;
    match st
    case Iget(t, inum) => IgetTypedIff(s, t, inum);
    case IallocGet(t) => IallocGetKeeps(s, t);
    case Idup(t, from) => IdupKeeps(s, t, from);
    case PutDrop(t) => DropKeeps(s, t);
    case IallocWrite(t, typ, inum) => IallocKeeps(s, t, typ, inum);
    case _ => LocalKeeps(s, st);
  }

  ghost predicate Safe(s: State, st: Step) {
    st.Iget? ==> JoinSafe(s, st.t, IgetEntry(s.entries, st.inum), st.inum)
  }

  lemma TypedInv(s: State)
    requires Typed(s)
    ensures Inv(s)
  {
  }

  /** Every step keeps all references typed, except an iget that is not safe. */
  lemma StepTypedIff(s: State, st: Step)
    requires Typed(s) && Enabled(s, st)
    ensures Typed(Next(s, st)) <==> Safe(s, st)
  {
    hide Inv, Enabled, Next, Typed, JoinSafe;
    TypedInv(s);
    match st
    case Iget(t, inum) => IgetTypedIff(s, t, inum);
    case IallocGet(t) => IallocGetKeeps(s, t);
    case Idup(t, from) => IdupKeeps(s, t, from);
    case PutDrop(t) => DropTyped(s, t);
    case IallocWrite(t, typ, inum) => IallocTyped(s, t, typ, inum);
    case _ => LocalKeepsTyped(s, st);
  }

  lemma {:induction false} RunKeeps(s: State, steps: seq<Step>)
    requires Inv(s) && CanRun(s, steps)
    ensures Inv(Execute(s, steps))
    decreases |steps|
  {
    hide Inv, Enabled, Next;
    if steps != [] {
      StepKeeps(s, steps[0]);
      RunKeeps(Next(s, steps[0]), steps[1..]);
    }
  }

  /** A run whose igets are all safe. */
  ghost predicate SafeRun(s: State, steps: seq<Step>)
    requires CanRun(s, steps)
    decreases |steps|
  {
    steps == [] || (Safe(s, steps[0]) && SafeRun(Next(s, steps[0]), steps[1..]))
  }

  lemma {:induction false} RunTyped(s: State, steps: seq<Step>)
    requires Typed(s) && CanRun(s, steps) && SafeRun(s, steps)
    ensures Typed(Execute(s, steps))
    decreases |steps|
  {
    hide Typed, Enabled, Next, Safe;
    if steps != [] {
      StepTypedIff(s, steps[0]);
      RunTyped(Next(s, steps[0]), steps[1..]);
    }
  }

  // What every run keeps

  /** Write-through: a valid cached inode that nobody holds locked is the inode on disk, also
      while iput frees inodes and ialloc hands them out again. */
  lemma WriteThrough(s: State, steps: seq<Step>, e: nat)
    requires Init(s) && CanRun(s, steps) && e < |Execute(s, steps).entries|
    ensures var r := Execute(s, steps); var x := r.entries[e];
      x.ref > 0 && x.valid && x.holder == -1 ==> x.inum < |r.disk| && x.mem == r.disk[x.inum] && x.mem.typ != 0
  {
    InitInv(s);
    RunKeeps(s, steps);
    assert EntryAt(Execute(s, steps), e, Execute(s, steps).entries[e]);
  }

  /** An inode has one entry, whose count is the number of references to it. */
  lemma OneEntry(s: State, steps: seq<Step>, e: nat, f: nat)
    requires Init(s) && CanRun(s, steps) && e < |Execute(s, steps).entries| && f < |Execute(s, steps).entries|
    ensures var r := Execute(s, steps);
      && r.entries[e].ref == Count(r.agents, e)
      && (e != f && r.entries[e].ref > 0 && r.entries[f].ref > 0 ==> r.entries[e].inum != r.entries[f].inum)
  {
    InitInv(s);
    RunKeeps(s, steps);
    var r := Execute(s, steps);
    assert e != f ==> Apart(r.entries[e], r.entries[f]);
  }

  /** As long as every iget is safe, ilock never finds an inode without a type, and the inode
      iput frees has no other user. */
  lemma NoTypelessLock(s: State, steps: seq<Step>, t: nat)
    requires Init(s) && CanRun(s, steps) && SafeRun(s, steps) && t < |Execute(s, steps).agents|
    ensures var r := Execute(s, steps); var a := r.agents[t];
      && (a.At? ==> a.pc != NoType)
      && (a.At? && Alone(a.pc) ==> forall u | 0 <= u < |r.agents| && u != t && r.agents[u].At? :: r.agents[u].e != a.e)
  {
    InitInv(s);
    RunTyped(s, steps);
    var r := Execute(s, steps);
    hide Inv;
    assert TypedAt(r, r.agents[t]);
    forall u | 0 <= u < |r.agents| && u != t && r.agents[u].At?
      ensures r.agents[t].At? && Alone(r.agents[t].pc) ==> r.agents[u].e != r.agents[t].e
    {
      assert PairAt(r.entries, r.agents[t], r.agents[u]);
    }
  }

  // When iput frees

  lemma {:induction false} CountSole(agents: seq<Agent>, t: nat, e: nat)
    requires t < |agents| && One(agents[t], e) == 1
    requires forall u | 0 <= u < |agents| && u != t :: One(agents[u], e) == 0
    ensures Count(agents, e) == 1
  {
    if t == 0 {
      CountZero(agents[1..], e);
    } else {
      CountSole(agents[1..], t - 1, e);
    }
  }

  lemma {:induction false} CountZero(agents: seq<Agent>, e: nat)
    requires forall u | 0 <= u < |agents| :: One(agents[u], e) == 0
    ensures Count(agents, e) == 0
  {
    if agents != [] {
      CountZero(agents[1..], e);
    }
  }

  ghost predicate OnlyUser(s: State, t: nat)
    requires t < |s.agents| && s.agents[t].At?
  {
    forall u | 0 <= u < |s.agents| && u != t :: One(s.agents[u], s.agents[t].e) == 0
  }

  /** iput frees the inode exactly when the entry is valid, the inode has no links, and no other
      agent refers to it, not even one that is about to drop its reference. */
  lemma PutFreesIff(s: State, t: nat)
    requires Inv(s) && Doing(s, t, Put)
    ensures var x := s.entries[s.agents[t].e];
      Next(s, PutCheck(t)).agents[t].pc == Freeing <==> x.valid && x.mem.nlink == 0 && OnlyUser(s, t)
  {
    var e := s.agents[t].e;
    assert s.entries[e].ref == Count(s.agents, e);
    if OnlyUser(s, t) {
      CountSole(s.agents, t, e);
    } else {
      var u :| 0 <= u < |s.agents| && u != t && One(s.agents[u], e) != 0;
      if u < t { CountTwo(s.agents, u, t, e); } else { CountTwo(s.agents, t, u, e); }
    }
  }

  ghost predicate Goes(s: State, st: Step, t: State) {
    Enabled(s, st) && Next(s, st) == t
  }

  ghost predicate Path(ss: seq<State>, steps: seq<Step>) {
    |ss| == |steps| + 1 && forall i | 0 <= i < |steps| :: Goes(ss[i], steps[i], ss[i + 1])
  }

  lemma {:induction false} PathRuns(ss: seq<State>, steps: seq<Step>)
    requires Path(ss, steps)
    ensures CanRun(ss[0], steps) && Execute(ss[0], steps) == ss[|steps|]
    decreases |steps|
  {
    hide Enabled, Next;
    if steps != [] {
      assert Goes(ss[0], steps[0], ss[1]);
      assert Path(ss[1..], steps[1..]) by {
        forall i | 0 <= i < |steps| - 1
          ensures Goes(ss[1..][i], steps[1..][i], ss[1..][i + 1])
        {
          assert Goes(ss[i + 1], steps[i + 1], ss[i + 2]);
        }
      }
      PathRuns(ss[1..], steps[1..]);
    }
  }

  /** Two agents, one entry, and inode 1 on disk. */
  function Two(d: Inode, x: Entry, a: Agent, b: Agent): State {
    State([Inode(0, 0, 0), d], [x], [a, b])
  }

  const LINKED := Inode(1, 1, 0)
  const BARE := Inode(1, 0, 0)

  lemma RaceOpens()
    ensures Goes(Two(LINKED, Entry(0, 0, false, BARE, -1), Nobody, Nobody), Iget(0, 1),
                 Two(LINKED, Entry(1, 1, false, BARE, -1), At(0, Has), Nobody))
    ensures Goes(Two(LINKED, Entry(1, 1, false, BARE, -1), At(0, Has), Nobody), Idup(1, 0),
                 Two(LINKED, Entry(1, 2, false, BARE, -1), At(0, Has), At(0, Has)))
  {
    var es := [Entry(0, 0, false, BARE, -1)];
    assert Cached(es, 1) == Cached(es, 1, 1) == 1 && FirstEmpty(es) == 0;
  }

  lemma RaceUnlinks()
    ensures Goes(Two(LINKED, Entry(1, 2, false, BARE, -1), At(0, Has), At(0, Has)), Ilock(0),
                 Two(LINKED, Entry(1, 2, false, BARE, 0), At(0, Raw), At(0, Has)))
    ensures Goes(Two(LINKED, Entry(1, 2, false, BARE, 0), At(0, Raw), At(0, Has)), Load(0),
                 Two(LINKED, Entry(1, 2, true, LINKED, 0), At(0, Locked), At(0, Has)))
    ensures Goes(Two(LINKED, Entry(1, 2, true, LINKED, 0), At(0, Locked), At(0, Has)), Change(0, BARE),
                 Two(LINKED, Entry(1, 2, true, BARE, 0), At(0, Dirty), At(0, Has)))
  {
  }

  lemma RaceUpdates()
    ensures Goes(Two(LINKED, Entry(1, 2, true, BARE, 0), At(0, Dirty), At(0, Has)), Iupdate(0),
                 Two(BARE, Entry(1, 2, true, BARE, 0), At(0, Locked), At(0, Has)))
    ensures Goes(Two(BARE, Entry(1, 2, true, BARE, 0), At(0, Locked), At(0, Has)), Iunlock(0),
                 Two(BARE, Entry(1, 2, true, BARE, -1), At(0, Has), At(0, Has)))
  {
  }

  lemma RacePuts()
    ensures Goes(Two(BARE, Entry(1, 2, true, BARE, -1), At(0, Has), At(0, Has)), PutLock(0),
                 Two(BARE, Entry(1, 2, true, BARE, 0), At(0, Put), At(0, Has)))
    ensures Goes(Two(BARE, Entry(1, 2, true, BARE, 0), At(0, Put), At(0, Has)), PutCheck(0),
                 Two(BARE, Entry(1, 2, true, BARE, -1), At(0, Dropping), At(0, Has)))
    ensures Goes(Two(BARE, Entry(1, 2, true, BARE, -1), At(0, Dropping), At(0, Has)), PutLock(1),
                 Two(BARE, Entry(1, 2, true, BARE, 1), At(0, Dropping), At(0, Put)))
  {
  }

  lemma RaceDrops()
    ensures Goes(Two(BARE, Entry(1, 2, true, BARE, 1), At(0, Dropping), At(0, Put)), PutCheck(1),
                 Two(BARE, Entry(1, 2, true, BARE, -1), At(0, Dropping), At(0, Dropping)))
    ensures Goes(Two(BARE, Entry(1, 2, true, BARE, -1), At(0, Dropping), At(0, Dropping)), PutDrop(0),
                 Two(BARE, Entry(1, 1, true, BARE, -1), Nobody, At(0, Dropping)))
    ensures Goes(Two(BARE, Entry(1, 1, true, BARE, -1), Nobody, At(0, Dropping)), PutDrop(1),
                 Two(BARE, Entry(1, 0, true, BARE, -1), Nobody, Nobody))
  {
  }

  /** Two racing iputs can each see the other's reference: the last reference to an inode
      without links goes, and the inode stays allocated. */
  lemma RaceLeaks() returns (s: State, steps: seq<Step>)
    ensures Init(s) && CanRun(s, steps)
    ensures Execute(s, steps) == Two(BARE, Entry(1, 0, true, BARE, -1), Nobody, Nobody)
  {
    hide Enabled, Next, CanRun, Execute;
    RaceOpens();
    RaceUnlinks();
    RaceUpdates();
    RacePuts();
    RaceDrops();
    s := Two(LINKED, Entry(0, 0, false, BARE, -1), Nobody, Nobody);
    steps := [Iget(0, 1), Idup(1, 0), Ilock(0), Load(0), Change(0, BARE), Iupdate(0), Iunlock(0),
              PutLock(0), PutCheck(0), PutLock(1), PutCheck(1), PutDrop(0), PutDrop(1)];
    var ss := [s,
               Two(LINKED, Entry(1, 1, false, BARE, -1), At(0, Has), Nobody),
               Two(LINKED, Entry(1, 2, false, BARE, -1), At(0, Has), At(0, Has)),
               Two(LINKED, Entry(1, 2, false, BARE, 0), At(0, Raw), At(0, Has)),
               Two(LINKED, Entry(1, 2, true, LINKED, 0), At(0, Locked), At(0, Has)),
               Two(LINKED, Entry(1, 2, true, BARE, 0), At(0, Dirty), At(0, Has)),
               Two(BARE, Entry(1, 2, true, BARE, 0), At(0, Locked), At(0, Has)),
               Two(BARE, Entry(1, 2, true, BARE, -1), At(0, Has), At(0, Has)),
               Two(BARE, Entry(1, 2, true, BARE, 0), At(0, Put), At(0, Has)),
               Two(BARE, Entry(1, 2, true, BARE, -1), At(0, Dropping), At(0, Has)),
               Two(BARE, Entry(1, 2, true, BARE, 1), At(0, Dropping), At(0, Put)),
               Two(BARE, Entry(1, 2, true, BARE, -1), At(0, Dropping), At(0, Dropping)),
               Two(BARE, Entry(1, 1, true, BARE, -1), Nobody, At(0, Dropping)),
               Two(BARE, Entry(1, 0, true, BARE, -1), Nobody, Nobody)];
    PathRuns(ss, steps);
  }

  const GONE := Inode(0, 0, 0)

  lemma LastUnlinks()
    ensures Goes(Two(LINKED, Entry(1, 1, false, BARE, -1), At(0, Has), Nobody), Ilock(0),
                 Two(LINKED, Entry(1, 1, false, BARE, 0), At(0, Raw), Nobody))
    ensures Goes(Two(LINKED, Entry(1, 1, false, BARE, 0), At(0, Raw), Nobody), Load(0),
                 Two(LINKED, Entry(1, 1, true, LINKED, 0), At(0, Locked), Nobody))
    ensures Goes(Two(LINKED, Entry(1, 1, true, LINKED, 0), At(0, Locked), Nobody), Change(0, BARE),
                 Two(LINKED, Entry(1, 1, true, BARE, 0), At(0, Dirty), Nobody))
  {
  }

  lemma LastUpdates()
    ensures Goes(Two(LINKED, Entry(1, 1, true, BARE, 0), At(0, Dirty), Nobody), Iupdate(0),
                 Two(BARE, Entry(1, 1, true, BARE, 0), At(0, Locked), Nobody))
    ensures Goes(Two(BARE, Entry(1, 1, true, BARE, 0), At(0, Locked), Nobody), Iunlock(0),
                 Two(BARE, Entry(1, 1, true, BARE, -1), At(0, Has), Nobody))
  {
  }

  lemma LastPuts()
    ensures Goes(Two(BARE, Entry(1, 1, true, BARE, -1), At(0, Has), Nobody), PutLock(0),
                 Two(BARE, Entry(1, 1, true, BARE, 0), At(0, Put), Nobody))
    ensures Goes(Two(BARE, Entry(1, 1, true, BARE, 0), At(0, Put), Nobody), PutCheck(0),
                 Two(BARE, Entry(1, 1, true, BARE, 0), At(0, Freeing), Nobody))
    ensures Goes(Two(BARE, Entry(1, 1, true, BARE, 0), At(0, Freeing), Nobody), PutTrunc(0),
                 Two(BARE, Entry(1, 1, true, BARE, 0), At(0, Trunced), Nobody))
    ensures Goes(Two(BARE, Entry(1, 1, true, BARE, 0), At(0, Trunced), Nobody), PutFree(0),
                 Two(GONE, Entry(1, 1, true, GONE, 0), At(0, Freed), Nobody))
  {
  }

  lemma LastDrops()
    ensures Goes(Two(GONE, Entry(1, 1, true, GONE, 0), At(0, Freed), Nobody), PutInvalid(0),
                 Two(GONE, Entry(1, 1, false, GONE, 0), At(0, Invalid), Nobody))
    ensures Goes(Two(GONE, Entry(1, 1, false, GONE, 0), At(0, Invalid), Nobody), PutRelease(0),
                 Two(GONE, Entry(1, 1, false, GONE, -1), At(0, Dropping), Nobody))
    ensures Goes(Two(GONE, Entry(1, 1, false, GONE, -1), At(0, Dropping), Nobody), PutDrop(0),
                 Two(GONE, Entry(1, 0, false, GONE, -1), Nobody, Nobody))
  {
  }

  lemma StaleOpens()
    ensures Goes(Two(GONE, Entry(1, 0, false, GONE, -1), Nobody, Nobody), Iget(1, 1),
                 Two(GONE, Entry(1, 1, false, GONE, -1), Nobody, At(0, Has)))
    ensures Goes(Two(GONE, Entry(1, 1, false, GONE, -1), Nobody, At(0, Has)), Ilock(1),
                 Two(GONE, Entry(1, 1, false, GONE, 1), Nobody, At(0, Raw)))
    ensures Goes(Two(GONE, Entry(1, 1, false, GONE, 1), Nobody, At(0, Raw)), Load(1),
                 Two(GONE, Entry(1, 1, true, GONE, 1), Nobody, At(0, NoType)))
  {
    var es := [Entry(1, 0, false, GONE, -1)];
    assert Cached(es, 1) == Cached(es, 1, 1) == 1 && FirstEmpty(es) == 0;
  }

  /** An inode is unlinked and freed; a directory entry that still names it, such as the ".." of
      a removed directory that is somebody's working directory, brings it back, and ilock
      panics. */
  lemma StaleNamePanics() returns (s: State, steps: seq<Step>)
    ensures Init(s) && CanRun(s, steps)
    ensures Execute(s, steps) == Two(GONE, Entry(1, 1, true, GONE, 1), Nobody, At(0, NoType))
  {
    hide Enabled, Next, CanRun, Execute;
    RaceOpens();
    LastUnlinks();
    LastUpdates();
    LastPuts();
    LastDrops();
    StaleOpens();
    s := Two(LINKED, Entry(0, 0, false, BARE, -1), Nobody, Nobody);
    steps := [Iget(0, 1), Ilock(0), Load(0), Change(0, BARE), Iupdate(0), Iunlock(0),
              PutLock(0), PutCheck(0), PutTrunc(0), PutFree(0), PutInvalid(0), PutRelease(0), PutDrop(0),
              Iget(1, 1), Ilock(1), Load(1)];
    var ss := [s,
               Two(LINKED, Entry(1, 1, false, BARE, -1), At(0, Has), Nobody),
               Two(LINKED, Entry(1, 1, false, BARE, 0), At(0, Raw), Nobody),
               Two(LINKED, Entry(1, 1, true, LINKED, 0), At(0, Locked), Nobody),
               Two(LINKED, Entry(1, 1, true, BARE, 0), At(0, Dirty), Nobody),
               Two(BARE, Entry(1, 1, true, BARE, 0), At(0, Locked), Nobody),
               Two(BARE, Entry(1, 1, true, BARE, -1), At(0, Has), Nobody),
               Two(BARE, Entry(1, 1, true, BARE, 0), At(0, Put), Nobody),
               Two(BARE, Entry(1, 1, true, BARE, 0), At(0, Freeing), Nobody),
               Two(BARE, Entry(1, 1, true, BARE, 0), At(0, Trunced), Nobody),
               Two(GONE, Entry(1, 1, true, GONE, 0), At(0, Freed), Nobody),
               Two(GONE, Entry(1, 1, false, GONE, 0), At(0, Invalid), Nobody),
               Two(GONE, Entry(1, 1, false, GONE, -1), At(0, Dropping), Nobody),
               Two(GONE, Entry(1, 0, false, GONE, -1), Nobody, Nobody),
               Two(GONE, Entry(1, 1, false, GONE, -1), Nobody, At(0, Has)),
               Two(GONE, Entry(1, 1, false, GONE, 1), Nobody, At(0, Raw)),
               Two(GONE, Entry(1, 1, true, GONE, 1), Nobody, At(0, NoType))];
    PathRuns(ss, steps);
  }
}
