/**
 What an iget of an inode that is free, or about to be, leads to: some continuation without a
 further lookup in which ilock meets an inode without a type.
 */
module IcacheStale {
  import opened Icache


  /** A run without a further lookup. */
  ghost predicate LedBy(s: State, steps: seq<Step>, r: State) {
    CanRun(s, steps) && Execute(s, steps) == r && forall st | st in steps :: !st.Iget?
  }

  ghost predicate Leads(s: State, r: State) {
    exists steps :: LedBy(s, steps, r)
  }

  lemma LeadsSelf(s: State)
    ensures Leads(s, s)
  {
    assert LedBy(s, [], s);
  }

  lemma {:induction false} RunOneMore(s: State, steps: seq<Step>, st: Step)
    requires CanRun(s, steps) && Enabled(Execute(s, steps), st)
    ensures CanRun(s, steps + [st]) && Execute(s, steps + [st]) == Next(Execute(s, steps), st)
    decreases |steps|
  {
    hide Enabled, Next;
    if steps == [] {
      assert [st][1..] == [] && [] + [st] == [st];
      assert CanRun(Next(s, st), []) && Execute(Next(s, st), []) == Next(s, st);
    } else {
      assert (steps + [st])[0] == steps[0] && (steps + [st])[1..] == steps[1..] + [st];
      RunOneMore(Next(s, steps[0]), steps[1..], st);
    }
  }

  /** One step further, with the invariant. */
  lemma Onward(s0: State, s: State, st: Step)
    requires Leads(s0, s) && Inv(s) && Enabled(s, st) && !st.Iget?
    ensures Leads(s0, Next(s, st)) && Inv(Next(s, st))
  {
    hide Inv, Enabled, Next, CanRun, Execute;
    var steps :| LedBy(s0, steps, s);
    RunOneMore(s0, steps, st);
    assert LedBy(s0, steps + [st], Next(s, st));
    StepKeeps(s, st);
  }

  /** ilock of a free inode that is not in memory. */
  lemma Panics(s0: State, s: State, t: nat) returns (r: State)
    requires Leads(s0, s) && Inv(s) && Doing(s, t, Has)
    requires var x := s.entries[s.agents[t].e]; x.holder == -1 && !x.valid && s.disk[x.inum].typ == 0
    ensures Leads(s0, r) && t < |r.agents| && r.agents[t].At? && r.agents[t].pc == NoType
  {
    hide Inv, Leads;
    Onward(s0, s, Ilock(t));
    r := Next(s, Ilock(t));
    Onward(s0, r, Load(t));
    r := Next(r, Load(t));
  }

  predicate Putting(pc: Pc) {
    pc == Freeing || pc == Trunced || pc == Freed || pc == Invalid
  }

  /** Where iput is after it has released the lock: r is s with entry e out of memory and agent h
      about to drop its reference. */
  ghost predicate Released(s: State, r: State, h: nat) {
    OwnEntry(s, h) &&
    var e := s.agents[h].e; var x := s.entries[e];
    && r.agents == s.agents[h := At(e, Dropping)]
    && |r.entries| == |s.entries| && r.entries == s.entries[e := x.(valid := false, holder := -1, mem := r.entries[e].mem)]
    && |r.disk| == |s.disk| && r.disk == s.disk[x.inum := r.disk[x.inum]]
    && (if Alone(s.agents[h].pc) then r.disk[x.inum].typ == 0 else r.disk == s.disk)
  }

  function Rank(pc: Pc): nat {
    match pc
    case Freeing => 4
    case Trunced => 3
    case Freed => 2
    case _ => 1
  }

  function PutStep(t: nat, pc: Pc): Step {
    match pc
    case Freeing => PutTrunc(t)
    case Trunced => PutFree(t)
    case Freed => PutInvalid(t)
    case _ => PutRelease(t)
  }

  /** iput goes on to its release of the lock. */
  lemma {:induction false} Releases(s0: State, s: State, h: nat) returns (r: State)
    requires Leads(s0, s) && Inv(s) && OwnEntry(s, h) && Putting(s.agents[h].pc)
    ensures Leads(s0, r) && Inv(r) && Released(s, r, h)
    decreases Rank(s.agents[h].pc)
  {
    hide Inv, Leads;
    var pc := s.agents[h].pc;
    var st := PutStep(h, pc);
    PutStepIs(s, h);
    Onward(s0, s, st);
    var m := Next(s, st);
    if pc == Invalid {
      r := m;
    } else {
      r := Releases(s0, m, h);
      assert r.agents == s.agents[h := At(s.agents[h].e, Dropping)];
    }
  }

  /** One step of iput on its way out. */
  lemma PutStepIs(s: State, h: nat)
    requires Inv(s) && OwnEntry(s, h) && Putting(s.agents[h].pc)
    ensures Enabled(s, PutStep(h, s.agents[h].pc)) && (s.agents[h].pc == Invalid ==> !s.entries[s.agents[h].e].valid)
    ensures var m := Next(s, PutStep(h, s.agents[h].pc)); var pc := s.agents[h].pc; var e := s.agents[h].e; var x := s.entries[e];
      && OwnEntry(m, h) && m.agents == s.agents[h := m.agents[h]] && m.agents[h].e == e
      && (if pc == Invalid then m.agents[h].pc == Dropping
          else Putting(m.agents[h].pc) && Rank(m.agents[h].pc) == Rank(pc) - 1 && (pc == Freeing ==> m.agents[h].pc == Trunced))
      && m.entries == s.entries[e := x.(valid := m.entries[e].valid, holder := m.entries[e].holder, mem := m.entries[e].mem)]
      && (if pc == Invalid then !m.entries[e].valid && m.entries[e].holder == -1 else true)
      && m.disk == s.disk[x.inum := m.disk[x.inum]] && (pc == Trunced ==> m.disk[x.inum].typ == 0)
      && (!Alone(pc) ==> m.disk == s.disk)
  {
    LocalFacts(s, h);
    hide Inv;
  }

  /** Somebody refers to an inode that is free, or that the holder of its entry is freeing. */
  ghost predicate Doomed(s: State, t: nat) {
    Doing(s, t, Has) &&
    var x := s.entries[s.agents[t].e];
    if x.holder == -1 then !x.valid && s.disk[x.inum].typ == 0 else HolderFrees(s, t, x.holder)
  }

  ghost predicate HolderFrees(s: State, t: nat, h: int)
    requires Doing(s, t, Has)
  {
    0 <= h < |s.agents| && OwnEntry(s, h) && s.agents[h].e == s.agents[t].e && Putting(s.agents[h].pc) &&
    (Alone(s.agents[h].pc) || s.disk[s.entries[s.agents[t].e].inum].typ == 0)
  }

  lemma DoomedPanics(s0: State, s: State, t: nat) returns (r: State)
    requires Leads(s0, s) && Inv(s) && Doomed(s, t)
    ensures Leads(s0, r) && t < |r.agents| && r.agents[t].At? && r.agents[t].pc == NoType
  {
    hide Inv, Leads;
    r := s;
    var h := s.entries[s.agents[t].e].holder;
    if h != -1 {
      r := Releases(s0, s, h);
    }
    r := Panics(s0, r, t);
  }

  /** The entry of t is unlocked, and the other references to it are about to be dropped. */
  ghost predicate Resting(s: State, t: nat) {
    && Doing(s, t, Has) && s.entries[s.agents[t].e].holder == -1
    && forall v | 0 <= v < |s.agents| && v != t && s.agents[v].At? && s.agents[v].e == s.agents[t].e :: s.agents[v].pc == Dropping
  }

  /** ilock and iunlock: the inode is in memory afterwards. */
  lemma Loads(s0: State, s: State, t: nat) returns (r: State)
    requires Leads(s0, s) && Inv(s) && Resting(s, t) && s.disk[s.entries[s.agents[t].e].inum].typ != 0
    ensures Leads(s0, r) && Inv(r) && Resting(r, t) && r.agents == s.agents && r.disk == s.disk
    ensures var e := s.agents[t].e; var x := s.entries[e];
      r.entries == s.entries[e := x.(valid := true, mem := s.disk[x.inum])]
  {
    MemoryIs(s, t);
    hide Inv, Leads, Resting;
    r := LoadSteps(s0, s, t);
    assert r == s.(entries := r.entries);
    RestingLoaded(s, r, t);
  }

  lemma MemoryIs(s: State, t: nat)
    requires Inv(s) && Resting(s, t)
    ensures var x := s.entries[s.agents[t].e]; x.holder == -1 && (x.valid ==> x.mem == s.disk[x.inum])
    ensures Doing(s, t, Has)
  {
    LocalFacts(s, t);
  }

  lemma LoadSteps(s0: State, s: State, t: nat) returns (r: State)
    requires Leads(s0, s) && Inv(s) && Doing(s, t, Has)
    requires var x := s.entries[s.agents[t].e]; x.holder == -1 && (x.valid ==> x.mem == s.disk[x.inum]) && s.disk[x.inum].typ != 0
    ensures Leads(s0, r) && Inv(r)
    ensures var e := s.agents[t].e; var x := s.entries[e];
      r == s.(entries := s.entries[e := x.(valid := true, mem := s.disk[x.inum])])
  {
    hide Inv, Leads;
    Onward(s0, s, Ilock(t));
    r := Next(s, Ilock(t));
    Onward(s0, r, Load(t));
    r := Next(r, Load(t));
    Onward(s0, r, Iunlock(t));
    r := Next(r, Iunlock(t));
    assert r.agents == s.agents && r.disk == s.disk;
  }

  lemma RestingLoaded(s: State, r: State, t: nat)
    requires Resting(s, t) && r.agents == s.agents && r.disk == s.disk
    requires var e := s.agents[t].e; var x := s.entries[e]; r.entries == s.entries[e := x.(valid := true, mem := s.disk[x.inum])]
    ensures Resting(r, t)
  {
  }

  /** The other references go. */
  lemma {:induction false} Drains(s0: State, s: State, t: nat) returns (r: State)
    requires Leads(s0, s) && Inv(s) && Resting(s, t)
    ensures Leads(s0, r) && Inv(r) && Resting(r, t) && r.disk == s.disk && |r.agents| == |s.agents|
    ensures var e := s.agents[t].e; r.entries == s.entries[e := s.entries[e].(ref := 1)]
    ensures forall v | 0 <= v < |s.agents| && (v == t || One(s.agents[v], s.agents[t].e) == 0) :: r.agents[v] == s.agents[v]
    decreases s.entries[s.agents[t].e].ref
  {
    var e := s.agents[t].e;
    assert s.entries[e].ref == Count(s.agents, e);
    if OnlyUser(s, t) {
      CountSole(s.agents, t, e);
      r := s;
    } else {
      var v :| 0 <= v < |s.agents| && v != t && One(s.agents[v], e) != 0;
      InUse(s, v);
      hide Inv, Leads;
      Onward(s0, s, PutDrop(v));
      var m := Next(s, PutDrop(v));
      r := Drains(s0, m, t);
    }
  }

  /** iput by the only user of an inode without links. */
  lemma Frees(s0: State, s: State, t: nat) returns (r: State)
    requires Leads(s0, s) && Inv(s) && Resting(s, t)
    requires var x := s.entries[s.agents[t].e]; x.ref == 1 && x.valid && x.mem.nlink == 0
    ensures Leads(s0, r) && Inv(r) && r.agents == s.agents[t := Nobody] && |r.entries| == |s.entries| && |r.disk| == |s.disk|
    ensures var e := s.agents[t].e; r.entries[e].ref == 0 && r.disk[s.entries[e].inum].typ == 0
    ensures forall f | 0 <= f < |s.entries| && f != s.agents[t].e :: r.entries[f] == s.entries[f]
  {
    hide Inv, Leads;
    Onward(s0, s, PutLock(t));
    r := Next(s, PutLock(t));
    Onward(s0, r, PutCheck(t));
    r := Next(r, PutCheck(t));
    r := Releases(s0, r, t);
    Onward(s0, r, PutDrop(t));
    r := Next(r, PutDrop(t));
  }

  /** ialloc's own iget then meets the freed inode. */
  lemma GetsFreed(s0: State, s: State, u: nat, e: nat) returns (r: State)
    requires Leads(s0, s) && Inv(s) && u < |s.agents| && s.agents[u].Alloced? && s.agents[u].inum < |s.disk|
    requires s.disk[s.agents[u].inum].typ == 0 && e < |s.entries| && s.entries[e].ref == 0
    requires forall f | 0 <= f < |s.entries| && s.entries[f].ref > 0 :: s.entries[f].inum != s.agents[u].inum
    ensures Leads(s0, r) && u < |r.agents| && r.agents[u].At? && r.agents[u].pc == NoType
  {
    var inum := s.agents[u].inum;
    EmptyThere(s.entries, e);
    var f := IgetEntry(s.entries, inum);
    Unused(s, f);
    hide Inv, Leads;
    Onward(s0, s, IallocGet(u));
    r := Panics(s0, Next(s, IallocGet(u)), u);
  }

  lemma {:induction false} EmptyThere(es: seq<Entry>, e: nat, i: nat := 0)
    requires i <= e < |es| && es[e].ref == 0
    ensures FirstEmpty(es, i) <= e
    decreases e - i
  {
    if es[i].ref != 0 { EmptyThere(es, e, i + 1); }
  }

  /** t refers to an inode that u has marked allocated and not got yet. */
  lemma AllocedPanics(s0: State, s: State, t: nat, u: nat) returns (r: State)
    requires Leads(s0, s) && Inv(s) && Resting(s, t) && u < |s.agents| && s.agents[u] == Alloced(s.entries[s.agents[t].e].inum)
    requires var d := s.disk[s.entries[s.agents[t].e].inum]; d.typ != 0 && d.nlink == 0
    ensures Leads(s0, r) && u < |r.agents| && r.agents[u].At? && r.agents[u].pc == NoType
  {
    var e := s.agents[t].e;
    var inum := s.entries[e].inum;
    InUse(s, t);
    forall f | 0 <= f < |s.entries| && f != e && s.entries[f].ref > 0
      ensures s.entries[f].inum != inum
    {
      assert Apart(s.entries[e], s.entries[f]);
    }
    hide Inv, Leads;
    r := Loads(s0, s, t);
    r := Drains(s0, r, t);
    r := Frees(s0, r, t);
    r := GetsFreed(s0, r, u, e);
  }

  /** What an unsafe iget finds at its entry. */
  lemma UnsafeFinds(s: State, t: nat, inum: nat)
    requires Typed(s) && Enabled(s, Iget(t, inum)) && !JoinSafe(s, t, IgetEntry(s.entries, inum), inum)
    ensures var r := Next(s, Iget(t, inum));
      Doomed(r, t) || exists u: nat :: u < |s.agents| && u != t && s.agents[u] == Alloced(inum)
  {
    var r := Next(s, Iget(t, inum));
    var e := IgetEntry(s.entries, inum);
    assert EntryAt(s, e, s.entries[e]);
    if s.entries[e].ref == 0 {
      Unused(s, e);
    }
    var h := s.entries[e].holder;
    if h != -1 {
      assert AgentAt(s, h, s.agents[h]) && TypedAt(s, s.agents[h]);
    }
    if s.disk[inum].typ != 0 {
      var u :| 0 <= u < |s.agents| && u != t && !JoinPair(s.agents[u], e, inum);
      assert AgentAt(s, u, s.agents[u]);
    }
  }

  /** Beside an ialloc on its way to the inode there are only leftover references. */
  lemma Leftovers(s: State, t: nat, inum: nat, u: nat)
    requires Typed(s) && Enabled(s, Iget(t, inum)) && u < |s.agents| && u != t && s.agents[u] == Alloced(inum)
    ensures var r := Next(s, Iget(t, inum)); var e := IgetEntry(s.entries, inum);
      && Doing(r, t, Has) && r.agents[t].e == e && r.entries[e].inum == inum && r.agents[u] == Alloced(inum)
      && r.disk[inum].typ != 0 && r.disk[inum].nlink == 0
      && (forall v | 0 <= v < |r.agents| && v != t && One(r.agents[v], e) != 0 :: !Client(r.agents[v].pc))
  {
    var r := Next(s, Iget(t, inum));
    var e := IgetEntry(s.entries, inum);
    assert TypedAt(s, s.agents[u]);
    forall v | 0 <= v < |r.agents| && v != t && One(r.agents[v], e) != 0
      ensures !Client(r.agents[v].pc)
    {
      InUse(s, v);
      assert PairAt(s.entries, s.agents[u], s.agents[v]);
    }
  }

  /** Once the holder, if there is one, has let go, only droppers are left. */
  lemma LetGo(s0: State, s: State, t: nat) returns (r: State)
    requires Leads(s0, s) && Inv(s) && Doing(s, t, Has)
    requires forall v | 0 <= v < |s.agents| && v != t && One(s.agents[v], s.agents[t].e) != 0 :: !Client(s.agents[v].pc)
    requires var h := s.entries[s.agents[t].e].holder; h != -1 && 0 <= h < |s.agents| ==> !Alone(s.agents[h].pc) || !s.agents[h].At?
    ensures Leads(s0, r) && Inv(r) && Resting(r, t) && r.disk == s.disk && r.agents[t] == s.agents[t]
    ensures r.entries[s.agents[t].e].inum == s.entries[s.agents[t].e].inum
    ensures |r.agents| == |s.agents| && forall v | 0 <= v < |s.agents| && s.agents[v].Alloced? :: r.agents[v] == s.agents[v]
  {
    var e := s.agents[t].e;
    var h := s.entries[e].holder;
    assert EntryAt(s, e, s.entries[e]) && AgentAt(s, t, s.agents[t]);
    assert h != -1 ==> AgentAt(s, h, s.agents[h]);
    r := s;
    if h != -1 {
      r := Releases(s0, s, h);
    }
    forall v | 0 <= v < |r.agents| && v != t && r.agents[v].At? && r.agents[v].e == e
      ensures r.agents[v].pc == Dropping
    {
      assert AgentAt(s, v, s.agents[v]) && One(s.agents[v], e) != 0;
    }
  }

  ghost predicate NobodyStuck(r: State) {
    forall u | 0 <= u < |r.agents| :: !(r.agents[u].At? && r.agents[u].pc == NoType)
  }

  lemma UnsafePanics(s: State, t: nat, inum: nat) returns (r: State)
    requires Typed(s) && Enabled(s, Iget(t, inum)) && !JoinSafe(s, t, IgetEntry(s.entries, inum), inum)
    ensures Leads(Next(s, Iget(t, inum)), r) && !NobodyStuck(r)
  {
    hide JoinSafe, Leads;
    var m := Next(s, Iget(t, inum));
    TypedInv(s);
    IgetTypedIff(s, t, inum);
    LeadsSelf(m);
    UnsafeFinds(s, t, inum);
    if Doomed(m, t) {
      hide Inv, Typed;
      r := DoomedPanics(m, m, t);
      assert r.agents[t].pc == NoType;
    } else {
      var u: nat :| u < |s.agents| && u != t && s.agents[u] == Alloced(inum);
      Leftovers(s, t, inum, u);
      hide Inv, Typed;
      r := LetGo(m, m, t);
      r := AllocedPanics(m, r, t, u);
      assert r.agents[u].pc == NoType;
    }
  }

  lemma {:induction false} NoLookupSafe(s: State, steps: seq<Step>)
    requires CanRun(s, steps) && forall st | st in steps :: !st.Iget?
    ensures SafeRun(s, steps)
    decreases |steps|
  {
    hide Enabled, Next;
    if steps != [] { NoLookupSafe(Next(s, steps[0]), steps[1..]); }
  }

  /** An iget is safe exactly when nothing that can happen after it, short of another lookup,
      makes ilock meet an inode without a type. */
  lemma SafeIff(s: State, t: nat, inum: nat)
    requires Typed(s) && Enabled(s, Iget(t, inum))
    ensures JoinSafe(s, t, IgetEntry(s.entries, inum), inum) <==>
            forall r :: Leads(Next(s, Iget(t, inum)), r) ==> NobodyStuck(r)
  {
    var m := Next(s, Iget(t, inum));
    hide JoinSafe, Enabled, Next, Typed;
    TypedInv(s);
    if JoinSafe(s, t, IgetEntry(s.entries, inum), inum) {
      IgetTypedIff(s, t, inum);
      forall r | Leads(m, r)
        ensures NobodyStuck(r)
      {
        var steps :| LedBy(m, steps, r);
        NoLookupSafe(m, steps);
        RunTyped(m, steps);
        TypedNobody(r);
      }
    } else {
      var r := UnsafePanics(s, t, inum);
      assert Leads(m, r) && !NobodyStuck(r);
    }
  }

  lemma TypedNobody(r: State)
    requires Typed(r)
    ensures NobodyStuck(r)
  {
    hide Inv;
    forall u | 0 <= u < |r.agents|
      ensures !(r.agents[u].At? && r.agents[u].pc == NoType)
    {
      assert TypedAt(r, r.agents[u]);
    }
  }
}
