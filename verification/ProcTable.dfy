/**
 The process table of kernel/proc.c: its entries, and the table scans of wakeup1, kill,
 allocproc, exit and wait, each a loop over the table done with ptable.lock held.
 */
module ProcTable {
  datatype RunState = Unused | Embryo | Sleeping | Runnable | Running | Zombie

  /** What a process sleeps on: another process's entry (wait does), or something else. */
  datatype Chan = Nothing | Entry(p: nat) | Elsewhere(id: int)

  /** parent is a table index, -1 for none. */
  datatype Proc = Proc(state: RunState, pid: nat, parent: int, killed: bool, chan: Chan)

  type Table = seq<Proc>

  predicate Live(p: Proc) {
    p.state == Sleeping || p.state == Runnable || p.state == Running
  }

  function ParentChan(p: Proc): Chan {
    if p.parent < 0 then Nothing else Entry(p.parent)
  }

  function WakeOne(q: Proc, c: Chan): Proc {
    if q.state == Sleeping && q.chan == c then q.(state := Runnable) else q
  }

  ghost predicate Woken(before: Table, after: Table, c: Chan) {
    |after| == |before| && forall i | 0 <= i < |before| :: after[i] == WakeOne(before[i], c)
  }

  predicate ZombieChild(t: Table, p: int) {
    exists i :: 0 <= i < |t| && t[i].parent == p && t[i].state == Zombie
  }

  predicate HasKids(t: Table, p: int) {
    exists i :: 0 <= i < |t| && t[i].parent == p
  }

  /** The first zombie child of p in table order, |t| if there is none. */
  function FirstZombie(t: Table, p: int, i: nat := 0): (r: nat)
    requires i <= |t|
    ensures i <= r <= |t| && (r < |t| ==> t[r].parent == p && t[r].state == Zombie)
    ensures forall j | i <= j < r :: !(t[j].parent == p && t[j].state == Zombie)
    decreases |t| - i
  {
    if i == |t| || (t[i].parent == p && t[i].state == Zombie) then i else FirstZombie(t, p, i + 1)
  }

  /** The first entry in use or not (`state == Unused`) that allocproc takes. */
  function FirstUnused(t: Table, i: nat := 0): (r: nat)
    requires i <= |t|
    ensures i <= r <= |t| && (r < |t| ==> t[r].state == Unused)
    ensures forall j | i <= j < r :: t[j].state != Unused
    decreases |t| - i
  {
    if i == |t| || t[i].state == Unused then i else FirstUnused(t, i + 1)
  }

  /** The entry kill(pid) marks. */
  function FirstPid(t: Table, pid: int, i: nat := 0): (r: nat)
    requires i <= |t|
    ensures i <= r <= |t| && (r < |t| ==> t[r].pid == pid)
    ensures forall j | i <= j < r :: t[j].pid != pid
    decreases |t| - i
  {
    if i == |t| || t[i].pid == pid then i else FirstPid(t, pid, i + 1)
  }

  /** What exit by p does to entry q: children go to init, the parent is woken, and so is
      init when it inherits a zombie. */
  function ExitOne(t: Table, p: nat, init: nat, q: Proc): Proc
    requires p < |t|
  {
    var r := if q.parent == p then q.(parent := init) else q;
    if q.state == Sleeping && (q.chan == ParentChan(t[p]) || (ZombieChild(t, p) && q.chan == Entry(init)))
    then r.(state := Runnable) else r
  }

  ghost predicate Exited(before: Table, p: nat, init: nat, after: Table)
    requires p < |before|
  {
    |after| == |before| &&
    forall i | 0 <= i < |before| ::
      after[i] == if i == p then ExitOne(before, p, init, before[i]).(state := Zombie)
                  else ExitOne(before, p, init, before[i])
  }

  function Reaped(q: Proc): Proc {
    q.(pid := 0, parent := -1, killed := false, state := Unused)
  }

  function Killed(q: Proc): Proc {
    q.(killed := true, state := if q.state == Sleeping then Runnable else q.state)
  }

  datatype WaitResult = Child(pid: nat) | Failed | Asleep

  class Ptable {
    const proc: array<Proc>
    var nextpid: nat
    const initproc: nat

    constructor (n: nat, init: nat)
      ensures proc.Length == n && initproc == init && nextpid == 1 && fresh(proc)
      ensures forall i | 0 <= i < n :: proc[i] == Proc(Unused, 0, -1, false, Nothing)
    {
      proc := new Proc[n](_ => Proc(Unused, 0, -1, false, Nothing));
      nextpid := 1;
      initproc := init;
    }

    method Wakeup1(c: Chan)
      modifies proc
      ensures Woken(old(proc[..]), proc[..], c)
    {
      for p := 0 to proc.Length
        invariant forall i | 0 <= i < p :: proc[i] == WakeOne(old(proc[i]), c)
        invariant forall i | p <= i < proc.Length :: proc[i] == old(proc[i])
      {
        if proc[p].state == Sleeping && proc[p].chan == c {
          proc[p] := proc[p].(state := Runnable);
        }
      }
    }

    method Kill(pid: int) returns (found: bool)
      modifies proc
      ensures found <==> FirstPid(old(proc[..]), pid) < proc.Length
      ensures !found ==> proc[..] == old(proc[..])
      ensures found ==> var t, i := old(proc[..]), FirstPid(old(proc[..]), pid);
        proc[..] == t[i := Killed(t[i])] &&
        proc[i] == Proc(if t[i].state == Sleeping then Runnable else t[i].state, t[i].pid, t[i].parent, true, t[i].chan)
    {
      for p := 0 to proc.Length
        invariant proc[..] == old(proc[..]) && FirstPid(old(proc[..]), pid) == FirstPid(old(proc[..]), pid, p)
      {
        if proc[p].pid == pid {
          proc[p] := proc[p].(killed := true);
          if proc[p].state == Sleeping {
            proc[p] := proc[p].(state := Runnable);
          }
          return true;
        }
      }
      return false;
    }

    method AllocProc() returns (np: nat)
      modifies this, proc
      ensures np == FirstUnused(old(proc[..]))
      ensures np < proc.Length ==> nextpid == old(nextpid) + 1 &&
                                   proc[..] == old(proc[..])[np := old(proc[np]).(state := Embryo, pid := old(nextpid))]
      ensures np == proc.Length ==> nextpid == old(nextpid) && proc[..] == old(proc[..])
    {
      for p := 0 to proc.Length
        invariant proc[..] == old(proc[..]) && nextpid == old(nextpid)
        invariant FirstUnused(old(proc[..])) == FirstUnused(old(proc[..]), p)
      {
        if proc[p].state == Unused {
          proc[p] := proc[p].(state := Embryo, pid := nextpid);
          nextpid := nextpid + 1;
          return p;
        }
      }
      return proc.Length;
    }

    /** exit of process cur, from taking ptable.lock to entering the scheduler. */
    method Exit(cur: nat)
      requires cur < proc.Length && proc[cur].state == Running && cur != initproc
      modifies proc
      ensures Exited(old(proc[..]), cur, initproc, proc[..])
    {
      ghost var t := proc[..];
      Wakeup1(ParentChan(proc[cur]));
      PassChildren(cur, t);
      proc[cur] := proc[cur].(state := Zombie);
    }

    /** exit's loop: abandoned children go to init. */
    method PassChildren(cur: nat, ghost t: Table)
      requires cur < proc.Length == |t| && Woken(t, proc[..], ParentChan(t[cur]))
      modifies proc
      ensures forall i | 0 <= i < proc.Length :: proc[i] == ExitOne(t, cur, initproc, t[i])
    {
      ghost var found := false;
      assert Scan(t, cur, initproc, false, 0, proc[..]);
      for p := 0 to proc.Length
        invariant found <==> exists i :: 0 <= i < p && t[i].parent == cur && t[i].state == Zombie
        invariant Scan(t, cur, initproc, found, p, proc[..])
      {
        ghost var before := proc[..];
        if proc[p].parent == cur {
          proc[p] := proc[p].(parent := initproc);
          if proc[p].state == Zombie {
            ghost var mid := proc[..];
            Wakeup1(Entry(initproc));
            ScanWakes(t, cur, initproc, found, p, before, mid, proc[..]);
            found := true;
          }
        }
        assert Scan(t, cur, initproc, found, p + 1, proc[..]);
      }
      forall i | 0 <= i < proc.Length
        ensures proc[i] == ExitOne(t, cur, initproc, t[i])
      {
        assert proc[..][i] == Sofar(t, cur, initproc, found, t[i], true);
      }
    }

    /** One round of wait by process cur, from ptable.lock held to returning or sleeping. */
    method Wait(cur: nat) returns (r: WaitResult)
      requires cur < proc.Length
      modifies proc
      ensures var t := old(proc[..]); var z := FirstZombie(t, cur);
        if z < |t| then r == Child(t[z].pid) && proc[..] == t[z := Reaped(t[z])] && proc[z] == Proc(Unused, 0, -1, false, t[z].chan)
        else if !HasKids(t, cur) || t[cur].killed then r == Failed && proc[..] == t
        else r == Asleep && proc[..] == t[cur := t[cur].(chan := Entry(cur), state := Sleeping)]
    {
      var havekids := false;
      for p := 0 to proc.Length
        invariant proc[..] == old(proc[..])
        invariant FirstZombie(old(proc[..]), cur) == FirstZombie(old(proc[..]), cur, p)
        invariant havekids <==> exists i :: 0 <= i < p && old(proc[..])[i].parent == cur
      {
        if proc[p].parent == cur {
          havekids := true;
          if proc[p].state == Zombie {
            r := Child(proc[p].pid);
            proc[p] := proc[p].(pid := 0, parent := -1, killed := false, state := Unused);
            return;
          }
        }
      }
      if !havekids || proc[cur].killed {
        return Failed;
      }
      proc[cur] := proc[cur].(chan := Entry(cur), state := Sleeping);
      return Asleep;
    }
  }

  /** Entry q part way through exit's scan: `seen` once its own turn has passed, `found` once
      a zombie child has been handed over. */
  ghost function Sofar(t: Table, cur: nat, init: nat, found: bool, q: Proc, seen: bool): Proc
    requires cur < |t|
  {
    var r := if seen && q.parent == cur then q.(parent := init) else q;
    if q.state == Sleeping && (q.chan == ParentChan(t[cur]) || (found && q.chan == Entry(init)))
    then r.(state := Runnable) else r
  }

  ghost predicate Scan(t: Table, cur: nat, init: nat, found: bool, p: nat, now: Table)
    requires cur < |t|
  {
    |now| == |t| && forall i | 0 <= i < |t| :: now[i] == Sofar(t, cur, init, found, t[i], i < p)
  }

  lemma ScanWakes(t: Table, cur: nat, init: nat, found: bool, p: nat, before: Table, mid: Table, after: Table)
    requires cur < |t| && p < |t| && Scan(t, cur, init, found, p, before) && before[p].parent == cur
    requires mid == before[p := before[p].(parent := init)] && Woken(mid, after, Entry(init))
    ensures Scan(t, cur, init, true, p + 1, after)
  {
    forall i | 0 <= i < |t|
      ensures after[i] == Sofar(t, cur, init, true, t[i], i < p + 1)
    {
      assert before[i] == Sofar(t, cur, init, found, t[i], i < p);
    }
  }
}
