/**
 Physical pages and two-level page tables (kernel/vm.c, kernel/kalloc.c): what a page holds,
 who owns it, and what each primitive change does to both.  Pages are numbered; a virtual page
 is a pair of a directory index and a table index.
 */
module VmSpec {
  const NPTENTRIES := 1024
  const PGSIZE := 4096
  /** The directory index of SHAREBASE: user memory lies below it. */
  const SHAREPDX := 256

  const PTE_W := 2
  const PTE_U := 4

  /** A directory or table entry; an entry without the present bit is Absent. */
  datatype Pte = Absent | Map(frame: nat, flags: nat)

  datatype Content = Junk | Data(bytes: seq<nat>) | Entries(e: seq<Pte>)

  type Mem = map<nat, Content>

  /** Directory: of an address space.  Table: for entry i of directory d.  User: the page at
      (i, j) of directory d.  Kernel: anything else the kernel has allocated. */
  datatype Owner = Free | Kernel | Directory | Table(d: nat, i: nat) | User(d: nat, i: nat, j: nat)

  type Owners = map<nat, Owner>

  function NoEntries(): seq<Pte> {
    seq(NPTENTRIES, _ => Absent)
  }

  function ZeroPage(): (r: seq<nat>)
    ensures |r| == 4096 && forall i | 0 <= i < 4096 :: r[i] == 0
  {
    seq(PGSIZE, _ => 0)
  }

  predicate IsTable(mem: Mem, p: nat) {
    p in mem && mem[p].Entries? && |mem[p].e| == NPTENTRIES
  }

  function Ent(mem: Mem, p: nat, i: nat): Pte {
    if IsTable(mem, p) && i < NPTENTRIES then mem[p].e[i] else Absent
  }

  /** What directory d maps the virtual page (i, j) to. */
  function Look(mem: Mem, d: nat, i: nat, j: nat): Pte {
    if Ent(mem, d, i).Map? then Ent(mem, Ent(mem, d, i).frame, j) else Absent
  }

  function SetEnt(mem: Mem, p: nat, i: nat, x: Pte): Mem
    requires IsTable(mem, p) && i < NPTENTRIES
  {
    mem[p := Entries(mem[p].e[i := x])]
  }

  // Ownership

  ghost predicate Owns(owner: Owners, p: nat, o: Owner) {
    p in owner && owner[p] == o
  }

  ghost predicate DirAt(mem: Mem, owner: Owners, d: nat, i: nat) {
    Ent(mem, d, i).Map? ==> Owns(owner, Ent(mem, d, i).frame, Table(d, i)) && Ent(mem, d, i).flags == PTE_W + PTE_U
  }

  ghost predicate TabAt(mem: Mem, owner: Owners, d: nat, i: nat, t: nat, j: nat) {
    Ent(mem, t, j).Map? ==> Owns(owner, Ent(mem, t, j).frame, User(d, i, j))
  }

  ghost predicate DirOk(mem: Mem, owner: Owners, d: nat) {
    IsTable(mem, d) && forall i: nat | i < NPTENTRIES :: DirAt(mem, owner, d, i)
  }

  ghost predicate TabOk(mem: Mem, owner: Owners, d: nat, i: nat, t: nat) {
    && i < NPTENTRIES && Owns(owner, d, Directory) && IsTable(mem, t) && Ent(mem, d, i).Map? && Ent(mem, d, i).frame == t
    && (i < SHAREPDX ==> forall j: nat | j < NPTENTRIES :: TabAt(mem, owner, d, i, t, j))
  }

  ghost predicate UserOk(mem: Mem, owner: Owners, d: nat, i: nat, j: nat, u: nat) {
    && i < SHAREPDX && j < NPTENTRIES && Owns(owner, d, Directory) && Look(mem, d, i, j).Map? && Look(mem, d, i, j).frame == u
    && u in mem && mem[u].Data?
  }

  /** A page is what its owner says, and its owner refers to it just there. */
  ghost predicate PageOk(mem: Mem, owner: Owners, p: nat)
    requires p in owner
  {
    match owner[p]
    case Directory => DirOk(mem, owner, p)
    case Table(d, i) => TabOk(mem, owner, d, i, p)
    case User(d, i, j) => UserOk(mem, owner, d, i, j, p)
    case _ => true
  }

  ghost predicate PagesOk(mem: Mem, owner: Owners) {
    0 !in owner && forall p | p in owner :: PageOk(mem, owner, p)
  }

  ghost predicate FreeOk(freelist: seq<nat>, owner: Owners) {
    && (forall k | 0 <= k < |freelist| :: Owns(owner, freelist[k], Free))
    && (forall p | p in owner && owner[p] == Free :: p in freelist)
    && (forall k, l | 0 <= k < l < |freelist| :: freelist[k] != freelist[l])
  }

  /** Same mappings and same data in every user page. */
  ghost predicate SameLook(mem: Mem, mem2: Mem, owner: Owners) {
    forall d: nat, i: nat, j: nat | Owns(owner, d, Directory) :: Look(mem2, d, i, j) == Look(mem, d, i, j)
  }

  /** No user page changes its contents. */
  ghost predicate SameData(mem: Mem, mem2: Mem, owner: Owners) {
    forall u: nat | u in owner && owner[u].User? && u in mem :: u in mem2 && mem2[u] == mem[u]
  }

  // Entering a table

  lemma AddTable(mem: Mem, owner: Owners, d: nat, i: nat, t: nat, flags: nat)
    requires PagesOk(mem, owner) && Owns(owner, d, Directory) && Owns(owner, t, Kernel) && IsTable(mem, d)
    requires i < NPTENTRIES && Ent(mem, d, i) == Absent && flags == PTE_W + PTE_U
    ensures var mem2 := SetEnt(mem, d, i, Map(t, flags))[t := Entries(NoEntries())]; var owner2 := owner[t := Table(d, i)];
      PagesOk(mem2, owner2) && SameLook(mem, mem2, owner) && SameData(mem, mem2, owner)
  {
    var mem2 := SetEnt(mem, d, i, Map(t, flags))[t := Entries(NoEntries())];
    var owner2 := owner[t := Table(d, i)];
    forall p | p in owner2
      ensures PageOk(mem2, owner2, p)
    {
      assert PageOk(mem, owner, p);
      AddTablePage(mem, owner, d, i, t, flags, p);
    }
    forall a: nat, k: nat, j: nat | Owns(owner, a, Directory)
      ensures Look(mem2, a, k, j) == Look(mem, a, k, j)
    {
      assert PageOk(mem, owner, a);
      assert k < NPTENTRIES ==> DirAt(mem, owner, a, k);
    }
  }

  lemma AddTablePage(mem: Mem, owner: Owners, d: nat, i: nat, t: nat, flags: nat, p: nat)
    requires PagesOk(mem, owner) && Owns(owner, d, Directory) && Owns(owner, t, Kernel) && IsTable(mem, d)
    requires i < NPTENTRIES && Ent(mem, d, i) == Absent && p in owner && flags == PTE_W + PTE_U
    ensures PageOk(SetEnt(mem, d, i, Map(t, flags))[t := Entries(NoEntries())], owner[t := Table(d, i)], p)
  {
    var mem2 := SetEnt(mem, d, i, Map(t, flags))[t := Entries(NoEntries())];
    var owner2 := owner[t := Table(d, i)];
    assert PageOk(mem, owner, p) && PageOk(mem, owner, d);
    match owner2[p]
    case Directory =>
      forall k: nat | k < NPTENTRIES
        ensures DirAt(mem2, owner2, p, k)
      {
        assert DirAt(mem, owner, p, k);
      }
    case Table(a, k) =>
      if p != t && k < SHAREPDX {
        forall j: nat | j < NPTENTRIES
          ensures TabAt(mem2, owner2, a, k, p, j)
        {
          assert TabAt(mem, owner, a, k, p, j);
        }
      }
    case User(a, k, j) =>
      assert PageOk(mem, owner, a);
      assert DirAt(mem, owner, a, k);
    case _ =>
  }

  // Setting an entry of a table

  /** The table of entry i of directory d. */
  lemma TableOf(mem: Mem, owner: Owners, d: nat, i: nat)
    requires PagesOk(mem, owner) && Owns(owner, d, Directory) && Ent(mem, d, i).Map?
    ensures i < NPTENTRIES && Owns(owner, Ent(mem, d, i).frame, Table(d, i)) && IsTable(mem, Ent(mem, d, i).frame)
  {
    assert PageOk(mem, owner, d) && DirAt(mem, owner, d, i);
    assert PageOk(mem, owner, Ent(mem, d, i).frame);
  }

  /** Changing entry j of the table for (d, i) changes only what d maps (i, j) to. */
  lemma LookSet(mem: Mem, owner: Owners, d: nat, i: nat, j: nat, x: Pte, a: nat, k: nat, l: nat)
    requires PagesOk(mem, owner) && Owns(owner, d, Directory) && Owns(owner, a, Directory)
    requires Ent(mem, d, i).Map? && j < NPTENTRIES && IsTable(mem, Ent(mem, d, i).frame)
    ensures Look(SetEnt(mem, Ent(mem, d, i).frame, j, x), a, k, l) ==
            if a == d && k == i && l == j then x else Look(mem, a, k, l)
  {
    TableOf(mem, owner, d, i);
    if Ent(mem, a, k).Map? {
      TableOf(mem, owner, a, k);
    }
  }

  /** The pages after one entry of a table has changed from y to x, and page u's owner to o.
      Only u gains or loses: it was, or comes to be, at (i, j). */
  lemma SetPage(mem: Mem, owner: Owners, d: nat, i: nat, j: nat, x: Pte, u: nat, o: Owner, c: Content, p: nat)
    requires PagesOk(mem, owner) && Owns(owner, d, Directory) && u in owner && p in owner && p != u
    requires Ent(mem, d, i).Map? && j < NPTENTRIES && IsTable(mem, Ent(mem, d, i).frame)
    requires owner[u] == User(d, i, j) || owner[u] == Kernel
    requires owner[u] == Kernel && i < SHAREPDX ==> Look(mem, d, i, j) == Absent
    requires i < SHAREPDX && x.Map? ==> x.frame == u && o == User(d, i, j)
    ensures PageOk(SetEnt(mem, Ent(mem, d, i).frame, j, x)[u := c], owner[u := o], p)
  {
    var t := Ent(mem, d, i).frame;
    var mem2 := SetEnt(mem, t, j, x)[u := c];
    var owner2 := owner[u := o];
    TableOf(mem, owner, d, i);
    assert PageOk(mem, owner, p) && PageOk(mem, owner, t) && PageOk(mem, owner, u);
    match owner[p]
    case Directory =>
      forall k: nat | k < NPTENTRIES
        ensures DirAt(mem2, owner2, p, k)
      {
        assert DirAt(mem, owner, p, k);
      }
    case Table(a, k) =>
      assert PageOk(mem, owner, a);
      if k < SHAREPDX {
        forall l: nat | l < NPTENTRIES
          ensures TabAt(mem2, owner2, a, k, p, l)
        {
          assert TabAt(mem, owner, a, k, p, l);
        }
      }
    case User(a, k, l) =>
      LookSet(mem, owner, d, i, j, x, a, k, l);
      TableOf(mem, owner, a, k);
      assert PageOk(mem, owner, a);
    case _ =>
  }

  ghost predicate LookChanged(mem: Mem, mem2: Mem, owner: Owners, d: nat, i: nat, j: nat, x: Pte) {
    forall a: nat, k: nat, l: nat | Owns(owner, a, Directory) ::
      Look(mem2, a, k, l) == if a == d && k == i && l == j then x else Look(mem, a, k, l)
  }

  lemma LookChanges(mem: Mem, owner: Owners, d: nat, i: nat, j: nat, x: Pte, u: nat, c: Content)
    requires PagesOk(mem, owner) && Owns(owner, d, Directory) && u in owner && (owner[u].User? || owner[u] == Kernel)
    requires Ent(mem, d, i).Map? && j < NPTENTRIES && IsTable(mem, Ent(mem, d, i).frame)
    ensures LookChanged(mem, SetEnt(mem, Ent(mem, d, i).frame, j, x)[u := c], owner, d, i, j, x)
  {
    var mem1 := SetEnt(mem, Ent(mem, d, i).frame, j, x);
    forall a: nat, k: nat, l: nat | Owns(owner, a, Directory)
      ensures Look(mem1[u := c], a, k, l) == if a == d && k == i && l == j then x else Look(mem, a, k, l)
    {
      LookSet(mem, owner, d, i, j, x, a, k, l);
      TableOf(mem, owner, d, i);
      if Ent(mem, a, k).Map? {
        TableOf(mem, owner, a, k);
      }
    }
  }

  /** Mapping a page of data at a user address makes it that address's page. */
  lemma AddUser(mem: Mem, owner: Owners, d: nat, i: nat, j: nat, u: nat, flags: nat)
    requires PagesOk(mem, owner) && Owns(owner, d, Directory) && Owns(owner, u, Kernel) && u in mem && mem[u].Data?
    requires i < SHAREPDX && j < NPTENTRIES && Ent(mem, d, i).Map? && Look(mem, d, i, j) == Absent
    requires IsTable(mem, Ent(mem, d, i).frame)
    ensures var mem2 := SetEnt(mem, Ent(mem, d, i).frame, j, Map(u, flags)); var owner2 := owner[u := User(d, i, j)];
      PagesOk(mem2, owner2) && LookChanged(mem, mem2, owner, d, i, j, Map(u, flags)) && SameData(mem, mem2, owner)
  {
    TableOf(mem, owner, d, i);
    var mem2 := SetEnt(mem, Ent(mem, d, i).frame, j, Map(u, flags));
    var owner2 := owner[u := User(d, i, j)];
    assert mem2[u := mem[u]] == mem2;
    LookChanges(mem, owner, d, i, j, Map(u, flags), u, mem[u]);
    forall p | p in owner2
      ensures PageOk(mem2, owner2, p)
    {
      if p != u {
        SetPage(mem, owner, d, i, j, Map(u, flags), u, User(d, i, j), mem[u], p);
      } else {
        assert Owns(owner, d, Directory);
      }
    }
  }

  /** Unmapping a user page and freeing it. */
  lemma RemoveUser(mem: Mem, owner: Owners, d: nat, i: nat, j: nat)
    requires PagesOk(mem, owner) && Owns(owner, d, Directory)
    requires i < SHAREPDX && j < NPTENTRIES && Look(mem, d, i, j).Map?
    ensures var u := Look(mem, d, i, j).frame;
      Owns(owner, u, User(d, i, j)) && IsTable(mem, Ent(mem, d, i).frame) && u != Ent(mem, d, i).frame &&
      var mem2 := SetEnt(mem, Ent(mem, d, i).frame, j, Absent)[u := Junk]; var owner2 := owner[u := Free];
      PagesOk(mem2, owner2) && LookChanged(mem, mem2, owner, d, i, j, Absent) && SameData(mem, mem2, owner2)
  {
    TableOf(mem, owner, d, i);
    var t := Ent(mem, d, i).frame;
    var u := Look(mem, d, i, j).frame;
    assert PageOk(mem, owner, t) && TabAt(mem, owner, d, i, t, j);
    LookChanges(mem, owner, d, i, j, Absent, u, Junk);
    var mem2 := SetEnt(mem, t, j, Absent)[u := Junk];
    forall p | p in owner
      ensures PageOk(mem2, owner[u := Free], p)
    {
      if p != u {
        SetPage(mem, owner, d, i, j, Absent, u, Free, Junk, p);
      }
    }
  }

  /** Mapping above user memory: nobody's ownership changes. */
  lemma AddOther(mem: Mem, owner: Owners, d: nat, i: nat, j: nat, x: Pte)
    requires PagesOk(mem, owner) && Owns(owner, d, Directory)
    requires SHAREPDX <= i && j < NPTENTRIES && Ent(mem, d, i).Map? && IsTable(mem, Ent(mem, d, i).frame)
    ensures var mem2 := SetEnt(mem, Ent(mem, d, i).frame, j, x);
      PagesOk(mem2, owner) && LookChanged(mem, mem2, owner, d, i, j, x) && SameData(mem, mem2, owner)
  {
    TableOf(mem, owner, d, i);
    var t := Ent(mem, d, i).frame;
    var mem2 := SetEnt(mem, t, j, x);
    forall p | p in owner
      ensures PageOk(mem2, owner, p)
    {
      OtherPage(mem, owner, d, i, j, x, p);
    }
    forall a: nat, k: nat, l: nat | Owns(owner, a, Directory)
      ensures Look(mem2, a, k, l) == if a == d && k == i && l == j then x else Look(mem, a, k, l)
    {
      LookSet(mem, owner, d, i, j, x, a, k, l);
    }
  }

  lemma OtherPage(mem: Mem, owner: Owners, d: nat, i: nat, j: nat, x: Pte, p: nat)
    requires PagesOk(mem, owner) && Owns(owner, d, Directory) && p in owner
    requires SHAREPDX <= i && j < NPTENTRIES && Ent(mem, d, i).Map? && IsTable(mem, Ent(mem, d, i).frame)
    ensures PageOk(SetEnt(mem, Ent(mem, d, i).frame, j, x), owner, p)
  {
    var t := Ent(mem, d, i).frame;
    var mem2 := SetEnt(mem, t, j, x);
    TableOf(mem, owner, d, i);
    assert PageOk(mem, owner, p);
    match owner[p]
    case Directory =>
      forall k: nat | k < NPTENTRIES
        ensures DirAt(mem2, owner, p, k)
      {
        assert DirAt(mem, owner, p, k);
      }
    case Table(a, k) =>
      if k < SHAREPDX {
        forall l: nat | l < NPTENTRIES
          ensures TabAt(mem2, owner, a, k, p, l)
        {
          assert TabAt(mem, owner, a, k, p, l);
        }
      }
    case User(a, k, l) =>
      LookSet(mem, owner, d, i, j, x, a, k, l);
    case _ =>
  }

  // Dropping an address space

  /** Is page p part of address space d? */
  predicate PartOf(o: Owner, p: nat, d: nat) {
    (o == Directory && p == d) || (o.Table? && o.d == d) || (o.User? && o.d == d)
  }

  function Dropped(owner: Owners, d: nat): Owners {
    map p | p in owner :: if PartOf(owner[p], p, d) then Free else owner[p]
  }

  /** Once its user memory is unmapped, freeing the directory and its tables frees the address
      space. */
  lemma DropSpace(mem: Mem, owner: Owners, d: nat, mem2: Mem)
    requires PagesOk(mem, owner) && Owns(owner, d, Directory)
    requires forall p: nat | p in owner && !PartOf(owner[p], p, d) && p in mem :: p in mem2 && mem2[p] == mem[p]
    ensures PagesOk(mem2, Dropped(owner, d))
    ensures forall a: nat, i: nat, j: nat | Owns(owner, a, Directory) && a != d :: Look(mem2, a, i, j) == Look(mem, a, i, j)
    ensures SameData(mem, mem2, Dropped(owner, d))
  {
    var owner2 := Dropped(owner, d);
    forall a: nat, i: nat | Owns(owner, a, Directory) && a != d
      ensures Ent(mem2, a, i) == Ent(mem, a, i)
      ensures forall j: nat :: Look(mem2, a, i, j) == Look(mem, a, i, j)
    {
      assert PageOk(mem, owner, a);
      if Ent(mem, a, i).Map? {
        TableOf(mem, owner, a, i);
      }
    }
    forall p | p in owner2
      ensures PageOk(mem2, owner2, p)
    {
      assert PageOk(mem, owner, p);
      match owner2[p]
      case Directory =>
        forall k: nat | k < NPTENTRIES
          ensures DirAt(mem2, owner2, p, k)
        {
          assert DirAt(mem, owner, p, k);
        }
      case Table(a, k) =>
        if k < SHAREPDX {
          forall l: nat | l < NPTENTRIES
            ensures TabAt(mem2, owner2, a, k, p, l)
          {
            assert TabAt(mem, owner, a, k, p, l);
          }
        }
      case _ =>
    }
  }
}
