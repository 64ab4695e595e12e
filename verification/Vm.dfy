/**
 The page allocator (kernel/kalloc.c) and the address-space operations (kernel/vm.c).
 */
module Vm {
  import opened VmSpec
  import opened VmRange

  class Machine {
    var mem: Mem
    var freelist: seq<nat>
    ghost var owner: Owners
    /** Some kalloc has found the free list empty. */
    ghost var starved: bool

    /** Every page is free or has the one owner it says. */
    ghost predicate Valid()
      reads this
    {
      PagesOk(mem, owner) && FreeOk(freelist, owner) && forall p | p in owner :: p in mem
    }

    constructor ()
      ensures Valid() && owner == map[] && freelist == [] && !starved
    {
      mem, freelist, owner, starved := map[], [], map[], false;
    }

    method Kalloc() returns (p: nat)
      requires Valid()
      modifies this`freelist, this`owner, this`starved
      ensures Valid() && starved == (old(starved) || p == 0)
      ensures p == 0 <==> old(freelist) == []
      ensures p == 0 ==> owner == old(owner) && freelist == old(freelist)
      ensures p != 0 ==> [p] + freelist == old(freelist) && Owns(old(owner), p, Free) && owner == old(owner)[p := Kernel]
    {
      hide FreeOk, PagesOk;
      if freelist == [] {
        NoZero(mem, owner);
        starved := true;
        return 0;
      }
      p := freelist[0];
      FreePop(freelist, owner, Kernel);
      LoosePage(mem, owner, p, mem[p], Kernel);
      assert mem[p := mem[p]] == mem;
      NoZero(mem, owner);
      freelist := freelist[1..];
      owner := owner[p := Kernel];
    }

    /** kfree: the page is overwritten with junk and heads the list.  Whose page it was is for
        the caller to know; it must not be free. */
    method Kfree(p: nat)
      requires p !in freelist
      modifies this`mem, this`freelist
      ensures freelist == [p] + old(freelist) && mem == old(mem)[p := Junk]
    {
      mem := mem[p := Junk];
      freelist := [p] + freelist;
    }

    /** kfree of a page the kernel has in hand. */
    method Release(p: nat)
      requires Valid() && Owns(owner, p, Kernel)
      modifies this`mem, this`freelist, this`owner
      ensures Valid() && owner == old(owner)[p := Free] && freelist == [p] + old(freelist) && mem == old(mem)[p := Junk]
      ensures forall a: nat, i: nat, j: nat | Owns(owner, a, Directory) :: Look(mem, a, i, j) == Look(old(mem), a, i, j)
      ensures SameData(old(mem), mem, owner)
    {
      LoosePage(mem, owner, p, Junk, Free);
      FreePush(freelist, owner, p);
      Kfree(p);
      owner := owner[p := Free];
    }

    /** freerange: pages lo up to hi join the allocator. */
    method FreeRange(lo: nat, hi: nat)
      requires Valid() && 0 < lo <= hi && (forall p | p in owner :: !(lo <= p < hi))
      modifies this`mem, this`freelist, this`owner
      ensures Valid()
      ensures forall p: nat :: p in owner <==> p in old(owner) || lo <= p < hi
      ensures forall p: nat | p in owner :: owner[p] == if p in old(owner) then old(owner)[p] else Free
    {
      var p := lo;
      while p < hi
        invariant lo <= p <= hi && Valid()
        invariant forall q: nat :: q in owner <==> q in old(owner) || lo <= q < p
        invariant forall q: nat | q in owner :: owner[q] == if q in old(owner) then old(owner)[q] else Free
      {
        JoinPage(mem, freelist, owner, p);
        Kfree(p);
        owner := owner[p := Free];
        p := p + 1;
      }
    }

    /** walkpgdir: the table for virtual page v, made if need be; 0 if there is none. */
    method Walk(d: nat, v: nat, alloc: bool) returns (t: nat)
      requires Valid() && Owns(owner, d, Directory) && Pdx(v) < NPTENTRIES
      modifies this`mem, this`freelist, this`owner, this`starved
      ensures Valid() && TablesOnly(old(owner), owner, d) && Same(old(mem), mem, old(owner))
      ensures t != 0 ==> Ent(mem, d, Pdx(v)).Map? && Ent(mem, d, Pdx(v)).frame == t && IsTable(mem, t)
      ensures t == 0 ==> Ent(mem, d, Pdx(v)) == Absent && (!alloc || (freelist == [] && starved))
      ensures (starved ==> old(starved) || t == 0) && (old(starved) ==> starved) && (!alloc ==> starved == old(starved))
      ensures t == 0 || !alloc ==> mem == old(mem) && owner == old(owner) && freelist == old(freelist)
      ensures forall p | Owns(old(owner), p, Kernel) :: mem[p] == old(mem)[p]
    {
      hide FreeOk, PagesOk;
      NoZero(mem, owner);
      DirTable(mem, owner, d);
      var pde := mem[d].e[Pdx(v)];
      if pde.Map? {
        TableOf(mem, owner, d, Pdx(v));
        return pde.frame;
      }
      if !alloc {
        return 0;
      }
      t := Kalloc();
      if t == 0 {
        return 0;
      }
      DirTable(mem, owner, d);
      AddTable(mem, owner, d, Pdx(v), t, PTE_W + PTE_U);
      SameLookV(mem, SetEnt(mem, d, Pdx(v), Map(t, PTE_W + PTE_U))[t := Entries(NoEntries())], owner);
      FreeRetag(freelist, owner, t, Table(d, Pdx(v)));
      mem := SetEnt(mem, d, Pdx(v), Map(t, PTE_W + PTE_U))[t := Entries(NoEntries())];
      owner := owner[t := Table(d, Pdx(v))];
    }

    /** walkpgdir without allocation, and the entry it finds. */
    method Lookup(d: nat, v: nat) returns (pte: Pte)
      requires Valid() && Owns(owner, d, Directory) && Pdx(v) < NPTENTRIES
      modifies this`mem, this`freelist, this`owner, this`starved
      ensures Valid() && mem == old(mem) && owner == old(owner) && freelist == old(freelist) && starved == old(starved)
      ensures pte == LookV(mem, d, v)
    {
      hide FreeOk, PagesOk;
      var t := Walk(d, v, false);
      pte := if t == 0 then Absent else mem[t].e[Ptx(v)];
    }

    /** One round of mappages: virtual page v of d comes to be `frame`. */
    method MapPage(d: nat, v: nat, frame: nat, flags: nat) returns (r: MapResult)
      requires Valid() && Owns(owner, d, Directory) && Pdx(v) < NPTENTRIES
      requires v < SHAREPAGES ==> Owns(owner, frame, Kernel) && mem[frame].Data?
      modifies this`mem, this`freelist, this`owner, this`starved
      ensures Valid() && SameData(old(mem), mem, old(owner)) && starved == (old(starved) || r == NoMemory)
      ensures r == Mapped ==> LookV(old(mem), d, v) == Absent && LookV(mem, d, v) == Map(frame, flags)
      ensures r == Mapped ==> SameBut(old(mem), mem, old(owner), d, v, v + 1)
      ensures r == Mapped && v < SHAREPAGES ==>
        TablesOnly(old(owner)[frame := User(d, Pdx(v), Ptx(v))], owner, d) && mem[frame] == old(mem)[frame]
      ensures r == Mapped && v >= SHAREPAGES ==> TablesOnly(old(owner), owner, d)
      ensures r == NoMemory ==> mem == old(mem) && owner == old(owner) && freelist == old(freelist) && freelist == []
      ensures r == Remap ==> LookV(old(mem), d, v).Map?
    {
      hide FreeOk, PagesOk;
      var t := Walk(d, v, true);
      if t == 0 {
        return NoMemory;
      }
      SameAt(old(mem), mem, old(owner), d, v);
      if mem[t].e[Ptx(v)].Map? {
        return Remap;
      }
      if v < SHAREPAGES {
        assert owner[frame] == Kernel;
        AddUser(mem, owner, d, Pdx(v), Ptx(v), frame, flags);
        FreeRetag(freelist, owner, frame, User(d, Pdx(v), Ptx(v)));
        owner := owner[frame := User(d, Pdx(v), Ptx(v))];
      } else {
        AddOther(mem, owner, d, Pdx(v), Ptx(v), Map(frame, flags));
      }
      ghost var mem1 := mem;
      mem := SetEnt(mem, t, Ptx(v), Map(frame, flags));
      SetBut(mem1, mem, old(owner), d, v, Map(frame, flags));
      r := Mapped;
    }

    /** deallocuvm: unmaps and frees pages of d from newsz up to oldsz, skipping 4MB wherever
        there is no table. */
    method DeallocUvm(d: nat, oldsz: nat, newsz: nat) returns (r: nat)
      requires Valid() && Owns(owner, d, Directory) && oldsz <= SHAREBASE
      modifies this`mem, this`freelist, this`owner, this`starved
      ensures Valid() && starved == old(starved)
      ensures newsz >= oldsz ==> r == oldsz && mem == old(mem) && owner == old(owner) && freelist == old(freelist)
      ensures newsz < oldsz ==> r == newsz && Shrunk(old(mem), old(owner), mem, owner, d, Up(newsz), Up(oldsz))
    {
      hide FreeOk, PagesOk, Shrunk;
      if newsz >= oldsz {
        return oldsz;
      }
      ghost var lo, hi := Up(newsz), Up(oldsz);
      var a := Up(newsz) * PGSIZE;
      ghost var v := lo;
      ShrinkStart(mem, owner, d, lo);
      while a < oldsz
        invariant lo <= v && a == v * PGSIZE
        invariant Valid() && Owns(owner, d, Directory) && starved == old(starved)
        invariant Shrunk(old(mem), old(owner), mem, owner, d, lo, if v < hi then v else hi)
        decreases oldsz - a
      {
        var pg := a / PGSIZE;
        assert pg == v;
        var t := Walk(d, pg, false);
        if t == 0 {
          SkipTable(mem, d, v);
          a := (Pdx(pg) + 1) * NPTENTRIES * PGSIZE - PGSIZE;
          ghost var v2 := (Pdx(pg) + 1) * NPTENTRIES - 1;
          ShrinkNone(old(mem), old(owner), mem, owner, d, lo, v, if v2 + 1 < hi then v2 + 1 else hi);
          v := v2;
        } else if mem[t].e[Ptx(pg)].Map? {
          UnmapOne(d, pg, t, old(mem), old(owner), lo);
        } else {
          ShrinkNone(old(mem), old(owner), mem, owner, d, lo, v, v + 1);
        }
        a := a + PGSIZE;
        v := v + 1;
      }
      return newsz;
    }

    /** The page in entry pg of table t goes back to the free list, then the entry is cleared. */
    method UnmapOne(d: nat, pg: nat, t: nat, ghost mem0: Mem, ghost owner0: Owners, ghost lo: nat)
      requires Valid() && Owns(owner, d, Directory) && lo <= pg < SHAREPAGES && Shrunk(mem0, owner0, mem, owner, d, lo, pg)
      requires Ent(mem, d, Pdx(pg)).Map? && Ent(mem, d, Pdx(pg)).frame == t && IsTable(mem, t) && mem[t].e[Ptx(pg)].Map?
      modifies this`mem, this`freelist, this`owner
      ensures Valid() && Owns(owner, d, Directory) && Shrunk(mem0, owner0, mem, owner, d, lo, pg + 1)
    {
      hide FreeOk, PagesOk, Shrunk;
      ghost var mem1 := mem;
      RemoveUser(mem, owner, d, Pdx(pg), Ptx(pg));
      var u := mem[t].e[Ptx(pg)].frame;
      NotFree(freelist, owner, u);
      FreePush(freelist, owner, u);
      Kfree(u);
      mem := SetEnt(mem, t, Ptx(pg), Absent);
      assert mem == SetEnt(mem1, t, Ptx(pg), Absent)[u := Junk];
      ShrinkOne(mem0, owner0, mem1, owner, mem, d, lo, pg, u);
      owner := owner[u := Free];
    }

    /** allocuvm: grows d from oldsz to newsz with zeroed pages.  If memory runs out, every
        page it added is freed again; page tables it made stay. */
    method AllocUvm(d: nat, oldsz: nat, newsz: nat) returns (r: nat, ok: bool)
      requires Valid() && Owns(owner, d, Directory)
      requires forall w: nat | Up(oldsz) <= w < Up(newsz) && w < SHAREPAGES :: LookV(mem, d, w) == Absent
      modifies this`mem, this`freelist, this`owner, this`starved
      ensures Valid()
      ensures newsz >= SHAREBASE ==> !ok && mem == old(mem) && owner == old(owner)
      ensures starved == (old(starved) || (!ok && newsz < SHAREBASE))
      ensures newsz < SHAREBASE && newsz < oldsz ==> ok && r == oldsz && mem == old(mem) && owner == old(owner)
      ensures ok && newsz >= oldsz ==> r == newsz && Grown(old(mem), old(owner), mem, owner, d, Up(oldsz), Up(newsz))
      ensures !ok ==> r == 0 && Same(old(mem), mem, old(owner)) && TablesOnly(old(owner), owner, d)
    {
      hide FreeOk, PagesOk, Shrunk, Grown, LookV, ZeroPage;
      if newsz >= SHAREBASE {
        SameRefl(mem, owner, d);
        return 0, false;
      }
      if newsz < oldsz {
        return oldsz, true;
      }
      ghost var lo, hi := Up(oldsz), Up(newsz);
      var a := Up(oldsz) * PGSIZE;
      ghost var k := lo;
      GrowStart(mem, owner, d, lo);
      while a < newsz
        invariant lo <= k <= hi && a == k * PGSIZE && hi <= SHAREPAGES
        invariant Valid() && Grown(old(mem), old(owner), mem, owner, d, lo, k) && starved == old(starved)
        decreases newsz - a
      {
        ghost var mem1, owner1 := mem, owner;
        GrownDir(old(mem), old(owner), mem, owner, d, lo, k);
        var p, good := AddPage(d, a / PGSIZE, old(mem), old(owner), lo);
        if p == 0 {
          var _ := DeallocUvm(d, newsz, oldsz);
          GrowUndone(old(mem), old(owner), mem1, owner1, mem, owner, d, lo, k, hi);
          return 0, false;
        }
        if !good {
          UndoWithPage(d, oldsz, newsz, p, old(mem), old(owner), k);
          return 0, false;
        }
        a := a + PGSIZE;
        k := k + 1;
      }
      return newsz, true;
    }

    /** One round of allocuvm: a zeroed page at page k of d.  p is 0 if there was no page, and
        the page still in hand if there was no table for it. */
    method AddPage(d: nat, k: nat, ghost mem0: Mem, ghost owner0: Owners, ghost lo: nat) returns (p: nat, ok: bool)
      requires Valid() && Owns(owner, d, Directory) && Owns(owner0, d, Directory) && lo <= k < SHAREPAGES
      requires Grown(mem0, owner0, mem, owner, d, lo, k) && LookV(mem0, d, k) == Absent
      modifies this`mem, this`freelist, this`owner, this`starved
      ensures Valid() && starved == (old(starved) || !ok) && (ok ==> p != 0)
      ensures p == 0 ==> mem == old(mem) && owner == old(owner)
      ensures p != 0 && !ok ==> Owns(owner0, p, Free) && Owns(owner, d, Directory) && Grown(mem0, owner0[p := Kernel], mem, owner, d, lo, k)
      ensures ok ==> Grown(mem0, owner0, mem, owner, d, lo, k + 1)
    {
      hide FreeOk, PagesOk, Grown, LookV, ZeroPage, SameBut, SameData;
      ghost var mem1, owner1 := mem, owner;
      p := Kalloc();
      if p == 0 {
        return 0, false;
      }
      LoosePage(mem1, owner1, p, Data(ZeroPage()), Kernel);
      mem := mem[p := Data(ZeroPage())];
      GrownHold(mem0, owner0, mem1, owner1, d, lo, k, p, Data(ZeroPage()));
      GrownAbsent(mem0, owner0[p := Kernel], mem, owner, d, lo, k, k);
      var m := MapPage(d, k, p, PTE_W + PTE_U);
      if m == NoMemory {
        return p, false;
      }
      GrowOne(mem0, owner0, mem1, owner1, mem, owner, d, lo, k, p);
      ok := true;
    }

    /** allocuvm giving up with page p in hand. */
    method UndoWithPage(d: nat, oldsz: nat, newsz: nat, p: nat, ghost mem0: Mem, ghost owner0: Owners, ghost k: nat)
      requires Valid() && Owns(owner0, d, Directory) && PagesOk(mem0, owner0) && Owns(owner0, p, Free) && p in mem0 && Owns(owner, d, Directory)
      requires newsz < SHAREBASE && Up(oldsz) <= k < Up(newsz)
      requires Grown(mem0, owner0[p := Kernel], mem, owner, d, Up(oldsz), k)
      requires forall w: nat | Up(oldsz) <= w < Up(newsz) :: LookV(mem0, d, w) == Absent
      modifies this`mem, this`freelist, this`owner, this`starved
      ensures Valid() && Same(mem0, mem, owner0) && TablesOnly(owner0, owner, d) && starved == old(starved)
    {
      hide FreeOk, PagesOk, Shrunk, Grown, LookV;
      ghost var mem1, owner1 := mem, owner;
      LoosePage(mem0, owner0, p, mem0[p], Kernel);
      assert mem0[p := mem0[p]] == mem0;
      var _ := DeallocUvm(d, newsz, oldsz);
      ghost var mem2, owner2 := mem, owner;
      GrowUndone(mem0, owner0[p := Kernel], mem1, owner1, mem, owner, d, Up(oldsz), k, Up(newsz));
      TablesRelease(owner0, owner, d, p);
      Release(p);
      SameThen(mem0, owner0, p, mem2, owner2, mem);
    }

    /** freevm: every page of address space d is free afterwards, and no other page. */
    method FreeVm(d: nat)
      requires Valid() && Owns(owner, d, Directory)
      modifies this`mem, this`freelist, this`owner, this`starved
      ensures Valid() && owner == Dropped(old(owner), d) && Same(old(mem), mem, owner) && starved == old(starved)
    {
      hide FreeOk, PagesOk, Shrunk, LookV;
      var _ := DeallocUvm(d, SHAREBASE, 0);
      ghost var mem1, owner1 := mem, owner;
      assert Up(0) == 0 && Up(SHAREBASE) == SHAREPAGES;
      ShrunkOwner(old(mem), old(owner), mem, owner, d, 0, SHAREPAGES);
      AllGone(old(mem), old(owner), owner1, d);
      FreeTables(d);
      NotFree(freelist, TablesGone(owner1, d, NPTENTRIES), d);
      FreePush(freelist, TablesGone(owner1, d, NPTENTRIES), d);
      Kfree(d);
      DropSpace(mem1, owner1, d, mem);
      DropSame(old(mem), old(owner), mem1, owner1, mem, d);
      owner := Dropped(owner, d);
    }

    /** freevm's loop over the directory. */
    method FreeTables(d: nat)
      requires Valid() && Owns(owner, d, Directory)
      modifies this`mem, this`freelist
      ensures FreeOk(freelist, TablesGone(owner, d, NPTENTRIES)) && mem.Keys == old(mem).Keys
      ensures forall p | p in owner && !(owner[p].Table? && owner[p].d == d) :: mem[p] == old(mem)[p]
    {
      hide FreeOk, PagesOk;
      assert TablesGone(owner, d, 0) == owner;
      DirTable(mem, owner, d);
      for i := 0 to NPTENTRIES
        invariant FreeOk(freelist, TablesGone(owner, d, i)) && mem.Keys == old(mem).Keys
        invariant forall p | p in owner && !(owner[p].Table? && owner[p].d == d) :: mem[p] == old(mem)[p]
      {
        TableGone(old(mem), owner, d, i);
        var pde := mem[d].e[i];
        if pde.Map? {
          NotFree(freelist, TablesGone(owner, d, i), pde.frame);
          FreePush(freelist, TablesGone(owner, d, i), pde.frame);
          Kfree(pde.frame);
        }
      }
    }

    /** mappages over a range above user memory: n pages from v map to frames from pa on.  If
        it fails, some of them may. */
    method MapPages(d: nat, v: nat, n: nat, pa: nat, perm: nat) returns (r: MapResult)
      requires Valid() && Owns(owner, d, Directory) && SHAREPAGES <= v && v + n <= NPTENTRIES * NPTENTRIES
      requires forall w: nat | v <= w < v + n :: LookV(mem, d, w) == Absent
      modifies this`mem, this`freelist, this`owner, this`starved
      ensures Valid() && TablesOnly(old(owner), owner, d) && SameData(old(mem), mem, old(owner))
      ensures SameBut(old(mem), mem, old(owner), d, v, v + n)
      ensures (r == Mapped || (r == NoMemory && freelist == [])) && starved == (old(starved) || r == NoMemory)
      ensures r == Mapped ==> forall w: nat | v <= w < v + n :: LookV(mem, d, w) == Map(pa + (w - v), perm)
    {
      hide FreeOk, PagesOk, LookV;
      SameRefl(mem, owner, d);
      for x := 0 to n
        invariant Valid() && TablesOnly(old(owner), owner, d) && SameData(old(mem), mem, old(owner)) && starved == old(starved)
        invariant SameBut(old(mem), mem, old(owner), d, v, v + x)
        invariant forall w: nat | v <= w < v + x :: LookV(mem, d, w) == Map(pa + (w - v), perm)
      {
        ghost var mem1, owner1 := mem, owner;
        r := MapPage(d, v + x, pa + x, perm);
        assert r == Mapped || r == NoMemory by {
          assert LookV(mem1, d, v + x) == LookV(old(mem), d, v + x) == Absent;
        }
        if r == NoMemory {
          return;
        }
        ButMore(old(mem), old(owner), mem1, owner1, mem, owner, d, v, v + x);
      }
      r := Mapped;
    }

    /** The directory of a new address space, all entries absent; 0 if memory has run out. */
    method AllocDirectory() returns (d: nat)
      requires Valid()
      modifies this`mem, this`freelist, this`owner, this`starved
      ensures Valid() && starved == (old(starved) || d == 0)
      ensures d == 0 ==> owner == old(owner) && Same(old(mem), mem, old(owner))
      ensures d != 0 ==> FreshSpace(old(mem), old(owner), mem, owner, d) && forall w: nat :: LookV(mem, d, w) == Absent
    {
      hide FreeOk, PagesOk, LookV, NewSpace, NoEntries;
      d := Kalloc();
      if d == 0 {
        SameRefl(mem, owner, 0);
        return;
      }
      NewDirectory(mem, owner, d, mem[d := Entries(NoEntries())]);
      NewSpaceStart(old(owner), d);
      FreeRetag(freelist, owner, d, Directory);
      mem := mem[d := Entries(NoEntries())];
      owner := owner[d := Directory];
      assert owner == old(owner)[d := Directory];
      assert Same(old(mem), mem, old(owner));
    }

    /** setupkvm: a new address space with the kernel mapped and nothing else, or nothing. */
    method SetupKvm(data: nat) returns (d: nat, ok: bool)
      requires Valid() && 0x100 < data < 0xE000
      modifies this`mem, this`freelist, this`owner, this`starved
      ensures Valid() && starved == (old(starved) || !ok)
      ensures ok ==> FreshSpace(old(mem), old(owner), mem, owner, d) && KernelMapped(mem, d, Kmap(data), 4) && EmptyFrom(mem, d, 0, KERNPAGES)
      ensures ok ==> EmptyFrom(mem, d, 0x8E000, 0xFE000)
      ensures !ok ==> d == 0 && owner == old(owner) && Same(old(mem), mem, old(owner))
    {
      hide FreeOk, PagesOk, LookV, NewSpace, KernelMapped;
      d := AllocDirectory();
      if d == 0 {
        return 0, false;
      }
      var kmap := Kmap(data);
      KernelNone(mem, d, kmap);
      var k := 0;
      while k < 4
        invariant 0 <= k <= 4 && Valid() && FreshSpace(old(mem), old(owner), mem, owner, d) && starved == old(starved)
        invariant KernelMapped(mem, d, kmap, k) && EmptyFrom(mem, d, 0, KERNPAGES)
        invariant k >= 3 ==> EmptyFrom(mem, d, 0x8E000, 0xFE000)
        invariant EmptyFrom(mem, d, if k == 0 then 0 else kmap[k - 1].v + kmap[k - 1].n, NPTENTRIES * NPTENTRIES)
      {
        ghost var mem1, owner1 := mem, owner;
        var r := MapPages(d, kmap[k].v, kmap[k].n, kmap[k].pa, kmap[k].perm);
        NewSpaceMore(old(owner), owner1, owner, d);
        SameOld(old(mem), old(owner), mem1, owner1, mem, d, kmap[k].v, kmap[k].v + kmap[k].n);
        if r != Mapped {
          DropNew(old(mem), old(owner), owner, d);
          ghost var mem2 := mem;
          FreeVm(d);
          SameTwice(old(mem), mem2, mem, owner);
          return 0, false;
        }
        RegionMore(mem1, mem, owner1, d, kmap, k);
        k := k + 1;
      }
      ok := true;
    }

    /** copyuvm: a new address space with a copy of every page of d below sz, or nothing at all. */
    method CopyUvm(d: nat, sz: nat, data: nat) returns (nd: nat, ok: bool)
      requires Valid() && Owns(owner, d, Directory) && 0x100 < data < 0xE000 && sz <= SHAREBASE
      requires forall w: nat | w < Up(sz) :: LookV(mem, d, w).Map?
      modifies this`mem, this`freelist, this`owner, this`starved
      ensures Valid() && starved == (old(starved) || !ok)
      ensures ok ==> Copied(old(mem), old(owner), mem, owner, d, nd, Up(sz)) && KernelMapped(mem, nd, Kmap(data), 4)
      ensures ok ==> LookV(mem, nd, KERNPAGES).Map?
      ensures !ok ==> nd == 0 && owner == old(owner) && Same(old(mem), mem, old(owner))
    {
      hide FreeOk, PagesOk, LookV, NewSpace, KernelMapped, Kmap;
      nd, ok := SetupKvm(data);
      if !ok {
        return;
      }
      var i := 0;
      while i < sz
        invariant starved == old(starved)
        invariant i % PGSIZE == 0 && i / PGSIZE <= Up(sz) && Valid() && Copied(old(mem), old(owner), mem, owner, d, nd, i / PGSIZE)
        invariant KernelMapped(mem, nd, Kmap(data), 4)
        decreases sz - i
      {
        ghost var mem1, owner1 := mem, owner;
        ok := CopyPage(d, nd, i / PGSIZE, old(mem), old(owner));
        if !ok {
          ghost var mem2 := mem;
          DropNew(old(mem), old(owner), owner, nd);
          FreeVm(nd);
          SameTwice(old(mem), mem2, mem, owner);
          return 0, false;
        }
        KernelKept(mem1, mem, owner1, nd, i / PGSIZE, data);
        i := i + PGSIZE;
      }
      KernelThere(mem, nd, data);
      ok := true;
    }

    /** One round of copyuvm. */
    method CopyPage(d: nat, nd: nat, k: nat, ghost mem0: Mem, ghost owner0: Owners) returns (ok: bool)
      requires Valid() && PagesOk(mem0, owner0) && Owns(owner0, d, Directory) && k < SHAREPAGES && LookV(mem0, d, k).Map?
      requires Copied(mem0, owner0, mem, owner, d, nd, k)
      modifies this`mem, this`freelist, this`owner, this`starved
      ensures Valid() && starved == (old(starved) || !ok)
      ensures ok ==> Copied(mem0, owner0, mem, owner, d, nd, k + 1) && SameBut(old(mem), mem, old(owner), nd, k, k + 1)
      ensures !ok ==> FreshSpace(mem0, owner0, mem, owner, nd)
    {
      hide FreeOk, PagesOk, Copied, LookV, FreshSpace, SameBut, SameData;
      CopiedFresh(mem0, owner0, mem, owner, d, nd, k);
      SourcePage(mem0, owner0, mem, owner, d, nd, k);
      var pte := Lookup(d, k);
      ghost var mem1, owner1 := mem, owner;
      var p := Kalloc();
      if p == 0 {
        return false;
      }
      var c := mem[pte.frame];
      LoosePage(mem1, owner1, p, c, Kernel);
      SameLookV(mem1, mem1[p := c], owner1);
      mem := mem[p := c];
      CopiedDir(mem0, owner0, mem1, owner1, nd, p);
      var r := MapPage(nd, k, p, pte.flags);
      if r != Mapped {
        CopiedEmpty(mem0, owner0, mem1, owner1, mem1[p := c], d, nd, k);
        Release(p);
        ReleaseFresh(mem0, owner0, mem1, owner1, nd, p, c, mem);
        return false;
      }
      CopyOne(mem0, owner0, mem1, owner1, mem, owner, d, nd, k, p, c);
      ok := true;
    }
  }
}
