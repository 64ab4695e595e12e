/**
 Shared memory regions (kernel/vm.c): pages of the parent mapped into a child from SHAREBASE
 on.
 */
module Shared {
  import opened VmSpec
  import opened VmRange
  import opened Vm

  const KERNBASE := 0x8000_0000
  const UINT := 0x1_0000_0000

  type uint = x: int | 0 <= x < UINT

  /** An entry of a process's table of shared regions; sz == 0 ends the table. */
  datatype Shm = Shm(memstart: uint, sz: uint)

  /** PGROUNDUP in 32 bits, in pages. */
  function Pages(sz: uint): nat {
    Up(sz) % (UINT / PGSIZE)
  }

  /** The physical address of a virtual one, -1 for none. */
  function Phys(mem: Mem, d: nat, va: nat): int {
    var x := LookV(mem, d, va / PGSIZE);
    if x.Map? then x.frame * PGSIZE + va % PGSIZE else -1
  }

  /** Page x of a region: page v + x of cd is page p + x of pd. */
  ghost predicate PageShared(mem: Mem, cd: nat, v: nat, pd: nat, p: nat, x: nat, perm: nat) {
    LookV(mem, pd, p + x).Map? && LookV(mem, cd, v + x) == Map(LookV(mem, pd, p + x).frame, perm)
  }

  /** n pages of cd from v on are the pages of pd from p on. */
  ghost predicate PagesShared(mem: Mem, cd: nat, v: nat, pd: nat, p: nat, n: nat, perm: nat) {
    forall x: nat | x < n :: PageShared(mem, cd, v, pd, p, x, perm)
  }

  /** What mapping pages lo up to hi of cd keeps. */
  ghost predicate Extended(mem: Mem, owner: Owners, mem2: Mem, owner2: Owners, cd: nat, lo: nat, hi: nat) {
    SameBut(mem, mem2, owner, cd, lo, hi) && TablesOnly(owner, owner2, cd) && SameData(mem, mem2, owner)
  }

  lemma ExtendMore(mem: Mem, owner: Owners, mem1: Mem, owner1: Owners, mem2: Mem, owner2: Owners, cd: nat, lo: nat, k: nat, hi: nat)
    requires Extended(mem, owner, mem1, owner1, cd, lo, k) && Extended(mem1, owner1, mem2, owner2, cd, k, hi) && lo <= k <= hi
    requires forall p | p in owner1 :: p in mem1
    ensures Extended(mem, owner, mem2, owner2, cd, lo, hi)
  {
    hide LookV;
  }

  /** One page more. */
  lemma ShareMore(mem1: Mem, owner1: Owners, mem2: Mem, cd: nat, pd: nat, v: nat, p: nat, n: nat, perm: nat)
    requires PagesShared(mem1, cd, v, pd, p, n, perm) && LookV(mem1, pd, p + n).Map? && cd != pd
    requires SameBut(mem1, mem2, owner1, cd, v + n, v + n + 1) && Owns(owner1, cd, Directory) && Owns(owner1, pd, Directory)
    requires LookV(mem2, cd, v + n) == Map(LookV(mem1, pd, p + n).frame, perm)
    ensures PagesShared(mem2, cd, v, pd, p, n + 1, perm)
  {
    hide LookV;
    forall x: nat | x < n + 1
      ensures PageShared(mem2, cd, v, pd, p, x, perm)
    {
      assert x < n ==> PageShared(mem1, cd, v, pd, p, x, perm);
      assert LookV(mem2, pd, p + x) == LookV(mem1, pd, p + x);
    }
  }

  /** Pages shared before stay shared while other pages of cd are mapped. */
  lemma ShareKept(mem: Mem, owner: Owners, mem2: Mem, owner2: Owners, cd: nat, pd: nat, v: nat, p: nat, n: nat, perm: nat, lo: nat, hi: nat)
    requires PagesShared(mem, cd, v, pd, p, n, perm) && Extended(mem, owner, mem2, owner2, cd, lo, hi) && v + n <= lo && cd != pd
    requires Owns(owner, cd, Directory) && Owns(owner, pd, Directory)
    ensures PagesShared(mem2, cd, v, pd, p, n, perm)
  {
    hide LookV;
    forall x: nat | x < n
      ensures PageShared(mem2, cd, v, pd, p, x, perm)
    {
      assert PageShared(mem, cd, v, pd, p, x, perm);
      assert LookV(mem2, pd, p + x) == LookV(mem, pd, p + x);
    }
  }

  /** Why a region cannot be mapped at page v of cd: it passes the limit, a page of it is absent
      in the parent, or the place is taken in the child. */
  ghost predicate Blocked(mem: Mem, cd: nat, v: nat, pd: nat, r: Shm) {
    (v * PGSIZE + 4 * r.sz) % UINT >= KERNBASE || exists x: nat :: PageBlocked(mem, cd, v, pd, r, x)
  }

  ghost predicate PageBlocked(mem: Mem, cd: nat, v: nat, pd: nat, r: Shm, x: nat) {
    x < Pages(r.sz) && (LookV(mem, pd, r.memstart / PGSIZE + x) == Absent || LookV(mem, cd, v + x).Map?)
  }

  /** Mappings below v do not matter to it. */
  lemma BlockedBack(mem: Mem, owner: Owners, mem1: Mem, owner1: Owners, cd: nat, lo: nat, v: nat, pd: nat, r: Shm)
    requires Extended(mem, owner, mem1, owner1, cd, lo, v) && Owns(owner, cd, Directory) && Owns(owner, pd, Directory) && cd != pd
    ensures Blocked(mem1, cd, v, pd, r) <==> Blocked(mem, cd, v, pd, r)
  {
    hide LookV, Pages;
    forall x: nat
      ensures PageBlocked(mem1, cd, v, pd, r, x) <==> PageBlocked(mem, cd, v, pd, r, x)
    {
      assert LookV(mem1, pd, r.memstart / PGSIZE + x) == LookV(mem, pd, r.memstart / PGSIZE + x);
    }
  }

  lemma BlockedAt(mem: Mem, owner: Owners, mem1: Mem, owner1: Owners, cd: nat, v: nat, k: nat, pd: nat, r: Shm)
    requires Extended(mem, owner, mem1, owner1, cd, v, v + k) && Owns(owner, cd, Directory) && Owns(owner, pd, Directory) && cd != pd
    requires k < Pages(r.sz)
    ensures LookV(mem1, pd, r.memstart / PGSIZE + k) == Absent || LookV(mem1, cd, v + k).Map? <==> PageBlocked(mem, cd, v, pd, r, k)
    ensures PageBlocked(mem, cd, v, pd, r, k) ==> Blocked(mem, cd, v, pd, r)
  {
    hide LookV, Pages;
    assert LookV(mem1, pd, r.memstart / PGSIZE + k) == LookV(mem, pd, r.memstart / PGSIZE + k);
  }

  /** The first n pages of the region can be mapped. */
  ghost predicate Unblocked(mem: Mem, cd: nat, v: nat, pd: nat, r: Shm, n: nat) {
    forall x: nat | x < n :: !PageBlocked(mem, cd, v, pd, r, x)
  }

  lemma AllUnblocked(mem: Mem, cd: nat, v: nat, pd: nat, r: Shm)
    requires Unblocked(mem, cd, v, pd, r, Pages(r.sz)) && (v * PGSIZE + 4 * r.sz) % UINT < KERNBASE
    ensures !Blocked(mem, cd, v, pd, r)
  {
    hide LookV, Pages;
  }

  lemma LimitBlocks(mem: Mem, cd: nat, v: nat, pd: nat, r: Shm)
    ensures (v * PGSIZE + 4 * r.sz) % UINT >= KERNBASE ==> Blocked(mem, cd, v, pd, r)
  {
  }

  lemma NoneUnblocked(mem: Mem, cd: nat, v: nat, pd: nat, r: Shm)
    ensures Unblocked(mem, cd, v, pd, r, 0)
  {
  }

  lemma UnblockedMore(mem: Mem, cd: nat, v: nat, pd: nat, r: Shm, n: nat)
    requires Unblocked(mem, cd, v, pd, r, n) && !PageBlocked(mem, cd, v, pd, r, n)
    ensures Unblocked(mem, cd, v, pd, r, n + 1)
  {
    hide PageBlocked;
  }

  lemma BeyondTop(mem: Mem, d: nat, w: nat)
    requires w >= NPTENTRIES * NPTENTRIES
    ensures LookV(mem, d, w) == Absent
  {
  }

  /** mappa2va where it succeeds; ok is false where it returns -1 or panics.  The limit is
      computed on a pointer to 4-byte words, in 32 bits. */
  method MapPa2Va(m: Machine, cd: nat, pd: nat, sz: uint, memstart: uint, va: uint, perm: nat) returns (n: int, ok: bool)
    requires m.Valid() && Owns(m.owner, cd, Directory) && Owns(m.owner, pd, Directory) && cd != pd
    requires va % PGSIZE == 0 && SHAREBASE <= va <= KERNBASE && LookV(m.mem, cd, KERNPAGES).Map?
    modifies m`mem, m`freelist, m`owner, m`starved
    ensures !ok ==> n == -1 && (m.starved || Blocked(old(m.mem), cd, va / PGSIZE, pd, Shm(memstart, sz)))
    ensures ok ==> !Blocked(old(m.mem), cd, va / PGSIZE, pd, Shm(memstart, sz))
    ensures ok ==> m.Valid() && n == Pages(sz) * PGSIZE && va + n <= KERNBASE
    ensures ok ==> PagesShared(m.mem, cd, va / PGSIZE, pd, memstart / PGSIZE, Pages(sz), perm)
    ensures ok ==> Extended(old(m.mem), old(m.owner), m.mem, m.owner, cd, va / PGSIZE, va / PGSIZE + Pages(sz))
  {
    hide FreeOk, PagesOk, LookV, Extended, PagesShared, Blocked, PageBlocked, Pages, Unblocked;
    LimitBlocks(m.mem, cd, va / PGSIZE, pd, Shm(memstart, sz));
    if (va + 4 * sz) % UINT >= KERNBASE {
      return -1, false;
    }
    var a, start: nat := Up(va) * PGSIZE, memstart;
    n := Pages(sz) * PGSIZE;
    ghost var v, p := va / PGSIZE, memstart / PGSIZE;
    ShareNone(m.mem, m.owner, cd, pd, v, p, perm);
    NoneUnblocked(m.mem, cd, v, pd, Shm(memstart, sz));
    var x := 0;
    ghost var k: nat := 0;
    while x < n
      invariant x == k * PGSIZE && k <= Pages(sz) && a == va + x && start == memstart + x && v + k <= KERNPAGES
      invariant m.Valid() && Extended(old(m.mem), old(m.owner), m.mem, m.owner, cd, v, v + k)
      invariant PagesShared(m.mem, cd, v, pd, p, k, perm)
      invariant Unblocked(old(m.mem), cd, v, pd, Shm(memstart, sz), k)
      decreases n - x
    {
      assert a / PGSIZE == v + k && start / PGSIZE == p + k;
      ghost var mem1, owner1 := m.mem, m.owner;
      BlockedAt(old(m.mem), old(m.owner), mem1, owner1, cd, v, k, pd, Shm(memstart, sz));
      if start >= UINT {
        BeyondTop(m.mem, pd, p + k);
        return -1, false;
      }
      KeptDirs(old(m.mem), old(m.owner), m.mem, m.owner, cd, pd, v, v + k);
      var pte := m.Lookup(pd, start / PGSIZE);
      if pte.Absent? {
        return -1, false;
      }
      var r := m.MapPage(cd, a / PGSIZE, pte.frame, perm);
      if r != Mapped {
        return -1, false;
      }
      assert v + k < KERNPAGES by { BelowKernel(old(m.mem), old(m.owner), mem1, owner1, cd, v, v + k); }
      ShareMore(mem1, owner1, m.mem, cd, pd, v, p, k, perm);
      ExtendOne(mem1, owner1, m.mem, m.owner, cd, v + k);
      ExtendMore(old(m.mem), old(m.owner), mem1, owner1, m.mem, m.owner, cd, v, v + k, v + k + 1);
      UnblockedMore(old(m.mem), cd, v, pd, Shm(memstart, sz), k);
      x := x + PGSIZE;
      k := k + 1;
      a := a + PGSIZE;
      start := start + PGSIZE;
    }
    AllUnblocked(old(m.mem), cd, v, pd, Shm(memstart, sz));
    ok := true;
  }

  lemma ShareNone(mem: Mem, owner: Owners, cd: nat, pd: nat, v: nat, p: nat, perm: nat)
    ensures PagesShared(mem, cd, v, pd, p, 0, perm) && Extended(mem, owner, mem, owner, cd, v, v)
  {
  }

  lemma ExtendOne(mem: Mem, owner: Owners, mem2: Mem, owner2: Owners, cd: nat, v: nat)
    requires SameBut(mem, mem2, owner, cd, v, v + 1) && TablesOnly(owner, owner2, cd) && SameData(mem, mem2, owner)
    ensures Extended(mem, owner, mem2, owner2, cd, v, v + 1)
  {
  }

  lemma KeptDirs(mem: Mem, owner: Owners, mem2: Mem, owner2: Owners, cd: nat, pd: nat, lo: nat, hi: nat)
    requires Extended(mem, owner, mem2, owner2, cd, lo, hi) && Owns(owner, cd, Directory) && Owns(owner, pd, Directory)
    ensures Owns(owner2, cd, Directory) && Owns(owner2, pd, Directory)
  {
  }

  /** The kernel's mappings stop a region from running into them. */
  lemma BelowKernel(mem: Mem, owner: Owners, mem1: Mem, owner1: Owners, cd: nat, v: nat, w: nat)
    requires Extended(mem, owner, mem1, owner1, cd, v, w) && Owns(owner, cd, Directory) && LookV(mem, cd, KERNPAGES).Map? && w <= KERNPAGES
    ensures LookV(mem1, cd, w) == Absent ==> w < KERNPAGES
  {
    hide LookV;
  }

  // The whole table of regions

  ghost predicate Ended(t: seq<Shm>, n: nat) {
    n < |t| && t[n].sz == 0 && forall i | 0 <= i < n :: t[i].sz != 0
  }

  /** Where region k begins in the child, in pages. */
  function Base(t: seq<Shm>, k: nat): nat
    requires k <= |t|
  {
    if k == 0 then SHAREPAGES else Base(t, k - 1) + Pages(t[k - 1].sz)
  }

  lemma {:induction false} BaseGrows(t: seq<Shm>, j: nat, k: nat)
    requires j <= k <= |t|
    ensures Base(t, j) <= Base(t, k)
    decreases k
  {
    if j < k {
      BaseGrows(t, j, k - 1);
    }
  }

  ghost predicate RegionShared(mem: Mem, cd: nat, pd: nat, t: seq<Shm>, k: nat, perm: nat)
    requires k < |t|
  {
    PagesShared(mem, cd, Base(t, k), pd, t[k].memstart / PGSIZE, Pages(t[k].sz), perm)
  }

  /** The first n regions. */
  ghost predicate AllShared(mem: Mem, cd: nat, pd: nat, t: seq<Shm>, n: nat, perm: nat) {
    n <= |t| && forall k: nat | k < n :: RegionShared(mem, cd, pd, t, k, perm)
  }

  /** Where region k of the child's table points afterwards. */
  function Moved(t: seq<Shm>, k: nat): int
    requires k < |t|
  {
    Base(t, k) * PGSIZE + t[k].memstart % PGSIZE
  }

  function Perm(wbit: bool): nat {
    if wbit then PTE_U + PTE_W else PTE_U
  }

  /** Region n goes behind those before it. */
  method LinkRegion(m: Machine, cd: nat, pd: nat, ghost t: seq<Shm>, ghost n: nat, r: Shm, va: uint, perm: nat,
                    ghost mem0: Mem, ghost owner0: Owners) returns (sz: int, ok: bool)
    requires m.Valid() && Owns(owner0, cd, Directory) && Owns(owner0, pd, Directory) && cd != pd && LookV(mem0, cd, KERNPAGES).Map?
    requires n < |t| && r == t[n] && va == Base(t, n) * PGSIZE && SHAREPAGES <= Base(t, n) <= KERNPAGES
    requires Extended(mem0, owner0, m.mem, m.owner, cd, SHAREPAGES, Base(t, n)) && AllShared(m.mem, cd, pd, t, n, perm)
    modifies m`mem, m`freelist, m`owner, m`starved
    ensures !ok ==> m.starved || Blocked(mem0, cd, Base(t, n), pd, t[n])
    ensures ok ==> !Blocked(mem0, cd, Base(t, n), pd, t[n])
    ensures ok ==> m.Valid() && Base(t, n + 1) <= KERNPAGES && va + sz == Base(t, n + 1) * PGSIZE
    ensures ok ==> Extended(mem0, owner0, m.mem, m.owner, cd, SHAREPAGES, Base(t, n + 1)) && AllShared(m.mem, cd, pd, t, n + 1, perm)
  {
    hide FreeOk, PagesOk, LookV, Extended, PagesShared, Blocked;
    ghost var mem1, owner1 := m.mem, m.owner;
    KeptDirs(mem0, owner0, m.mem, m.owner, cd, pd, SHAREPAGES, Base(t, n));
    KernelStays(mem0, owner0, m.mem, m.owner, cd, SHAREPAGES, Base(t, n));
    sz, ok := MapPa2Va(m, cd, pd, r.sz, r.memstart, va, perm);
    BlockedBack(mem0, owner0, mem1, owner1, cd, SHAREPAGES, Base(t, n), pd, r);
    if ok {
      forall i: nat | i < n
        ensures RegionShared(m.mem, cd, pd, t, i, perm)
      {
        assert RegionShared(mem1, cd, pd, t, i, perm);
        BaseGrows(t, i + 1, n);
        ShareKept(mem1, owner1, m.mem, m.owner, cd, pd, Base(t, i), t[i].memstart / PGSIZE, Pages(t[i].sz), perm, Base(t, n), Base(t, n + 1));
      }
      ExtendMore(mem0, owner0, mem1, owner1, m.mem, m.owner, cd, SHAREPAGES, Base(t, n), Base(t, n + 1));
    }
  }

  /** Region k cannot be mapped behind those before it. */
  ghost predicate FirstBlocked(mem: Mem, cd: nat, pd: nat, t: seq<Shm>, k: nat) {
    k < |t| && t[k].sz != 0 && Blocked(mem, cd, Base(t, k), pd, t[k])
  }

  ghost predicate HasEnd(t: seq<Shm>) {
    exists n :: 0 <= n < |t| && t[n].sz == 0
  }

  /** linkphysaddr, where every mapping succeeds: the parent's regions appear in the child one
      after the other, and the child's table points at them.  ok is false also for a table
      without an end, which the source reads past. */
  method LinkPhysAddr(m: Machine, cd: nat, pd: nat, shared: array<Shm>, wbit: bool) returns (n: nat, ok: bool)
    requires m.Valid() && Owns(m.owner, cd, Directory) && Owns(m.owner, pd, Directory) && cd != pd
    requires LookV(m.mem, cd, KERNPAGES).Map?
    modifies m`mem, m`freelist, m`owner, m`starved, shared
    ensures !ok ==> m.starved || (exists k: nat :: FirstBlocked(old(m.mem), cd, pd, old(shared[..]), k)) || !HasEnd(old(shared[..]))
    ensures ok ==> m.Valid() && Ended(old(shared[..]), n) && Base(old(shared[..]), n) <= KERNPAGES
    ensures ok ==> forall k | 0 <= k < n :: shared[k].sz == old(shared[k].sz) && shared[k].memstart == Moved(old(shared[..]), k)
    ensures ok ==> forall k | 0 <= k < n :: !Blocked(old(m.mem), cd, Base(old(shared[..]), k), pd, old(shared[..])[k])
    ensures ok ==> AllShared(m.mem, cd, pd, old(shared[..]), n, Perm(wbit))
    ensures ok ==> forall w: nat | SHAREPAGES <= w < Base(old(shared[..]), n) ::
      LookV(m.mem, cd, w).Map? && LookV(m.mem, cd, w).flags == if wbit then 6 else 4
    ensures ok ==> Extended(old(m.mem), old(m.owner), m.mem, m.owner, cd, SHAREPAGES, Base(old(shared[..]), n))
  {
    hide FreeOk, PagesOk, LookV, Extended, PagesShared, AllShared, Pages, Base, Blocked;
    ghost var t := shared[..];
    BaseZero(t);
    var va := SHAREBASE;
    AllNone(m.mem, m.owner, cd, pd, t, Perm(wbit));
    n := 0;
    while n < shared.Length && shared[n].sz != 0
      invariant n <= shared.Length && va == Base(t, n) * PGSIZE && SHAREPAGES <= Base(t, n) <= KERNPAGES
      invariant forall i | n <= i < shared.Length :: shared[i] == t[i]
      invariant forall i | 0 <= i < n :: shared[i].sz == t[i].sz != 0 && shared[i].memstart == Moved(t, i)
      invariant m.Valid() && Extended(old(m.mem), old(m.owner), m.mem, m.owner, cd, SHAREPAGES, Base(t, n))
      invariant AllShared(m.mem, cd, pd, t, n, Perm(wbit))
      invariant forall i | 0 <= i < n :: !Blocked(old(m.mem), cd, Base(t, i), pd, t[i])
    {
      var low := shared[n].memstart % PGSIZE;
      var sz, good := LinkRegion(m, cd, pd, t, n, shared[n], va, Perm(wbit), old(m.mem), old(m.owner));
      if !good {
        assert m.starved || FirstBlocked(old(m.mem), cd, pd, t, n);
        return 0, false;
      }
      BaseGrows(t, 0, n + 1);
      shared[n] := shared[n].(memstart := va + low);
      va := va + sz;
      n := n + 1;
    }
    ok := n < shared.Length;
    SharedFlags(m.mem, cd, pd, t, n, Perm(wbit));
  }

  /** Every page of the regions has the given flags. */
  lemma SharedFlags(mem: Mem, cd: nat, pd: nat, t: seq<Shm>, n: nat, perm: nat)
    requires AllShared(mem, cd, pd, t, n, perm) && n <= |t|
    ensures forall w: nat | SHAREPAGES <= w < Base(t, n) :: LookV(mem, cd, w).Map? && LookV(mem, cd, w).flags == perm
  {
    hide LookV;
    forall w: nat | SHAREPAGES <= w < Base(t, n)
      ensures LookV(mem, cd, w).Map? && LookV(mem, cd, w).flags == perm
    {
      var j := Locate(t, n, w);
      assert RegionShared(mem, cd, pd, t, j, perm);
      assert PageShared(mem, cd, Base(t, j), pd, t[j].memstart / PGSIZE, w - Base(t, j), perm);
    }
  }

  lemma BaseZero(t: seq<Shm>)
    ensures Base(t, 0) == SHAREPAGES
  {
  }

  lemma AllNone(mem: Mem, owner: Owners, cd: nat, pd: nat, t: seq<Shm>, perm: nat)
    ensures AllShared(mem, cd, pd, t, 0, perm) && Extended(mem, owner, mem, owner, cd, SHAREPAGES, SHAREPAGES)
  {
  }

  lemma KernelStays(mem: Mem, owner: Owners, mem2: Mem, owner2: Owners, cd: nat, lo: nat, hi: nat)
    requires Extended(mem, owner, mem2, owner2, cd, lo, hi) && Owns(owner, cd, Directory) && hi <= KERNPAGES
    requires LookV(mem, cd, KERNPAGES).Map?
    ensures LookV(mem2, cd, KERNPAGES).Map?
  {
    hide LookV;
  }

  // Aliasing, byte by byte

  /** Byte i of region k is the same memory in parent and child as long as the region's pages,
      counted from its first one, reach. */
  lemma Aliased(mem: Mem, cd: nat, pd: nat, t: seq<Shm>, n: nat, perm: nat, k: nat, i: nat)
    requires AllShared(mem, cd, pd, t, n, perm) && k < n && t[k].memstart % PGSIZE + i < Pages(t[k].sz) * PGSIZE
    ensures Phys(mem, cd, Moved(t, k) + i) == Phys(mem, pd, t[k].memstart + i) != -1
  {
    var low := t[k].memstart % PGSIZE;
    var x := (low + i) / PGSIZE;
    assert RegionShared(mem, cd, pd, t, k, perm) && PageShared(mem, cd, Base(t, k), pd, t[k].memstart / PGSIZE, x, perm);
    Split(Base(t, k), low, i);
    Split(t[k].memstart / PGSIZE, low, i);
    hide LookV;
  }

  lemma Split(page: nat, low: nat, i: nat)
    requires low < PGSIZE
    ensures (page * PGSIZE + low + i) / PGSIZE == page + (low + i) / PGSIZE && (page * PGSIZE + low + i) % PGSIZE == (low + i) % PGSIZE
  {
  }

  /** Byte i of region k is the same memory in parent and child. */
  ghost predicate SameByte(mem: Mem, cd: nat, pd: nat, t: seq<Shm>, k: nat, i: nat) {
    k < |t| && Phys(mem, cd, Moved(t, k) + i) == Phys(mem, pd, t[k].memstart + i) != -1
  }

  /** Page w of the child belongs to region j. */
  predicate Covers(t: seq<Shm>, j: nat, w: nat) {
    j < |t| && Base(t, j) <= w < Base(t, j) + Pages(t[j].sz)
  }

  /** How far region j lies from its place in the parent, in pages. */
  function Shift(t: seq<Shm>, j: nat): int
    requires j < |t|
  {
    t[j].memstart / PGSIZE - Base(t, j)
  }

  lemma {:induction false} Locate(t: seq<Shm>, n: nat, w: nat) returns (j: nat)
    requires n <= |t| && SHAREPAGES <= w < Base(t, n)
    ensures j < n && Covers(t, j, w)
  {
    if w >= Base(t, n - 1) {
      j := n - 1;
    } else {
      j := Locate(t, n - 1, w);
    }
  }

  /** The page of region r that byte i lies in, counted from its first one. */
  function PageOf(r: Shm, i: nat): nat {
    (r.memstart % PGSIZE + i) / PGSIZE
  }

  lemma PhysAt(mem: Mem, d: nat, page: nat, low: nat, i: nat)
    requires low < PGSIZE
    ensures var x := LookV(mem, d, page + (low + i) / PGSIZE);
      Phys(mem, d, page * PGSIZE + low + i) == if x.Map? then x.frame * PGSIZE + (low + i) % PGSIZE else -1
  {
    hide LookV;
    Split(page, low, i);
  }

  lemma SameFrame(f: nat, g: nat, r: nat)
    ensures f * PGSIZE + r == g * PGSIZE + r <==> f == g
  {
  }

  /** Sharing a byte is sharing the frame of its page. */
  lemma SameByteIs(mem: Mem, cd: nat, pd: nat, t: seq<Shm>, k: nat, i: nat)
    requires k < |t|
    ensures var x := PageOf(t[k], i);
      var c, p := LookV(mem, cd, Base(t, k) + x), LookV(mem, pd, t[k].memstart / PGSIZE + x);
      SameByte(mem, cd, pd, t, k, i) <==> c.Map? && p.Map? && c.frame == p.frame
  {
    hide LookV, Phys, Base;
    var low, page := t[k].memstart % PGSIZE, t[k].memstart / PGSIZE;
    PhysAt(mem, cd, Base(t, k), low, i);
    PhysAt(mem, pd, page, low, i);
    assert t[k].memstart == page * PGSIZE + low;
    var c, p := LookV(mem, cd, Base(t, k) + PageOf(t[k], i)), LookV(mem, pd, page + PageOf(t[k], i));
    if c.Map? && p.Map? { SameFrame(c.frame, p.frame, (low + i) % PGSIZE); }
  }

  /** A byte of region k whose page in the child belongs to region j is the same memory exactly
      when the parent has the same frame at both places. */
  lemma InRegion(mem: Mem, cd: nat, pd: nat, t: seq<Shm>, n: nat, perm: nat, k: nat, i: nat, j: nat)
    requires AllShared(mem, cd, pd, t, n, perm) && k < n <= |t| && j < n && Covers(t, j, Base(t, k) + PageOf(t[k], i))
    ensures var p := t[k].memstart / PGSIZE + PageOf(t[k], i); var q := p - Shift(t, k) + Shift(t, j);
      t[j].memstart / PGSIZE <= q < t[j].memstart / PGSIZE + Pages(t[j].sz) && LookV(mem, pd, q).Map? &&
      (SameByte(mem, cd, pd, t, k, i) <==> LookV(mem, pd, p).Map? && LookV(mem, pd, p).frame == LookV(mem, pd, q).frame)
  {
    hide LookV, Pages, Base, PageOf, SameByte;
    SameByteIs(mem, cd, pd, t, k, i);
    assert RegionShared(mem, cd, pd, t, j, perm);
    assert PageShared(mem, cd, Base(t, j), pd, t[j].memstart / PGSIZE, Base(t, k) + PageOf(t[k], i) - Base(t, j), perm);
  }

  /** Byte i of region k lies, in the child, in region j, whose pages are as far from the
      parent's as those of region k. */
  ghost predicate Carried(t: seq<Shm>, k: nat, i: nat, j: nat) {
    k <= j < |t| && Covers(t, j, Base(t, k) + PageOf(t[k], i)) && Shift(t, j) == Shift(t, k)
  }

  /** Any byte of or behind any region: it is shared exactly when its page in the child belongs
      to that region or to a later one that lies equally far from the parent's memory. */
  lemma AliasedIff(mem: Mem, freelist: seq<nat>, owner: Owners, cd: nat, pd: nat, t: seq<Shm>, n: nat, perm: nat, k: nat, i: nat)
    requires PagesOk(mem, owner) && FreeOk(freelist, owner) && Owns(owner, pd, Directory)
    requires k < n <= |t| && AllShared(mem, cd, pd, t, n, perm) && EmptyFrom(mem, cd, Base(t, n), KERNPAGES)
    requires Base(t, k) + PageOf(t[k], i) < KERNPAGES && t[k].memstart / PGSIZE + PageOf(t[k], i) < SHAREPAGES
    requires forall j | 0 <= j < n :: t[j].memstart / PGSIZE + Pages(t[j].sz) <= SHAREPAGES
    ensures SameByte(mem, cd, pd, t, k, i) <==>
            exists j: nat | j < n :: Carried(t, k, i, j)
  {
    hide LookV, PagesOk, FreeOk, AllShared, Pages, Base, SameByte, PageOf, Shift;
    var w := Base(t, k) + PageOf(t[k], i);
    BaseZero(t);
    BaseGrows(t, 0, k);
    if w < Base(t, n) {
      var j := Locate(t, n, w);
      OneRegion(t, n, w, j);
      LaterRegion(t, k, j, w);
      OwnFrame(mem, freelist, owner, cd, pd, t, n, perm, k, i, j);
      assert Shift(t, j) == Shift(t, k) ==> Carried(t, k, i, j);
    } else {
      NoRegion(t, n, w);
      SameByteIs(mem, cd, pd, t, k, i);
    }
  }

  lemma OwnFrame(mem: Mem, freelist: seq<nat>, owner: Owners, cd: nat, pd: nat, t: seq<Shm>, n: nat, perm: nat, k: nat, i: nat, j: nat)
    requires PagesOk(mem, owner) && FreeOk(freelist, owner) && Owns(owner, pd, Directory)
    requires AllShared(mem, cd, pd, t, n, perm) && k < n <= |t| && j < n && t[k].memstart / PGSIZE + PageOf(t[k], i) < SHAREPAGES
    requires Covers(t, j, Base(t, k) + PageOf(t[k], i))
    requires t[j].memstart / PGSIZE + Pages(t[j].sz) <= SHAREPAGES
    ensures SameByte(mem, cd, pd, t, k, i) <==> Shift(t, j) == Shift(t, k)
  {
    hide LookV, PagesOk, FreeOk, AllShared, Pages, Base, SameByte, PageOf, Covers;
    InRegion(mem, cd, pd, t, n, perm, k, i, j);
    var p := t[k].memstart / PGSIZE + PageOf(t[k], i);
    var q := p - Shift(t, k) + Shift(t, j);
    NoSharing(mem, freelist, owner, pd, q, pd, p);
  }

  /** A page of the child belongs to one region, which is not before the one it is counted from. */
  lemma OneRegion(t: seq<Shm>, n: nat, w: nat, j: nat)
    requires j < n <= |t| && Covers(t, j, w)
    ensures forall l: nat | l < n && Covers(t, l, w) :: l == j
  {
    hide Pages, Base;
    forall l: nat | l < n && Covers(t, l, w)
      ensures l == j
    {
      if l < j { Disjoint(t, l, j); }
      if j < l { Disjoint(t, j, l); }
    }
  }

  lemma LaterRegion(t: seq<Shm>, k: nat, j: nat, w: nat)
    requires k < |t| && Covers(t, j, w) && Base(t, k) <= w
    ensures k <= j
  {
    hide Pages, Base;
    if j < k { Disjoint(t, j, k); }
  }

  lemma NoRegion(t: seq<Shm>, n: nat, w: nat)
    requires n <= |t| && Base(t, n) <= w
    ensures forall l: nat | l < n :: !Covers(t, l, w)
  {
    hide Pages, Base;
    forall l: nat | l < n
      ensures !Covers(t, l, w)
    {
      BaseNext(t, l);
      BaseGrows(t, l + 1, n);
    }
  }

  /** The last region, with nothing mapped behind it, is shared as a whole exactly when its
      offset in its first page leaves room. */
  lemma CoveredIff(mem: Mem, cd: nat, pd: nat, t: seq<Shm>, k: nat, perm: nat)
    requires AllShared(mem, cd, pd, t, k + 1, perm) && k < |t| && t[k].sz > 0 && LookV(mem, cd, Base(t, k + 1)) == Absent
    ensures (forall i: nat | i < t[k].sz :: SameByte(mem, cd, pd, t, k, i)) <==>
            t[k].memstart % PGSIZE + t[k].sz <= Pages(t[k].sz) * PGSIZE
  {
    hide LookV, AllShared, Base, SameByte;
    var r := t[k];
    BaseNext(t, k);
    if r.memstart % PGSIZE + r.sz <= Pages(r.sz) * PGSIZE {
      forall i: nat | i < r.sz
        ensures SameByte(mem, cd, pd, t, k, i)
      {
        Whole(mem, cd, pd, t, k + 1, perm, k, i);
      }
    } else {
      var i: nat := if Pages(r.sz) == 0 then 0 else Pages(r.sz) * PGSIZE - r.memstart % PGSIZE;
      assert PageOf(r, i) == Pages(r.sz);
      SameByteIs(mem, cd, pd, t, k, i);
      assert i < r.sz && !SameByte(mem, cd, pd, t, k, i);
    }
  }

  lemma Whole(mem: Mem, cd: nat, pd: nat, t: seq<Shm>, n: nat, perm: nat, k: nat, i: nat)
    requires AllShared(mem, cd, pd, t, n, perm) && k < n && t[k].memstart % PGSIZE + i < Pages(t[k].sz) * PGSIZE
    ensures SameByte(mem, cd, pd, t, k, i)
  {
    Aliased(mem, cd, pd, t, n, perm, k, i);
  }

  /** A parent (directory 1) with two pages, and a child (directory 5) that shares two bytes
      across their boundary. */
  function Straddle(): Mem {
    map[1 := Entries(NoEntries()[0 := Map(2, 6)]),
        2 := Entries(NoEntries()[0 := Map(3, 6)][1 := Map(4, 6)]),
        3 := Data(ZeroPage()), 4 := Data(ZeroPage()),
        5 := Entries(NoEntries()[SHAREPDX := Map(6, 6)]),
        6 := Entries(NoEntries()[0 := Map(3, 6)])]
  }

  function Straddlers(): Owners {
    map[1 := Directory, 2 := Table(1, 0), 3 := User(1, 0, 0), 4 := User(1, 0, 1), 5 := Directory, 6 := Table(5, SHAREPDX)]
  }

  lemma StraddleParent()
    ensures var mem, owner := Straddle(), Straddlers(); forall p: nat | 1 <= p <= 4 :: p in owner && PageOk(mem, owner, p)
  {
  }

  lemma StraddleChild()
    ensures var mem, owner := Straddle(), Straddlers(); forall p: nat | 5 <= p <= 6 :: p in owner && PageOk(mem, owner, p)
  {
  }

  lemma StraddleOk()
    ensures PagesOk(Straddle(), Straddlers())
  {
    StraddleParent();
    StraddleChild();
    hide PageOk, Straddle;
  }

  /** Only the first of the two bytes is shared, though the parent has both. */
  lemma LostByte()
    ensures var t := [Shm(PGSIZE - 1, 2)]; var mem := Straddle();
      && PagesOk(mem, Straddlers()) && AllShared(mem, 5, 1, t, 1, 6) && LookV(mem, 5, Base(t, 1)) == Absent
      && SameByte(mem, 5, 1, t, 0, 0) && Phys(mem, 1, t[0].memstart + 1) != -1 && !SameByte(mem, 5, 1, t, 0, 1)
  {
    var t := [Shm(PGSIZE - 1, 2)];
    var mem := Straddle();
    assert Base(t, 0) == SHAREPAGES && Pages(2) == 1 && Base(t, 1) == SHAREPAGES + 1;
    assert LookV(mem, 1, 0) == Map(3, 6) && LookV(mem, 1, 1) == Map(4, 6);
    assert LookV(mem, 5, SHAREPAGES) == Map(3, 6) && LookV(mem, 5, SHAREPAGES + 1) == Absent;
    StraddleOk();
    hide LookV, PagesOk;
    assert PageShared(mem, 5, SHAREPAGES, 1, 0, 0, 6);
    assert RegionShared(mem, 5, 1, t, 0, 6);
    Whole(mem, 5, 1, t, 1, 6, 0, 0);
    SameByteIs(mem, 5, 1, t, 0, 1);
  }

  /** Regions occupy disjoint ranges of the child, in order. */
  lemma Disjoint(t: seq<Shm>, j: nat, k: nat)
    requires j < k < |t|
    ensures SHAREPAGES <= Base(t, j) <= Base(t, j) + Pages(t[j].sz) <= Base(t, k)
  {
    hide Pages, Base;
    BaseZero(t);
    BaseGrows(t, 0, j);
    BaseGrows(t, j + 1, k);
    BaseNext(t, j);
  }

  lemma BaseNext(t: seq<Shm>, j: nat)
    requires j < |t|
    ensures Base(t, j + 1) == Base(t, j) + Pages(t[j].sz)
  {
  }

  /** freevm on the child leaves the parent's pages and what is in them alone. */
  method FreeChild(m: Machine, cd: nat, pd: nat)
    requires m.Valid() && Owns(m.owner, cd, Directory) && Owns(m.owner, pd, Directory) && cd != pd
    modifies m`mem, m`freelist, m`owner, m`starved
    ensures m.Valid() && m.owner == Dropped(old(m.owner), cd) && Owns(m.owner, pd, Directory)
    ensures forall v: nat | v < SHAREPAGES && LookV(old(m.mem), pd, v).Map? ::
      var u := LookV(old(m.mem), pd, v).frame;
      LookV(m.mem, pd, v) == LookV(old(m.mem), pd, v) && Owns(m.owner, u, User(pd, Pdx(v), Ptx(v))) &&
      u in m.mem && u in old(m.mem) && m.mem[u] == old(m.mem)[u]
  {
    m.FreeVm(cd);
    forall v: nat | v < SHAREPAGES && LookV(old(m.mem), pd, v).Map?
      ensures var u := LookV(old(m.mem), pd, v).frame;
        LookV(m.mem, pd, v) == LookV(old(m.mem), pd, v) && Owns(m.owner, u, User(pd, Pdx(v), Ptx(v))) &&
        u in m.mem && u in old(m.mem) && m.mem[u] == old(m.mem)[u]
    {
      RemoveUser(old(m.mem), old(m.owner), pd, Pdx(v), Ptx(v));
    }
  }
}
