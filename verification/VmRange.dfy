/**
 Ranges of virtual pages, and what freeing, growing and copying address spaces means for the
 pages of all of them.
 */
module VmRange {
  import opened VmSpec

  const SHAREBASE := 0x4000_0000
  const SHAREPAGES := 0x40000
  const KERNPAGES := 0x80000

  function Pdx(v: nat): nat {
    v / 1024
  }

  function Ptx(v: nat): nat {
    v % 1024
  }

  /** What d maps virtual page v to. */
  function LookV(mem: Mem, d: nat, v: nat): Pte {
    Look(mem, d, Pdx(v), Ptx(v))
  }

  /** The number of pages that n bytes take up, PGROUNDUP(n) / PGSIZE. */
  function Up(n: nat): nat {
    (n + PGSIZE - 1) / PGSIZE
  }

  /** Every mapping of the address spaces in `owner` is kept, except perhaps those of pages
      lo up to hi of d. */
  ghost predicate SameBut(mem: Mem, mem2: Mem, owner: Owners, d: nat, lo: nat, hi: nat) {
    forall a: nat, w: nat | Owns(owner, a, Directory) && !(a == d && lo <= w < hi) :: LookV(mem2, a, w) == LookV(mem, a, w)
  }

  lemma SetBut(mem: Mem, mem2: Mem, owner: Owners, d: nat, v: nat, x: Pte)
    requires LookChanged(mem, mem2, owner, d, Pdx(v), Ptx(v), x) && Owns(owner, d, Directory)
    ensures SameBut(mem, mem2, owner, d, v, v + 1) && LookV(mem2, d, v) == x
  {
    hide Look;
    forall a: nat, w: nat | Owns(owner, a, Directory) && !(a == d && v <= w < v + 1)
      ensures LookV(mem2, a, w) == LookV(mem, a, w)
    {
      assert Pdx(w) == Pdx(v) && Ptx(w) == Ptx(v) ==> w == v;
    }
  }

  // The free list

  lemma FreePush(freelist: seq<nat>, owner: Owners, p: nat)
    requires FreeOk(freelist, owner) && p in owner && owner[p] != Free
    ensures FreeOk([p] + freelist, owner[p := Free])
  {
    var f := [p] + freelist;
    assert forall k | 0 < k < |f| :: f[k] == freelist[k - 1];
  }

  lemma FreePop(freelist: seq<nat>, owner: Owners, o: Owner)
    requires FreeOk(freelist, owner) && freelist != [] && o != Free
    ensures Owns(owner, freelist[0], Free) && FreeOk(freelist[1..], owner[freelist[0] := o])
  {
    var f := freelist[1..];
    assert forall k | 0 <= k < |f| :: f[k] == freelist[k + 1];
    forall p | p in owner && owner[p] == Free && p != freelist[0]
      ensures p in f
    {
      var k :| 0 <= k < |freelist| && freelist[k] == p;
      assert f[k - 1] == p;
    }
  }

  lemma NotFree(freelist: seq<nat>, owner: Owners, p: nat)
    requires FreeOk(freelist, owner) && p in owner && owner[p] != Free
    ensures p !in freelist
  {
  }

  lemma FreeRetag(freelist: seq<nat>, owner: Owners, p: nat, o: Owner)
    requires FreeOk(freelist, owner) && p in owner && owner[p] != Free && o != Free
    ensures FreeOk(freelist, owner[p := o])
  {
  }

  /** A page changing hands between the kernel and the free list disturbs nobody. */
  lemma LoosePage(mem: Mem, owner: Owners, p: nat, c: Content, o: Owner)
    requires PagesOk(mem, owner) && p in owner && (owner[p] == Free || owner[p] == Kernel) && (o == Free || o == Kernel)
    ensures PagesOk(mem[p := c], owner[p := o])
    ensures forall a: nat, i: nat, j: nat | Owns(owner, a, Directory) :: Look(mem[p := c], a, i, j) == Look(mem, a, i, j)
    ensures SameData(mem, mem[p := c], owner)
  {
    var mem2, owner2 := mem[p := c], owner[p := o];
    forall a: nat, i: nat | Owns(owner, a, Directory)
      ensures Ent(mem2, a, i) == Ent(mem, a, i)
      ensures forall j: nat :: Look(mem2, a, i, j) == Look(mem, a, i, j)
    {
      if Ent(mem, a, i).Map? {
        TableOf(mem, owner, a, i);
      }
    }
    forall q | q in owner2
      ensures PageOk(mem2, owner2, q)
    {
      assert PageOk(mem, owner, q);
      match owner2[q]
      case Directory =>
        forall k: nat | k < NPTENTRIES
          ensures DirAt(mem2, owner2, q, k)
        {
          assert DirAt(mem, owner, q, k);
        }
      case Table(a, k) =>
        if k < SHAREPDX {
          forall l: nat | l < NPTENTRIES
            ensures TabAt(mem2, owner2, a, k, q, l)
          {
            assert TabAt(mem, owner, a, k, q, l);
          }
        }
      case _ =>
    }
  }

  /** All mappings and all user data are kept. */
  ghost predicate Same(mem: Mem, mem2: Mem, owner: Owners) {
    SameBut(mem, mem2, owner, 0, 0, 0) && SameData(mem, mem2, owner)
  }

  lemma SameLookV(mem: Mem, mem2: Mem, owner: Owners)
    requires SameLook(mem, mem2, owner)
    ensures SameBut(mem, mem2, owner, 0, 0, 0)
  {
    hide Look;
  }

  lemma SameAt(mem: Mem, mem2: Mem, owner: Owners, d: nat, v: nat)
    requires Same(mem, mem2, owner) && Owns(owner, d, Directory)
    ensures LookV(mem2, d, v) == LookV(mem, d, v)
  {
    hide LookV;
  }

  lemma DirTable(mem: Mem, owner: Owners, d: nat)
    requires PagesOk(mem, owner) && Owns(owner, d, Directory)
    ensures IsTable(mem, d)
  {
    assert PageOk(mem, owner, d);
  }

  datatype MapResult = Mapped | NoMemory | Remap

  /** owner2 differs from owner only in free pages that became tables of d. */
  ghost predicate TablesOnly(owner: Owners, owner2: Owners, d: nat) {
    owner2.Keys == owner.Keys &&
    forall p | p in owner :: owner2[p] == owner[p] || (owner[p] == Free && owner2[p].Table? && owner2[p].d == d)
  }

  lemma NoZero(mem: Mem, owner: Owners)
    requires PagesOk(mem, owner)
    ensures 0 !in owner
  {
  }

  /** A page new to the allocator. */
  lemma JoinPage(mem: Mem, freelist: seq<nat>, owner: Owners, p: nat)
    requires PagesOk(mem, owner) && FreeOk(freelist, owner) && p !in owner && p != 0
    ensures p !in freelist && PagesOk(mem[p := Junk], owner[p := Free]) && FreeOk([p] + freelist, owner[p := Free])
  {
    var mem2, owner2 := mem[p := Junk], owner[p := Free];
    var f := [p] + freelist;
    assert forall k | 0 < k < |f| :: f[k] == freelist[k - 1];
    forall q | q in owner2
      ensures PageOk(mem2, owner2, q)
    {
      if q != p {
        JoinKeeps(mem, owner, p, q);
      }
    }
  }

  lemma JoinKeeps(mem: Mem, owner: Owners, p: nat, q: nat)
    requires PagesOk(mem, owner) && p !in owner && q in owner
    ensures PageOk(mem[p := Junk], owner[p := Free], q)
  {
    var mem2, owner2 := mem[p := Junk], owner[p := Free];
    assert PageOk(mem, owner, q);
    match owner[q]
    case Directory =>
      forall k: nat | k < NPTENTRIES
        ensures DirAt(mem2, owner2, q, k)
      {
        assert DirAt(mem, owner, q, k);
      }
    case Table(a, k) =>
      if k < SHAREPDX {
        forall l: nat | l < NPTENTRIES
          ensures TabAt(mem2, owner2, a, k, q, l)
        {
          assert TabAt(mem, owner, a, k, q, l);
        }
      }
    case User(a, k, l) =>
      TableOf(mem, owner, a, k);
    case _ =>
  }

  // Unmapping a range

  function Num(o: Owner): nat
    requires o.User?
  {
    NPTENTRIES * o.i + o.j
  }

  /** Is o a user page of d numbered lo up to hi? */
  predicate InRange(o: Owner, d: nat, lo: nat, hi: nat) {
    o.User? && o.d == d && lo <= Num(o) < hi
  }

  function Cleared(owner: Owners, d: nat, lo: nat, hi: nat): Owners {
    map p | p in owner :: if InRange(owner[p], d, lo, hi) then Free else owner[p]
  }

  /** Pages lo up to k of d are unmapped and their memory is free; all else is as it was. */
  ghost predicate Shrunk(mem: Mem, owner: Owners, mem2: Mem, owner2: Owners, d: nat, lo: nat, k: nat) {
    && SameBut(mem, mem2, owner, d, lo, k) && (forall w: nat | lo <= w < k :: LookV(mem2, d, w) == Absent)
    && owner2 == Cleared(owner, d, lo, k) && SameData(mem, mem2, owner2)
  }

  lemma ShrinkStart(mem: Mem, owner: Owners, d: nat, lo: nat)
    ensures Shrunk(mem, owner, mem, owner, d, lo, lo)
  {
    hide LookV;
    assert Cleared(owner, d, lo, lo) == owner;
  }

  /** Where nothing is mapped there is nothing to free. */
  lemma ShrinkNone(mem: Mem, owner: Owners, mem2: Mem, owner2: Owners, d: nat, lo: nat, k: nat, k2: nat)
    requires Shrunk(mem, owner, mem2, owner2, d, lo, k) && PagesOk(mem2, owner2) && lo <= k <= k2
    requires forall w: nat | k <= w < k2 :: LookV(mem2, d, w) == Absent
    ensures Shrunk(mem, owner, mem2, owner2, d, lo, k2)
  {
    forall p | p in owner
      ensures !InRange(owner[p], d, k, k2)
    {
      if owner[p].User? && owner[p].d == d && k <= Num(owner[p]) {
        assert owner2[p] == owner[p] && PageOk(mem2, owner2, p);
        NumAt(owner[p]);
        assert LookV(mem2, d, Num(owner[p])).Map?;
      }
    }
    assert Cleared(owner, d, lo, k2) == owner2;
    hide LookV;
  }

  lemma NumAt(o: Owner)
    requires o.User? && o.j < NPTENTRIES
    ensures Pdx(Num(o)) == o.i && Ptx(Num(o)) == o.j
  {
  }

  lemma ShrinkOwner(mem: Mem, owner: Owners, owner1: Owners, d: nat, lo: nat, k: nat, u: nat)
    requires owner1 == Cleared(owner, d, lo, k) && PagesOk(mem, owner1) && lo <= k
    requires Owns(owner1, u, User(d, Pdx(k), Ptx(k)))
    ensures Cleared(owner, d, lo, k + 1) == owner1[u := Free]
  {
    assert PageOk(mem, owner1, u);
    forall p | p in owner
      ensures Cleared(owner, d, lo, k + 1)[p] == owner1[u := Free][p]
    {
      if owner[p].User? && owner[p].d == d && Num(owner[p]) == k {
        assert owner1[p] == owner[p] && PageOk(mem, owner1, p);
        NumAt(owner[p]);
      }
    }
  }

  lemma ShrinkOne(mem: Mem, owner: Owners, mem1: Mem, owner1: Owners, mem2: Mem, d: nat, lo: nat, k: nat, u: nat)
    requires Shrunk(mem, owner, mem1, owner1, d, lo, k) && Owns(owner1, d, Directory) && lo <= k < SHAREPAGES
    requires LookChanged(mem1, mem2, owner1, d, Pdx(k), Ptx(k), Absent) && Owns(owner1, u, User(d, Pdx(k), Ptx(k)))
    requires PagesOk(mem1, owner1) && SameData(mem1, mem2, owner1[u := Free])
    requires forall p | p in owner1 :: p in mem1
    ensures Shrunk(mem, owner, mem2, owner1[u := Free], d, lo, k + 1)
  {
    hide LookV, LookChanged, PagesOk, Cleared;
    SetBut(mem1, mem2, owner1, d, k, Absent);
    ShrinkOwner(mem1, owner, owner1, d, lo, k, u);
    ClearedDirs(owner, d, lo, k);
  }

  lemma ClearedDirs(owner: Owners, d: nat, lo: nat, k: nat)
    ensures Cleared(owner, d, lo, k).Keys == owner.Keys
    ensures forall a | a in owner && !owner[a].User? :: Cleared(owner, d, lo, k)[a] == owner[a]
  {
  }

  /** A directory entry that is absent: the next 4MB hold no page. */
  lemma SkipTable(mem: Mem, d: nat, v: nat)
    requires Ent(mem, d, Pdx(v)) == Absent
    ensures forall w: nat | v <= w < NPTENTRIES * (Pdx(v) + 1) :: LookV(mem, d, w) == Absent
  {
  }

  /** What ownership says without the owner map: a page of user memory appears at one address
      of one address space, is no table and is not free. */
  lemma NoSharing(mem: Mem, freelist: seq<nat>, owner: Owners, d: nat, v: nat, a: nat, w: nat)
    requires PagesOk(mem, owner) && FreeOk(freelist, owner) && Owns(owner, d, Directory) && Owns(owner, a, Directory)
    requires v < SHAREPAGES && w < SHAREPAGES && LookV(mem, d, v).Map?
    ensures LookV(mem, a, w).Map? && LookV(mem, a, w).frame == LookV(mem, d, v).frame ==> a == d && w == v
    ensures LookV(mem, d, v).frame !in freelist && LookV(mem, d, v).frame != a
    ensures forall i: nat | Ent(mem, a, i).Map? :: Ent(mem, a, i).frame != LookV(mem, d, v).frame
  {
    RemoveUser(mem, owner, d, Pdx(v), Ptx(v));
    if LookV(mem, a, w).Map? {
      RemoveUser(mem, owner, a, Pdx(w), Ptx(w));
    }
    NotFree(freelist, owner, LookV(mem, d, v).frame);
    forall i: nat | Ent(mem, a, i).Map?
      ensures Owns(owner, Ent(mem, a, i).frame, Table(a, i))
    {
      TableOf(mem, owner, a, i);
    }
  }

  // Growing

  /** Page w of d is a new zeroed page that was free before. */
  ghost predicate NewAt(owner: Owners, mem2: Mem, owner2: Owners, d: nat, w: nat) {
    var x := LookV(mem2, d, w);
    x.Map? && x.flags == PTE_W + PTE_U && Owns(owner, x.frame, Free) && Owns(owner2, x.frame, User(d, Pdx(w), Ptx(w))) &&
    x.frame in mem2 && mem2[x.frame] == Data(ZeroPage())
  }

  /** A page is where it was, or was free and is now a table of d or one of its pages lo up to k. */
  ghost predicate GrownAt(o: Owner, o2: Owner, d: nat, lo: nat, k: nat) {
    o2 == o || (o == Free && ((o2.Table? && o2.d == d) || InRange(o2, d, lo, k)))
  }

  ghost predicate OwnGrown(owner: Owners, owner2: Owners, d: nat, lo: nat, k: nat) {
    owner2.Keys == owner.Keys && forall p | p in owner :: GrownAt(owner[p], owner2[p], d, lo, k)
  }

  /** Pages lo up to k of d are new zeroed pages; all else is as it was. */
  ghost predicate Grown(mem: Mem, owner: Owners, mem2: Mem, owner2: Owners, d: nat, lo: nat, k: nat) {
    && SameBut(mem, mem2, owner, d, lo, k) && (forall w: nat | lo <= w < k :: NewAt(owner, mem2, owner2, d, w))
    && OwnGrown(owner, owner2, d, lo, k) && SameData(mem, mem2, owner)
  }

  lemma GrowStart(mem: Mem, owner: Owners, d: nat, lo: nat)
    ensures Grown(mem, owner, mem, owner, d, lo, lo)
  {
    hide LookV;
  }

  /** One more page: `mid` is the owner map with page u in the kernel's hands. */
  lemma GrowOne(mem: Mem, owner: Owners, mem1: Mem, owner1: Owners, mem2: Mem, owner2: Owners, d: nat, lo: nat, k: nat, u: nat)
    requires Grown(mem, owner, mem1, owner1, d, lo, k) && Owns(owner, d, Directory) && lo <= k
    requires Owns(owner1, u, Free)
    requires SameBut(mem1[u := Data(ZeroPage())], mem2, owner1[u := Kernel], d, k, k + 1)
    requires forall a: nat, i: nat, j: nat | Owns(owner1, a, Directory) :: Look(mem1[u := Data(ZeroPage())], a, i, j) == Look(mem1, a, i, j)
    requires LookV(mem2, d, k) == Map(u, PTE_W + PTE_U) && u in mem2 && mem2[u] == Data(ZeroPage())
    requires TablesOnly(owner1[u := User(d, Pdx(k), Ptx(k))], owner2, d)
    requires SameData(mem1[u := Data(ZeroPage())], mem2, owner1[u := Kernel])
    requires forall p | p in owner1 :: p in mem1
    ensures Grown(mem, owner, mem2, owner2, d, lo, k + 1)
  {
    hide Look;
    var mid := mem1[u := Data(ZeroPage())];
    forall a: nat, w: nat | Owns(owner, a, Directory) && !(a == d && lo <= w < k + 1)
      ensures LookV(mem2, a, w) == LookV(mem, a, w)
    {
      assert GrownAt(owner[a], owner1[a], d, lo, k);
      assert Owns(owner1[u := Kernel], a, Directory);
      assert LookV(mid, a, w) == LookV(mem1, a, w);
    }
    forall w: nat | lo <= w < k + 1
      ensures NewAt(owner, mem2, owner2, d, w)
    {
      GrowAt(mem, owner, mem1, owner1, mem2, owner2, d, lo, k, u, w);
    }
    forall p | p in owner
      ensures GrownAt(owner[p], owner2[p], d, lo, k + 1)
    {
      assert GrownAt(owner[p], owner1[p], d, lo, k);
    }
    forall p: nat | p in owner && owner[p].User? && p in mem
      ensures p in mem2 && mem2[p] == mem[p]
    {
      assert GrownAt(owner[p], owner1[p], d, lo, k);
      assert p in mem1 && mem1[p] == mem[p];
    }
  }

  lemma GrowAt(mem: Mem, owner: Owners, mem1: Mem, owner1: Owners, mem2: Mem, owner2: Owners, d: nat, lo: nat, k: nat, u: nat, w: nat)
    requires Grown(mem, owner, mem1, owner1, d, lo, k) && Owns(owner, d, Directory) && lo <= w <= k
    requires Owns(owner1, u, Free)
    requires SameBut(mem1[u := Data(ZeroPage())], mem2, owner1[u := Kernel], d, k, k + 1)
    requires forall a: nat, i: nat, j: nat | Owns(owner1, a, Directory) :: Look(mem1[u := Data(ZeroPage())], a, i, j) == Look(mem1, a, i, j)
    requires LookV(mem2, d, k) == Map(u, PTE_W + PTE_U) && u in mem2 && mem2[u] == Data(ZeroPage())
    requires TablesOnly(owner1[u := User(d, Pdx(k), Ptx(k))], owner2, d)
    requires SameData(mem1[u := Data(ZeroPage())], mem2, owner1[u := Kernel])
    ensures NewAt(owner, mem2, owner2, d, w)
  {
    hide Look, Pdx, Ptx;
    if w < k {
      assert NewAt(owner, mem1, owner1, d, w);
      assert GrownAt(owner[d], owner1[d], d, lo, k) && Owns(owner1[u := Kernel], d, Directory);
      assert LookV(mem1[u := Data(ZeroPage())], d, w) == LookV(mem1, d, w);
    } else {
      assert GrownAt(owner[u], owner1[u], d, lo, k);
    }
  }

  /** Taking page p into the kernel's hands along the way. */
  lemma GrownHold(mem: Mem, owner: Owners, mem1: Mem, owner1: Owners, d: nat, lo: nat, k: nat, p: nat, c: Content)
    requires Grown(mem, owner, mem1, owner1, d, lo, k) && Owns(owner1, p, Free) && Owns(owner, d, Directory)
    requires forall a: nat, i: nat, j: nat | Owns(owner1, a, Directory) :: Look(mem1[p := c], a, i, j) == Look(mem1, a, i, j)
    ensures Owns(owner, p, Free) && Grown(mem, owner[p := Kernel], mem1[p := c], owner1[p := Kernel], d, lo, k)
  {
    hide Look, Pdx, Ptx;
    assert GrownAt(owner[p], owner1[p], d, lo, k) && GrownAt(owner[d], owner1[d], d, lo, k);
    var owner0, owner2, mem2 := owner[p := Kernel], owner1[p := Kernel], mem1[p := c];
    forall a: nat, w: nat | Owns(owner0, a, Directory) && !(a == d && lo <= w < k)
      ensures LookV(mem2, a, w) == LookV(mem, a, w)
    {
      assert GrownAt(owner[a], owner1[a], d, lo, k);
      assert LookV(mem1, a, w) == LookV(mem, a, w);
    }
    forall w: nat | lo <= w < k
      ensures NewAt(owner0, mem2, owner2, d, w)
    {
      assert NewAt(owner, mem1, owner1, d, w);
    }
    forall q | q in owner
      ensures GrownAt(owner0[q], owner2[q], d, lo, k)
    {
      assert GrownAt(owner[q], owner1[q], d, lo, k);
    }
  }

  /** Growing part way and then freeing the range leaves nothing behind but tables. */
  lemma GrowUndone(mem: Mem, owner: Owners, mem1: Mem, owner1: Owners, mem2: Mem, owner2: Owners, d: nat, lo: nat, k: nat, hi: nat)
    requires PagesOk(mem, owner) && Owns(owner, d, Directory) && lo <= k <= hi
    requires forall w: nat | lo <= w < hi :: LookV(mem, d, w) == Absent
    requires Grown(mem, owner, mem1, owner1, d, lo, k) && Shrunk(mem1, owner1, mem2, owner2, d, lo, hi)
    ensures Same(mem, mem2, owner) && TablesOnly(owner, owner2, d)
  {
    forall p | p in owner
      ensures !InRange(owner[p], d, lo, hi)
    {
      if owner[p].User? && owner[p].d == d && lo <= Num(owner[p]) {
        assert PageOk(mem, owner, p);
        NumAt(owner[p]);
        assert LookV(mem, d, Num(owner[p])).Map?;
      }
    }
    GrowUndoneLook(mem, owner, mem1, owner1, mem2, owner2, d, lo, k, hi);
    hide LookV;
    forall p | p in owner
      ensures owner2[p] == owner[p] || (owner[p] == Free && owner2[p].Table? && owner2[p].d == d)
    {
      assert GrownAt(owner[p], owner1[p], d, lo, k);
    }
    forall u: nat | u in owner && owner[u].User? && u in mem
      ensures u in mem2 && mem2[u] == mem[u]
    {
      assert GrownAt(owner[u], owner1[u], d, lo, k);
    }
  }

  lemma GrowUndoneLook(mem: Mem, owner: Owners, mem1: Mem, owner1: Owners, mem2: Mem, owner2: Owners, d: nat, lo: nat, k: nat, hi: nat)
    requires lo <= k <= hi
    requires forall w: nat | lo <= w < hi :: LookV(mem, d, w) == Absent
    requires Grown(mem, owner, mem1, owner1, d, lo, k) && Shrunk(mem1, owner1, mem2, owner2, d, lo, hi)
    ensures SameBut(mem, mem2, owner, 0, 0, 0)
  {
    hide LookV;
    forall a: nat, w: nat | Owns(owner, a, Directory)
      ensures LookV(mem2, a, w) == LookV(mem, a, w)
    {
      assert GrownAt(owner[a], owner1[a], d, lo, k);
      if a != d || !(lo <= w < hi) {
        assert LookV(mem1, a, w) == LookV(mem, a, w);
      }
    }
  }

  lemma TablesRelease(owner: Owners, owner2: Owners, d: nat, p: nat)
    requires Owns(owner, p, Free) && TablesOnly(owner[p := Kernel], owner2, d)
    ensures TablesOnly(owner, owner2[p := Free], d) && Owns(owner2, p, Kernel)
  {
  }

  lemma SameRefl(mem: Mem, owner: Owners, d: nat)
    ensures Same(mem, mem, owner) && TablesOnly(owner, owner, d)
  {
  }

  lemma GrownDir(mem: Mem, owner: Owners, mem1: Mem, owner1: Owners, d: nat, lo: nat, k: nat)
    requires Grown(mem, owner, mem1, owner1, d, lo, k) && Owns(owner, d, Directory)
    ensures Owns(owner1, d, Directory)
  {
    assert GrownAt(owner[d], owner1[d], d, lo, k);
  }

  lemma GrownAbsent(mem: Mem, owner: Owners, mem1: Mem, owner1: Owners, d: nat, lo: nat, k: nat, w: nat)
    requires Grown(mem, owner, mem1, owner1, d, lo, k) && Owns(owner, d, Directory) && k <= w
    ensures LookV(mem1, d, w) == LookV(mem, d, w)
  {
    hide LookV;
  }

  /** Releasing page p after all else has been undone. */
  lemma SameThen(mem: Mem, owner: Owners, p: nat, mem1: Mem, owner1: Owners, mem2: Mem)
    requires Owns(owner, p, Free) && Same(mem, mem1, owner[p := Kernel]) && Owns(owner1, p, Kernel)
    requires forall a | Owns(owner, a, Directory) :: Owns(owner1, a, Directory)
    requires forall a: nat, i: nat, j: nat | Owns(owner1[p := Free], a, Directory) :: Look(mem2, a, i, j) == Look(mem1, a, i, j)
    requires mem2 == mem1[p := Junk]
    ensures Same(mem, mem2, owner)
  {
    hide Look;
    forall a: nat, w: nat | Owns(owner, a, Directory)
      ensures LookV(mem2, a, w) == LookV(mem, a, w)
    {
      assert Owns(owner[p := Kernel], a, Directory) && Owns(owner1[p := Free], a, Directory);
      assert LookV(mem1, a, w) == LookV(mem, a, w);
    }
  }

  // Freeing an address space

  /** The first i tables of d are free. */
  function TablesGone(owner: Owners, d: nat, i: nat): Owners {
    map p | p in owner :: if owner[p].Table? && owner[p].d == d && owner[p].i < i then Free else owner[p]
  }

  lemma TableGone(mem: Mem, owner: Owners, d: nat, i: nat)
    requires PagesOk(mem, owner) && Owns(owner, d, Directory) && i < NPTENTRIES
    ensures Ent(mem, d, i) == Absent ==> TablesGone(owner, d, i + 1) == TablesGone(owner, d, i)
    ensures Ent(mem, d, i).Map? ==>
      var t := Ent(mem, d, i).frame;
      Owns(owner, t, Table(d, i)) && TablesGone(owner, d, i + 1) == TablesGone(owner, d, i)[t := Free] && TablesGone(owner, d, i)[t] != Free
  {
    if Ent(mem, d, i).Map? {
      TableOf(mem, owner, d, i);
    }
    forall p | p in owner && owner[p] == Table(d, i)
      ensures Ent(mem, d, i).Map? && Ent(mem, d, i).frame == p
    {
      assert PageOk(mem, owner, p);
    }
  }

  lemma AllGone(mem: Mem, owner: Owners, owner1: Owners, d: nat)
    requires PagesOk(mem, owner) && Owns(owner, d, Directory) && owner1 == Cleared(owner, d, 0, SHAREPAGES)
    ensures Owns(owner1, d, Directory) && TablesGone(owner1, d, NPTENTRIES)[d] != Free
    ensures TablesGone(owner1, d, NPTENTRIES)[d := Free] == Dropped(owner, d) == Dropped(owner1, d)
  {
    forall p | p in owner
      ensures TablesGone(owner1, d, NPTENTRIES)[d := Free][p] == Dropped(owner, d)[p] == Dropped(owner1, d)[p]
    {
      assert PageOk(mem, owner, p);
    }
  }

  /** What freevm leaves of the other address spaces. */
  lemma DropSame(mem: Mem, owner: Owners, mem1: Mem, owner1: Owners, mem2: Mem, d: nat)
    requires Owns(owner, d, Directory) && Shrunk(mem, owner, mem1, owner1, d, 0, SHAREPAGES)
    requires forall a: nat, i: nat, j: nat | Owns(owner1, a, Directory) && a != d :: Look(mem2, a, i, j) == Look(mem1, a, i, j)
    requires SameData(mem1, mem2, Dropped(owner1, d)) && Dropped(owner, d) == Dropped(owner1, d)
    ensures Same(mem, mem2, Dropped(owner, d))
  {
    hide Look;
    forall a: nat, w: nat | Owns(Dropped(owner, d), a, Directory)
      ensures LookV(mem2, a, w) == LookV(mem, a, w)
    {
      assert Owns(owner, a, Directory) && Owns(owner1, a, Directory) && a != d;
      assert LookV(mem1, a, w) == LookV(mem, a, w);
    }
  }

  // A new address space

  /** owner2 differs from owner only in free pages that became part of d. */
  ghost predicate NewSpace(owner: Owners, owner2: Owners, d: nat) {
    owner2.Keys == owner.Keys && Owns(owner, d, Free) &&
    forall p | p in owner :: owner2[p] == owner[p] || (owner[p] == Free && PartOf(owner2[p], p, d))
  }

  /** Dropping a new address space gives back exactly what it took. */
  lemma DropNew(mem: Mem, owner: Owners, owner2: Owners, d: nat)
    requires PagesOk(mem, owner) && NewSpace(owner, owner2, d)
    ensures Dropped(owner2, d) == owner
  {
    forall p | p in owner
      ensures Dropped(owner2, d)[p] == owner[p]
    {
      assert PageOk(mem, owner, p);
    }
  }

  lemma NewDirectory(mem: Mem, owner: Owners, d: nat, mem2: Mem)
    requires PagesOk(mem, owner) && Owns(owner, d, Kernel) && mem2 == mem[d := Entries(NoEntries())]
    ensures PagesOk(mem2, owner[d := Directory])
    ensures Same(mem, mem2, owner)
    ensures forall w: nat :: LookV(mem2, d, w) == Absent
  {
    var owner2 := owner[d := Directory];
    LoosePage(mem, owner, d, Entries(NoEntries()), Kernel);
    assert owner[d := Kernel] == owner;
    SameLookV(mem, mem2, owner);
    forall p | p in owner2
      ensures PageOk(mem2, owner2, p)
    {
      assert PageOk(mem2, owner, p);
      if p != d {
        Promoted(mem2, owner, d, p);
      }
    }
  }

  lemma Promoted(mem: Mem, owner: Owners, d: nat, p: nat)
    requires p in owner && p != d && Owns(owner, d, Kernel) && PageOk(mem, owner, p)
    ensures PageOk(mem, owner[d := Directory], p)
  {
    var owner2 := owner[d := Directory];
    match owner[p]
    case Directory =>
      forall k: nat | k < NPTENTRIES
        ensures DirAt(mem, owner2, p, k)
      {
        assert DirAt(mem, owner, p, k);
      }
    case Table(a, k) =>
      if k < SHAREPDX {
        forall l: nat | l < NPTENTRIES
          ensures TabAt(mem, owner2, a, k, p, l)
        {
          assert TabAt(mem, owner, a, k, p, l);
        }
      }
    case _ =>
  }

  lemma NewSpaceStart(owner: Owners, d: nat)
    requires Owns(owner, d, Free)
    ensures NewSpace(owner, owner[d := Directory], d)
  {
  }

  lemma NewSpaceMore(owner: Owners, owner1: Owners, owner2: Owners, d: nat)
    requires NewSpace(owner, owner1, d) && TablesOnly(owner1, owner2, d)
    ensures NewSpace(owner, owner2, d)
  {
  }

  /** Mappings of d change while those of the address spaces before it do not. */
  lemma SameOld(mem: Mem, owner: Owners, mem1: Mem, owner1: Owners, mem2: Mem, d: nat, lo: nat, hi: nat)
    requires NewSpace(owner, owner1, d) && Same(mem, mem1, owner)
    requires SameBut(mem1, mem2, owner1, d, lo, hi) && SameData(mem1, mem2, owner1)
    requires forall p | p in owner1 :: p in mem1
    ensures Same(mem, mem2, owner)
  {
    hide LookV;
  }

  lemma ShrunkOwner(mem: Mem, owner: Owners, mem2: Mem, owner2: Owners, d: nat, lo: nat, k: nat)
    requires Shrunk(mem, owner, mem2, owner2, d, lo, k)
    ensures owner2 == Cleared(owner, d, lo, k)
  {
  }

  lemma ButMore(mem: Mem, owner: Owners, mem1: Mem, owner1: Owners, mem2: Mem, owner2: Owners, d: nat, lo: nat, k: nat)
    requires SameBut(mem, mem1, owner, d, lo, k) && SameBut(mem1, mem2, owner1, d, k, k + 1) && lo <= k
    requires TablesOnly(owner, owner1, d) && TablesOnly(owner1, owner2, d)
    requires SameData(mem, mem1, owner) && SameData(mem1, mem2, owner1) && forall p | p in owner1 :: p in mem1
    ensures SameBut(mem, mem2, owner, d, lo, k + 1) && TablesOnly(owner, owner2, d) && SameData(mem, mem2, owner)
  {
    hide LookV;
  }

  // The kernel's part of every address space

  /** A range of the kernel map: n virtual pages from v on map to frames from pa on. */
  datatype Region = Region(v: nat, n: nat, pa: nat, perm: nat)

  /** kmap; `data` is the frame where the kernel's data begin. */
  function Kmap(data: nat): seq<Region>
    requires 0x100 < data < 0xE000
  {
    [Region(0x80000, 0x100, 0, PTE_W),
     Region(0x80100, data - 0x100, 0x100, 0),
     Region(0x80000 + data, 0xE000 - data, data, PTE_W),
     Region(0xFE000, 0x2000, 0xFE000, PTE_W)]
  }

  ghost predicate RegionMapped(mem: Mem, d: nat, g: Region) {
    forall w: nat | g.v <= w < g.v + g.n :: LookV(mem, d, w) == Map(g.pa + (w - g.v), g.perm)
  }

  ghost predicate KernelMapped(mem: Mem, d: nat, kmap: seq<Region>, k: nat) {
    forall i | 0 <= i < k && i < |kmap| :: RegionMapped(mem, d, kmap[i])
  }

  /** Mapping a region above those mapped already. */
  lemma RegionMore(mem: Mem, mem2: Mem, owner: Owners, d: nat, kmap: seq<Region>, k: nat)
    requires k < |kmap| && KernelMapped(mem, d, kmap, k) && Owns(owner, d, Directory)
    requires SameBut(mem, mem2, owner, d, kmap[k].v, kmap[k].v + kmap[k].n) && RegionMapped(mem2, d, kmap[k])
    requires forall i | 0 <= i < k :: kmap[i].v + kmap[i].n <= kmap[k].v
    ensures KernelMapped(mem2, d, kmap, k + 1)
  {
    hide LookV;
    forall i | 0 <= i < k + 1
      ensures RegionMapped(mem2, d, kmap[i])
    {
      assert i < k ==> RegionMapped(mem, d, kmap[i]);
    }
  }

  /** Address space d is new, maps the kernel and nothing below it. */
  ghost predicate FreshSpace(mem: Mem, owner: Owners, mem2: Mem, owner2: Owners, d: nat) {
    NewSpace(owner, owner2, d) && Owns(owner2, d, Directory) && Same(mem, mem2, owner)
  }

  ghost predicate EmptyFrom(mem: Mem, d: nat, lo: nat, hi: nat) {
    forall w: nat | lo <= w < hi :: LookV(mem, d, w) == Absent
  }

  // Copying

  /** Page w of nd is a fresh copy of page w of d, with the same flags. */
  ghost predicate CopyAt(mem: Mem, owner: Owners, mem2: Mem, owner2: Owners, d: nat, nd: nat, w: nat) {
    var x, y := LookV(mem2, nd, w), LookV(mem, d, w);
    && x.Map? && y.Map? && x.flags == y.flags && Owns(owner, x.frame, Free) && Owns(owner2, x.frame, User(nd, Pdx(w), Ptx(w)))
    && x.frame in mem2 && y.frame in mem && mem2[x.frame] == mem[y.frame]
  }

  ghost predicate Copied(mem: Mem, owner: Owners, mem2: Mem, owner2: Owners, d: nat, nd: nat, k: nat) {
    FreshSpace(mem, owner, mem2, owner2, nd) && EmptyFrom(mem2, nd, k, KERNPAGES) &&
    forall w: nat | w < k :: CopyAt(mem, owner, mem2, owner2, d, nd, w)
  }

  /** Source page w is user memory of d, still mapped and with its contents. */
  lemma SourcePage(mem: Mem, owner: Owners, mem1: Mem, owner1: Owners, d: nat, nd: nat, w: nat)
    requires PagesOk(mem, owner) && Owns(owner, d, Directory) && FreshSpace(mem, owner, mem1, owner1, nd)
    requires w < SHAREPAGES && LookV(mem, d, w).Map? && PagesOk(mem1, owner1)
    ensures var u := LookV(mem, d, w).frame;
      LookV(mem1, d, w) == LookV(mem, d, w) && Owns(owner, u, User(d, Pdx(w), Ptx(w))) && Owns(owner1, u, User(d, Pdx(w), Ptx(w))) &&
      u in mem && u in mem1 && mem1[u] == mem[u] && mem[u].Data? && Owns(owner1, d, Directory)
  {
    RemoveUser(mem, owner, d, Pdx(w), Ptx(w));
    assert PageOk(mem, owner, LookV(mem, d, w).frame);
    hide Look;
  }

  /** One page more: page p, a copy in the kernel's hands, is mapped at k. */
  lemma CopyOne(mem: Mem, owner: Owners, mem1: Mem, owner1: Owners, mem2: Mem, owner2: Owners, d: nat, nd: nat, k: nat, p: nat, c: Content)
    requires Copied(mem, owner, mem1, owner1, d, nd, k) && k < SHAREPAGES && PagesOk(mem1, owner1)
    requires Owns(owner1, p, Free) && LookV(mem, d, k).Map? && LookV(mem, d, k).frame in mem && mem[LookV(mem, d, k).frame] == c
    requires SameBut(mem1, mem1[p := c], owner1, 0, 0, 0)
    requires SameBut(mem1[p := c], mem2, owner1[p := Kernel], nd, k, k + 1)
    requires SameData(mem1[p := c], mem2, owner1[p := Kernel])
    requires LookV(mem2, nd, k) == Map(p, LookV(mem, d, k).flags) && p in mem2 && mem2[p] == c
    requires TablesOnly(owner1[p := User(nd, Pdx(k), Ptx(k))], owner2, nd)
    requires forall q | q in owner1 :: q in mem1
    ensures Copied(mem, owner, mem2, owner2, d, nd, k + 1) && SameBut(mem1, mem2, owner1, nd, k, k + 1)
  {
    hide Pdx, Ptx, LookV;
    var mid, omid := mem1[p := c], owner1[p := Kernel];
    assert Owns(owner, p, Free) && NewSpace(owner, owner2, nd) && Owns(owner2, nd, Directory);
    forall a: nat, w: nat | Owns(owner1, a, Directory) && !(a == nd && w == k)
      ensures LookV(mem2, a, w) == LookV(mem1, a, w)
    {
      assert Owns(omid, a, Directory);
      assert LookV(mid, a, w) == LookV(mem1, a, w);
    }
    CopySame(mem, owner, mem1, owner1, mem2, nd, p, c, k);
    forall w: nat | w < k
      ensures CopyAt(mem, owner, mem2, owner2, d, nd, w)
    {
      CopyKept(mem, owner, mem1, owner1, mem2, owner2, d, nd, k, p, c, w);
    }
  }

  lemma CopyKept(mem: Mem, owner: Owners, mem1: Mem, owner1: Owners, mem2: Mem, owner2: Owners, d: nat, nd: nat, k: nat, p: nat, c: Content, w: nat)
    requires CopyAt(mem, owner, mem1, owner1, d, nd, w) && Owns(owner1, p, Free) && LookV(mem2, nd, w) == LookV(mem1, nd, w)
    requires SameData(mem1[p := c], mem2, owner1[p := Kernel])
    requires TablesOnly(owner1[p := User(nd, Pdx(k), Ptx(k))], owner2, nd)
    ensures CopyAt(mem, owner, mem2, owner2, d, nd, w)
  {
    hide Pdx, Ptx, LookV;
    var mid, omid := mem1[p := c], owner1[p := Kernel];
    var u := LookV(mem1, nd, w).frame;
    assert u != p && Owns(omid, u, User(nd, Pdx(w), Ptx(w)));
    assert u in mid && mid[u] == mem1[u];
  }

  lemma CopySame(mem: Mem, owner: Owners, mem1: Mem, owner1: Owners, mem2: Mem, nd: nat, p: nat, c: Content, k: nat)
    requires FreshSpace(mem, owner, mem1, owner1, nd) && Owns(owner1, p, Free)
    requires forall a: nat, w: nat | Owns(owner1, a, Directory) && !(a == nd && w == k) :: LookV(mem2, a, w) == LookV(mem1, a, w)
    requires SameData(mem1[p := c], mem2, owner1[p := Kernel])
    requires forall q | q in owner1 :: q in mem1
    ensures Same(mem, mem2, owner)
  {
    hide LookV;
    forall a: nat, w: nat | Owns(owner, a, Directory)
      ensures LookV(mem2, a, w) == LookV(mem, a, w)
    {
      assert a != nd && Owns(owner1, a, Directory);
    }
    forall u: nat | u in owner && owner[u].User? && u in mem
      ensures u in mem2 && mem2[u] == mem[u]
    {
      assert owner1[u] == owner[u] && u != p;
      assert mem1[p := c][u] == mem1[u];
    }
  }

  lemma KernelNone(mem: Mem, d: nat, kmap: seq<Region>)
    ensures KernelMapped(mem, d, kmap, 0)
  {
  }

  /** Mapping a user page leaves the kernel's part of an address space alone. */
  lemma KernelKept(mem: Mem, mem2: Mem, owner: Owners, d: nat, k: nat, data: nat)
    requires SameBut(mem, mem2, owner, d, k, k + 1) && Owns(owner, d, Directory) && k < SHAREPAGES
    requires 0x100 < data < 0xE000 && KernelMapped(mem, d, Kmap(data), 4)
    ensures KernelMapped(mem2, d, Kmap(data), 4)
  {
    hide LookV;
  }

  /** What kmap comes to: from 2GB on page w is frame w minus 2GB, the text and read-only data not
      writable, up to the top of physical memory; the devices are mapped to themselves; and
      none of it is accessible to the user. */
  lemma KernelLinear(mem: Mem, d: nat, data: nat)
    requires 0x100 < data < 0xE000 && KernelMapped(mem, d, Kmap(data), 4)
    ensures forall w: nat | 0x80000 <= w < 0x8E000 ::
      LookV(mem, d, w) == Map(w - 0x80000, if 0x80100 <= w < 0x80000 + data then 0 else 2)
    ensures forall w: nat | 0xFE000 <= w < 0x100000 :: LookV(mem, d, w) == Map(w, 2)
  {
    hide LookV;
    var kmap := Kmap(data);
    assert RegionMapped(mem, d, kmap[0]) && RegionMapped(mem, d, kmap[1]) && RegionMapped(mem, d, kmap[2]) && RegionMapped(mem, d, kmap[3]);
  }

  predicate HasFlag(flags: nat, bit: nat)
    requires bit > 0
  {
    flags / bit % 2 == 1
  }

  /** The processor allows an access when both levels do. */
  predicate Allows(mem: Mem, d: nat, v: nat, bit: nat)
    requires bit > 0
  {
    var pde := Ent(mem, d, Pdx(v));
    pde.Map? && HasFlag(pde.flags, bit) && Ent(mem, pde.frame, Ptx(v)).Map? && HasFlag(Ent(mem, pde.frame, Ptx(v)).flags, bit)
  }

  /** Directory entries never take anything away: the flags of the page decide, for writing (2)
      and for user access (4). */
  lemma PageDecides(mem: Mem, owner: Owners, d: nat, v: nat)
    requires PagesOk(mem, owner) && Owns(owner, d, Directory)
    ensures forall bit: nat | bit == 2 || bit == 4 ::
      Allows(mem, d, v, bit) <==> LookV(mem, d, v).Map? && HasFlag(LookV(mem, d, v).flags, bit)
    ensures LookV(mem, d, v).Map? && LookV(mem, d, v).flags < 8 ==>
      && (Allows(mem, d, v, 2) <==> LookV(mem, d, v).flags in {2, 3, 6, 7})
      && (Allows(mem, d, v, 4) <==> LookV(mem, d, v).flags >= 4)
  {
    assert PageOk(mem, owner, d);
    if Ent(mem, d, Pdx(v)).Map? { assert DirAt(mem, owner, d, Pdx(v)); }
  }

  lemma KernelThere(mem: Mem, d: nat, data: nat)
    requires 0x100 < data < 0xE000 && KernelMapped(mem, d, Kmap(data), 4)
    ensures LookV(mem, d, KERNPAGES).Map?
  {
    hide LookV;
    assert Kmap(data)[0].v == KERNPAGES;
  }

  lemma SameTwice(mem: Mem, mem1: Mem, mem2: Mem, owner: Owners)
    requires Same(mem, mem1, owner) && Same(mem1, mem2, owner)
    ensures Same(mem, mem2, owner)
  {
    hide LookV;
  }

  lemma CopiedFresh(mem: Mem, owner: Owners, mem1: Mem, owner1: Owners, d: nat, nd: nat, k: nat)
    requires Copied(mem, owner, mem1, owner1, d, nd, k)
    ensures FreshSpace(mem, owner, mem1, owner1, nd)
  {
  }

  lemma CopiedDir(mem: Mem, owner: Owners, mem1: Mem, owner1: Owners, nd: nat, p: nat)
    requires FreshSpace(mem, owner, mem1, owner1, nd) && Owns(owner1, p, Free)
    ensures Owns(owner1[p := Kernel], nd, Directory)
  {
  }

  lemma CopiedEmpty(mem: Mem, owner: Owners, mem1: Mem, owner1: Owners, mem2: Mem, d: nat, nd: nat, k: nat)
    requires Copied(mem, owner, mem1, owner1, d, nd, k) && k < SHAREPAGES && SameBut(mem1, mem2, owner1, 0, 0, 0)
    ensures LookV(mem2, nd, k) == Absent
  {
    hide LookV;
    assert LookV(mem1, nd, k) == Absent;
  }

  /** Giving page p back before it was mapped. */
  lemma ReleaseFresh(mem: Mem, owner: Owners, mem1: Mem, owner1: Owners, nd: nat, p: nat, c: Content, mem2: Mem)
    requires FreshSpace(mem, owner, mem1, owner1, nd) && Owns(owner1, p, Free) && mem2 == mem1[p := c][p := Junk]
    requires SameBut(mem1, mem1[p := c], owner1, 0, 0, 0)
    requires forall a: nat, i: nat, j: nat | Owns(owner1, a, Directory) :: Look(mem2, a, i, j) == Look(mem1[p := c], a, i, j)
    ensures FreshSpace(mem, owner, mem2, owner1[p := Kernel][p := Free], nd)
  {
    hide Look;
    assert owner1[p := Kernel][p := Free] == owner1;
    forall a: nat, w: nat | Owns(owner, a, Directory)
      ensures LookV(mem2, a, w) == LookV(mem, a, w)
    {
      assert Owns(owner1, a, Directory);
      assert LookV(mem1[p := c], a, w) == LookV(mem1, a, w);
    }
  }
}
