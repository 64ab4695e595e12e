/**
 The buffer cache (kernel/bio.c): a doubly linked ring of buffers in order of last release.
 */
module Bio {

  class Buf {
    var valid: bool
    var dirty: bool
    var dev: nat
    var blockno: nat
    var refcnt: nat
    var prev: Buf
    var next: Buf
    /** The holder of the sleep lock, 0 for none. */
    var holder: nat
    var data: int
    /** When the buffer was last released. */
    ghost var stamp: int

    constructor ()
      ensures !valid && !dirty && dev == 0 && blockno == 0 && refcnt == 0 && holder == 0 && prev == this && next == this
    {
      valid, dirty, dev, blockno, refcnt, holder, data := false, false, 0, 0, 0, 0, 0;
      prev, next := this, this;
    }
  }

  // The ring

  ghost function At(head: Buf, order: seq<Buf>, i: int): Buf {
    if 0 <= i < |order| then order[i] else head
  }

  ghost predicate LinkedAt(head: Buf, order: seq<Buf>, i: int)
    reads head`next, head`prev, order`next, order`prev
  {
    At(head, order, i).next == At(head, order, i + 1) && At(head, order, i + 1).prev == At(head, order, i)
  }

  ghost predicate Distinct(head: Buf, order: seq<Buf>) {
    head !in order && forall i, j | 0 <= i < j < |order| :: order[i] != order[j]
  }

  /** One circle through head and the buffers in order, consistent in both directions. */
  ghost predicate Linked(head: Buf, order: seq<Buf>)
    reads head`next, head`prev, order`next, order`prev
  {
    Distinct(head, order) && forall i | -1 <= i < |order| :: LinkedAt(head, order, i)
  }

  /** Links b, which is in no ring, at the front. */
  method PushFront(head: Buf, b: Buf, ghost order: seq<Buf>)
    requires Linked(head, order) && b != head && b !in order
    modifies head`next, head`prev, b`next, b`prev, order`next, order`prev
    ensures Linked(head, [b] + order)
  {
    assert LinkedAt(head, order, -1);
    b.next := head.next;
    b.prev := head;
    head.next.prev := b;
    head.next := b;
    ghost var w := [b] + order;
    forall i | -1 <= i < |w| ensures LinkedAt(head, w, i) {
      if i > 0 { assert old(LinkedAt(head, order, i - 1)); }
    }
  }

  /** Takes the buffer at position k out of the ring. */
  method Unlink(head: Buf, b: Buf, ghost order: seq<Buf>, ghost k: nat)
    requires Linked(head, order) && k < |order| && b == order[k]
    modifies head`next, head`prev, order`next, order`prev
    ensures Linked(head, order[..k] + order[k + 1..])
  {
    assert LinkedAt(head, order, k) && LinkedAt(head, order, k - 1);
    b.next.prev := b.prev;
    b.prev.next := b.next;
    ghost var w := order[..k] + order[k + 1..];
    forall i | -1 <= i < |w| ensures LinkedAt(head, w, i) {
      assert old(LinkedAt(head, order, if i < k then i else i + 1));
    }
  }

  /** Moves the buffer at position k to the front. */
  method Relink(head: Buf, b: Buf, ghost order: seq<Buf>, ghost k: nat)
    requires Linked(head, order) && k < |order| && b == order[k]
    modifies head`next, head`prev, order`next, order`prev
    ensures Linked(head, [b] + Without(order, k))
  {
    NotIn(head, order, k);
    Unlink(head, b, order, k);
    PushFront(head, b, Without(order, k));
  }

  // What the cache keeps, as predicates of a list of buffers

  ghost predicate Same(b: Buf, c: Buf)
    reads b`dev, b`blockno, c`dev, c`blockno
  {
    b.dev == c.dev && b.blockno == c.blockno
  }

  /** No block of a real device is cached twice. */
  ghost predicate Unique(order: seq<Buf>)
    reads order`dev, order`blockno
  {
    forall i, j | 0 <= i < j < |order| :: order[i].dev != 0 ==> !Same(order[i], order[j])
  }

  ghost predicate Newer(b: Buf, c: Buf)
    reads b`refcnt, b`stamp, c`refcnt, c`stamp
  {
    b.refcnt == 0 && c.refcnt == 0 ==> b.stamp > c.stamp
  }

  /** Unreferenced buffers are in the order of their last release, newest first. */
  ghost predicate Lru(order: seq<Buf>, clock: int)
    reads order`refcnt, order`stamp
  {
    && (forall i | 0 <= i < |order| :: order[i].stamp <= clock)
    && (forall i, j | 0 <= i < j < |order| :: Newer(order[i], order[j]))
  }

  type Disk = map<(nat, nat), int>

  function OnDisk(disk: Disk, dev: nat, blockno: nat): int {
    if (dev, blockno) in disk then disk[(dev, blockno)] else 0
  }

  /** Only referenced buffers are held, and a buffer nobody holds is invalid or shows what the
      uncached block map `blocks` would. */
  ghost predicate Coherent(blocks: Disk, b: Buf)
    reads b`holder, b`refcnt, b`valid, b`dirty, b`data, b`dev, b`blockno
  {
    && (b.holder != 0 ==> b.refcnt > 0)
    && (b.dirty ==> b.valid)
    && (b.holder == 0 && b.valid ==> b.data == OnDisk(blocks, b.dev, b.blockno))
  }

  ghost predicate AllCoherent(blocks: Disk, order: seq<Buf>)
    reads order`holder, order`refcnt, order`valid, order`dirty, order`data, order`dev, order`blockno
  {
    forall i | 0 <= i < |order| :: Coherent(blocks, order[i])
  }

  /** Some buffer of this block must not be dropped. */
  ghost predicate Pinned(order: seq<Buf>, dev: nat, blockno: nat)
    reads order`dirty, order`dev, order`blockno
  {
    exists i :: 0 <= i < |order| && order[i].dirty && order[i].dev == dev && order[i].blockno == blockno
  }

  /** The disk agrees with the block map except on pinned blocks. */
  ghost predicate Settled(disk: Disk, blocks: Disk, order: seq<Buf>)
    reads order`dirty, order`dev, order`blockno
  {
    forall dev, blockno :: !Pinned(order, dev, blockno) ==> OnDisk(disk, dev, blockno) == OnDisk(blocks, dev, blockno)
  }

  function Without<T>(s: seq<T>, k: nat): seq<T>
    requires k < |s|
  {
    s[..k] + s[k + 1..]
  }

  lemma UniqueSplit(order: seq<Buf>, k: nat)
    requires Unique(order) && k < |order|
    ensures Unique(Without(order, k))
    ensures forall i | 0 <= i < |order| && i != k && order[k].dev != 0 :: !Same(order[k], order[i])
  {
    var w := Without(order, k);
    assert forall i | 0 <= i < |w| :: w[i] == order[if i < k then i else i + 1];
  }

  lemma UniqueCons(b: Buf, rest: seq<Buf>)
    requires Unique(rest) && (b.dev != 0 ==> forall i | 0 <= i < |rest| :: !Same(b, rest[i]))
    ensures Unique([b] + rest)
  {
    var w := [b] + rest;
    assert w[0] == b && forall i | 0 < i < |w| :: w[i] == rest[i - 1];
  }

  lemma LruSplit(order: seq<Buf>, clock: int, k: nat)
    requires Lru(order, clock) && k < |order|
    ensures Lru(Without(order, k), clock)
  {
    var w := Without(order, k);
    assert forall i | 0 <= i < |w| :: w[i] == order[if i < k then i else i + 1];
  }

  lemma LruCons(b: Buf, rest: seq<Buf>, clock: int)
    requires Lru(rest, clock) && b.stamp == clock + 1
    ensures Lru([b] + rest, clock + 1)
  {
    var w := [b] + rest;
    assert w[0] == b && forall i | 0 < i < |w| :: w[i] == rest[i - 1];
  }

  lemma CoherentSplit(blocks: Disk, order: seq<Buf>, k: nat)
    requires AllCoherent(blocks, order) && k < |order|
    ensures AllCoherent(blocks, Without(order, k)) && Coherent(blocks, order[k])
  {
    var w := Without(order, k);
    assert forall i | 0 <= i < |w| :: w[i] == order[if i < k then i else i + 1];
  }

  lemma CoherentCons(blocks: Disk, b: Buf, rest: seq<Buf>)
    requires AllCoherent(blocks, rest) && Coherent(blocks, b)
    ensures AllCoherent(blocks, [b] + rest)
  {
    var w := [b] + rest;
    assert w[0] == b && forall i | 0 < i < |w| :: w[i] == rest[i - 1];
  }

  lemma UniqueJoin(order: seq<Buf>, k: nat)
    requires k < |order| && Unique(Without(order, k))
    requires order[k].dev != 0 ==> forall i | 0 <= i < |order| && i != k :: !Same(order[i], order[k])
    ensures Unique(order)
  {
    var w := Without(order, k);
    assert forall i | 0 <= i < |order| && i != k :: order[i] == w[if i < k then i else i - 1];
  }

  lemma LruJoin(order: seq<Buf>, clock: int, k: nat)
    requires k < |order| && Lru(Without(order, k), clock) && order[k].refcnt > 0 && order[k].stamp <= clock
    ensures Lru(order, clock)
  {
    var w := Without(order, k);
    assert forall i | 0 <= i < |order| && i != k :: order[i] == w[if i < k then i else i - 1];
  }

  lemma CoherentJoin(blocks: Disk, order: seq<Buf>, k: nat)
    requires k < |order| && AllCoherent(blocks, Without(order, k)) && Coherent(blocks, order[k])
    ensures AllCoherent(blocks, order)
  {
    var w := Without(order, k);
    assert forall i | 0 <= i < |order| && i != k :: order[i] == w[if i < k then i else i - 1];
  }

  lemma NotIn(head: Buf, order: seq<Buf>, k: nat)
    requires Distinct(head, order) && k < |order|
    ensures order[k] !in Without(order, k) && head !in Without(order, k) && order[k] != head
  {
  }

  lemma SettledCons(disk: Disk, blocks: Disk, b: Buf, rest: seq<Buf>)
    requires Settled(disk, blocks, rest)
    ensures Settled(disk, blocks, [b] + rest)
  {
    var w := [b] + rest;
    forall dev: nat, blockno: nat | Pinned(rest, dev, blockno) ensures Pinned(w, dev, blockno) {
      var i :| 0 <= i < |rest| && rest[i].dirty && rest[i].dev == dev && rest[i].blockno == blockno;
      assert w[i + 1] == rest[i];
    }
  }

  lemma SettledSplit(disk: Disk, blocks: Disk, order: seq<Buf>, k: nat)
    requires Settled(disk, blocks, order) && k < |order| && !order[k].dirty
    ensures Settled(disk, blocks, Without(order, k))
  {
    var w := Without(order, k);
    forall dev: nat, blockno: nat | Pinned(order, dev, blockno) ensures Pinned(w, dev, blockno) {
      var i :| 0 <= i < |order| && order[i].dirty && order[i].dev == dev && order[i].blockno == blockno;
      assert w[if i < k then i else i - 1] == order[i];
    }
  }

  lemma SettledJoin(disk: Disk, blocks: Disk, order: seq<Buf>, k: nat)
    requires k < |order| && Settled(disk, blocks, Without(order, k))
    ensures Settled(disk, blocks, order)
  {
    var w := Without(order, k);
    forall dev: nat, blockno: nat | Pinned(w, dev, blockno) ensures Pinned(order, dev, blockno) {
      var i :| 0 <= i < |w| && w[i].dirty && w[i].dev == dev && w[i].blockno == blockno;
      assert order[if i < k then i else i + 1] == w[i];
    }
  }

  lemma Ring(head: Buf, order: seq<Buf>)
    requires Linked(head, order)
    ensures Distinct(head, order)
  {
  }

  lemma StampBound(order: seq<Buf>, clock: int, k: nat)
    requires Lru(order, clock) && k < |order|
    ensures order[k].stamp <= clock
  {
  }

  /** Scanning from the back finds the least recently released candidate. */
  lemma LruVictim(order: seq<Buf>, clock: int, k: nat)
    requires Lru(order, clock) && k < |order| && order[k].refcnt == 0
    requires forall i | k < i < |order| :: order[i].refcnt != 0 || order[i].dirty
    ensures forall c | c in order && c.refcnt == 0 && !c.dirty :: order[k].stamp <= c.stamp
  {
    forall c | c in order && c.refcnt == 0 && !c.dirty ensures order[k].stamp <= c.stamp {
      var i :| 0 <= i < |order| && order[i] == c;
      if i < k { assert Newer(order[i], order[k]); }
    }
  }

  /** The only buffer of its block is clean, so the disk shows the block map. */
  lemma CleanIsSettled(disk: Disk, blocks: Disk, order: seq<Buf>, k: nat)
    requires Settled(disk, blocks, order) && Unique(order) && k < |order| && order[k].dev != 0 && !order[k].dirty
    ensures OnDisk(disk, order[k].dev, order[k].blockno) == OnDisk(blocks, order[k].dev, order[k].blockno)
  {
    forall i | 0 <= i < |order| && order[i].dirty ensures !Same(order[i], order[k]) {
      if i < k { assert order[i].dev != 0 ==> !Same(order[i], order[k]); }
      if k < i { assert !Same(order[k], order[i]); }
    }
  }

  /** Changing one block of the map concerns only the buffer of that block. */
  lemma CoherentUpdate(blocks: Disk, order: seq<Buf>, k: nat, x: int)
    requires k < |order| && order[k].dev != 0 && AllCoherent(blocks, Without(order, k)) && Unique(order)
    ensures AllCoherent(blocks[(order[k].dev, order[k].blockno) := x], Without(order, k))
  {
    var w, id := Without(order, k), (order[k].dev, order[k].blockno);
    forall i | 0 <= i < |w| ensures Coherent(blocks[id := x], w[i]) {
      var j := if i < k then i else i + 1;
      assert w[i] == order[j] && Coherent(blocks, w[i]);
      if j < k { assert order[j].dev != 0 ==> !Same(order[j], order[k]); } else { assert !Same(order[k], order[j]); }
    }
  }

  /** Disk and block map agree, except on pinned blocks and perhaps on this one. */
  ghost predicate SettledBut(disk: Disk, blocks: Disk, rest: seq<Buf>, dev0: nat, blockno0: nat)
    reads rest`dirty, rest`dev, rest`blockno
  {
    forall dev, blockno :: !(dev == dev0 && blockno == blockno0) && !Pinned(rest, dev, blockno) ==>
      OnDisk(disk, dev, blockno) == OnDisk(blocks, dev, blockno)
  }

  lemma SettledOpen(disk: Disk, blocks: Disk, order: seq<Buf>, k: nat)
    requires Settled(disk, blocks, order) && k < |order|
    ensures SettledBut(disk, blocks, Without(order, k), order[k].dev, order[k].blockno)
  {
    var w := Without(order, k);
    forall dev: nat, blockno: nat | Pinned(order, dev, blockno) && !(dev == order[k].dev && blockno == order[k].blockno)
      ensures Pinned(w, dev, blockno)
    {
      var i :| 0 <= i < |order| && order[i].dirty && order[i].dev == dev && order[i].blockno == blockno;
      assert w[if i < k then i else i - 1] == order[i];
    }
  }

  lemma SettledChange(disk: Disk, blocks: Disk, disk': Disk, blocks': Disk, rest: seq<Buf>, dev: nat, blockno: nat, x: int)
    requires SettledBut(disk, blocks, rest, dev, blockno)
    requires (disk' == disk || disk' == disk[(dev, blockno) := x]) && (blocks' == blocks || blocks' == blocks[(dev, blockno) := x])
    ensures SettledBut(disk', blocks', rest, dev, blockno)
  {
  }

  lemma SettledClose(disk: Disk, blocks: Disk, order: seq<Buf>, k: nat)
    requires k < |order| && SettledBut(disk, blocks, Without(order, k), order[k].dev, order[k].blockno)
    requires order[k].dirty || OnDisk(disk, order[k].dev, order[k].blockno) == OnDisk(blocks, order[k].dev, order[k].blockno)
    ensures Settled(disk, blocks, order)
  {
    var w := Without(order, k);
    if order[k].dirty { assert Pinned(order, order[k].dev, order[k].blockno); }
    forall dev: nat, blockno: nat | Pinned(w, dev, blockno) ensures Pinned(order, dev, blockno) {
      var i :| 0 <= i < |w| && w[i].dirty && w[i].dev == dev && w[i].blockno == blockno;
      assert order[if i < k then i else i + 1] == w[i];
    }
  }

  /** A cached block that nobody holds shows the block map. */
  lemma CachedAgrees(blocks: Disk, order: seq<Buf>, dev: nat, blockno: nat)
    requires AllCoherent(blocks, order)
    ensures forall i | 0 <= i < |order| && order[i].dev == dev && order[i].blockno == blockno && order[i].holder == 0 && order[i].valid ::
              order[i].data == OnDisk(blocks, dev, blockno)
  {
    assert forall i | 0 <= i < |order| :: Coherent(blocks, order[i]);
  }

  lemma SettledMoves(disk: Disk, blocks: Disk, order: seq<Buf>, k: nat)
    requires Settled(disk, blocks, order) && k < |order|
    ensures Settled(disk, blocks, [order[k]] + Without(order, k))
  {
    var w := [order[k]] + Without(order, k);
    forall dev: nat, blockno: nat | Pinned(order, dev, blockno) ensures Pinned(w, dev, blockno) {
      var i :| 0 <= i < |order| && order[i].dirty && order[i].dev == dev && order[i].blockno == blockno;
      assert w[if i == k then 0 else if i < k then i + 1 else i] == order[i];
    }
  }

  lemma SplitDiffer(order: seq<Buf>, k: nat)
    requires Unique(order) && k < |order|
    ensures order[k].dev != 0 ==> forall i | 0 <= i < |Without(order, k)| :: !Same(order[k], Without(order, k)[i])
  {
    UniqueSplit(order, k);
    var w := Without(order, k);
    assert forall i | 0 <= i < |w| :: w[i] == order[if i < k then i else i + 1];
  }

  lemma Oldest(rest: seq<Buf>, clock: int)
    requires Lru(rest, clock)
    ensures forall c | c in rest :: c.stamp <= clock
  {
  }

  class Bcache {
    const head: Buf
    var disk: Disk
    /** The block map that the cache stands for. */
    ghost var blocks: Disk
    ghost var order: seq<Buf>
    ghost var clock: int

    ghost predicate Valid()
      reads this, head, order
    {
      Linked(head, order) && Unique(order) && Lru(order, clock) && AllCoherent(blocks, order) && Settled(disk, blocks, order)
    }

    constructor Binit(nbuf: nat, disk: Disk)
      ensures Valid() && |order| == nbuf && this.disk == blocks == disk
      ensures fresh(head) && fresh(order)
    {
      this.disk, blocks := disk, disk;
      head := new Buf();
      order, clock := [], 0;
      new;
      var n := 0;
      while n < nbuf
        invariant 0 <= n <= nbuf && |order| == n && Valid() && this.disk == blocks == disk
        invariant fresh(head) && fresh(order)
      {
        AddBuffer();
        n := n + 1;
      }
    }

    /** One round of binit. */
    method AddBuffer()
      requires Valid()
      modifies this`order, this`clock, head`next, head`prev, order`next, order`prev
      ensures Valid() && |order| == |old(order)| + 1 && fresh(order[0]) && order[1..] == old(order)
    {
      hide Linked, Unique, Lru, AllCoherent, Settled;
      var b := new Buf();
      b.stamp := clock + 1;
      PushFront(head, b, order);
      UniqueCons(b, order);
      LruCons(b, order, clock);
      CoherentCons(blocks, b, order);
      SettledCons(disk, blocks, b, order);
      order, clock := [b] + order, clock + 1;
    }

    /** bget's first loop: the first buffer of the block from the front, or head. */
    method Lookup(dev: nat, blockno: nat) returns (b: Buf, ghost k: nat)
      requires Linked(head, order)
      ensures k <= |order| && b == At(head, order, k)
      ensures k < |order| ==> b.dev == dev && b.blockno == blockno
      ensures forall i | 0 <= i < k :: !(order[i].dev == dev && order[i].blockno == blockno)
    {
      k := 0;
      assert LinkedAt(head, order, -1);
      b := head.next;
      while b != head
        invariant k <= |order| && b == At(head, order, k)
        invariant forall i | 0 <= i < k :: !(order[i].dev == dev && order[i].blockno == blockno)
        decreases |order| - k
      {
        if b.dev == dev && b.blockno == blockno { return; }
        assert LinkedAt(head, order, k);
        b := b.next;
        k := k + 1;
      }
    }

    /** bget's second loop: the last buffer from the back that may be recycled, or head. */
    method Victim() returns (b: Buf, ghost k: int)
      requires Linked(head, order)
      ensures -1 <= k < |order| && b == At(head, order, k)
      ensures k >= 0 ==> b.refcnt == 0 && !b.dirty
      ensures forall i | k < i < |order| :: order[i].refcnt != 0 || order[i].dirty
    {
      k := |order| - 1;
      assert LinkedAt(head, order, |order| - 1);
      b := head.prev;
      while b != head
        invariant -1 <= k < |order| && b == At(head, order, k)
        invariant forall i | k < i < |order| :: order[i].refcnt != 0 || order[i].dirty
        decreases k
      {
        if b.refcnt == 0 && !b.dirty { return; }
        assert LinkedAt(head, order, k - 1);
        b := b.prev;
        k := k - 1;
      }
    }

    /** bget: a locked buffer for the block.  On a miss the least recently released clean buffer
        is recycled; ok is false for the panic "no buffers". */
    method Bget(pid: nat, dev: nat, blockno: nat) returns (b: Buf, ok: bool)
      requires Valid() && dev != 0 && pid != 0
      requires forall i | 0 <= i < |order| && order[i].dev == dev && order[i].blockno == blockno :: order[i].holder == 0
      modifies order`refcnt, order`holder, order`dev, order`blockno, order`valid, order`dirty
      ensures Valid()
      ensures ok <==> exists i :: 0 <= i < |order| && old((order[i].dev == dev && order[i].blockno == blockno) || (order[i].refcnt == 0 && !order[i].dirty))
      ensures ok ==> b in order && b.dev == dev && b.blockno == blockno && b.holder == pid && b.refcnt == old(b.refcnt) + 1
      ensures ok ==> forall c | c in order && c != b :: Untouched(c)
      ensures !ok ==> forall c | c in order :: Untouched(c)
      ensures ok && old(b.dev == dev && b.blockno == blockno) ==> b.valid == old(b.valid) && b.dirty == old(b.dirty)
      ensures ok && old(!(b.dev == dev && b.blockno == blockno)) ==>
        !b.valid && !b.dirty && old(b.refcnt == 0 && !b.dirty) &&
        forall c | c in order && old(c.refcnt == 0 && !c.dirty) :: b.stamp <= c.stamp
    {
      hide Linked, Unique, Lru, AllCoherent, Settled;
      ghost var k;
      b, k := Lookup(dev, blockno);
      Ring(head, order);
      if b != head {
        Hit(b, k, pid);
        return b, true;
      }
      ghost var j;
      b, j := Victim();
      if b == head { return b, false; }
      LruVictim(order, clock, j);
      Recycle(b, j, pid, dev, blockno);
      ok := true;
    }

    twostate predicate Untouched(c: Buf)
      reads c
    {
      c.refcnt == old(c.refcnt) && c.holder == old(c.holder) && c.dev == old(c.dev) && c.blockno == old(c.blockno) &&
      c.valid == old(c.valid) && c.dirty == old(c.dirty)
    }

    /** The block is cached: take a reference and the lock. */
    method Hit(b: Buf, ghost k: nat, pid: nat)
      requires Valid() && k < |order| && b == order[k] && b.holder == 0 && pid != 0
      modifies b`refcnt, b`holder
      ensures Valid() && b.refcnt == old(b.refcnt) + 1 && b.holder == pid
    {
      hide Linked, Unique, Lru, AllCoherent, Settled;
      Ring(head, order);
      NotIn(head, order, k);
      LruSplit(order, clock, k);
      CoherentSplit(blocks, order, k);
      ghost var rest := Without(order, k);
      StampBound(order, clock, k);
      b.refcnt := b.refcnt + 1;
      b.holder := pid;
      LruJoin(order, clock, k);
      CoherentJoin(blocks, order, k);
    }

    /** The block is not cached: give the clean unreferenced buffer b a new identity. */
    method Recycle(b: Buf, ghost k: nat, pid: nat, dev: nat, blockno: nat)
      requires Valid() && k < |order| && b == order[k] && b.refcnt == 0 && !b.dirty && pid != 0
      requires forall i | 0 <= i < |order| :: !(order[i].dev == dev && order[i].blockno == blockno)
      modifies b`refcnt, b`holder, b`dev, b`blockno, b`valid, b`dirty
      ensures Valid() && b.refcnt == 1 && b.holder == pid && b.dev == dev && b.blockno == blockno && !b.valid && !b.dirty
    {
      hide Linked, Unique, Lru, AllCoherent, Settled;
      Ring(head, order);
      NotIn(head, order, k);
      UniqueSplit(order, k);
      LruSplit(order, clock, k);
      CoherentSplit(blocks, order, k);
      SettledSplit(disk, blocks, order, k);
      StampBound(order, clock, k);
      ghost var rest := Without(order, k);
      b.dev := dev;
      b.blockno := blockno;
      b.valid, b.dirty := false, false;
      b.refcnt := 1;
      b.holder := pid;
      UniqueJoin(order, k);
      LruJoin(order, clock, k);
      CoherentJoin(blocks, order, k);
      SettledJoin(disk, blocks, order, k);
    }

    /** iderw, as the in-memory disk does it. */
    method Iderw(b: Buf, ghost k: nat)
      requires k < |order| && b == order[k] && b.dev != 0 && b.holder != 0 && b.refcnt > 0 && (!b.valid || b.dirty)
      requires Linked(head, order) && Unique(order) && Lru(order, clock)
      requires AllCoherent(blocks, Without(order, k)) && Settled(disk, blocks, order)
      requires b.dirty ==> b.data == OnDisk(blocks, b.dev, b.blockno)
      modifies this`disk, b`data, b`valid, b`dirty
      ensures Valid() && b.valid && !b.dirty && b.data == OnDisk(blocks, b.dev, b.blockno) == OnDisk(disk, b.dev, b.blockno)
      ensures disk == if old(b.dirty) then old(disk)[(b.dev, b.blockno) := b.data] else old(disk)
    {
      hide Linked, Unique, Lru, AllCoherent, Settled;
      Ring(head, order);
      NotIn(head, order, k);
      ghost var rest := Without(order, k);
      SettledOpen(disk, blocks, order, k);
      if b.dirty {
        SettledChange(disk, blocks, disk[(b.dev, b.blockno) := b.data], blocks, rest, b.dev, b.blockno, b.data);
        b.dirty := false;
        disk := disk[(b.dev, b.blockno) := b.data];
      } else {
        CleanIsSettled(disk, blocks, order, k);
        b.data := OnDisk(disk, b.dev, b.blockno);
      }
      b.valid := true;
      CoherentJoin(blocks, order, k);
      SettledClose(disk, blocks, order, k);
    }

    /** bread: the contents of the block, whether cached, recycled or read. */
    method Bread(pid: nat, dev: nat, blockno: nat) returns (b: Buf, ok: bool)
      requires Valid() && dev != 0 && pid != 0
      requires forall i | 0 <= i < |order| && order[i].dev == dev && order[i].blockno == blockno :: order[i].holder == 0
      modifies this`disk, order`refcnt, order`holder, order`dev, order`blockno, order`valid, order`dirty, order`data
      ensures Valid() && disk == old(disk)
      ensures ok <==> exists i :: 0 <= i < |order| && old((order[i].dev == dev && order[i].blockno == blockno) || (order[i].refcnt == 0 && !order[i].dirty))
      ensures ok ==> b in order && b.dev == dev && b.blockno == blockno && b.holder == pid && b.valid
      ensures ok ==> b.data == OnDisk(blocks, dev, blockno)
      ensures ok ==> b.refcnt == old(b.refcnt) + 1 && b.dirty == old(b.dev == dev && b.blockno == blockno && b.dirty)
      ensures ok && old(!(b.dev == dev && b.blockno == blockno)) ==>
        old(b.refcnt == 0 && !b.dirty) && forall c | c in order && old(c.refcnt == 0 && !c.dirty) :: b.stamp <= c.stamp
      ensures ok ==> forall c | c in order && c != b :: Untouched(c) && c.data == old(c.data)
      ensures !ok ==> forall c | c in order :: Untouched(c) && c.data == old(c.data)
    {
      hide Linked, Unique, Lru, AllCoherent, Settled;
      CachedAgrees(blocks, order, dev, blockno);
      b, ok := Bget(pid, dev, blockno);
      if ok && !b.valid {
        ghost var k :| 0 <= k < |order| && order[k] == b;
        CoherentSplit(blocks, order, k);
        Iderw(b, k);
      }
    }

    /** bwrite: the block map and the disk take the buffer's contents. */
    method Bwrite(pid: nat, b: Buf) returns (ok: bool)
      requires Valid() && b in order && b.dev != 0 && pid != 0
      modifies this`disk, this`blocks, b`data, b`valid, b`dirty
      ensures Valid() && ok == old(b.holder == pid)
      ensures ok ==> blocks == old(blocks)[(b.dev, b.blockno) := b.data] && disk == old(disk)[(b.dev, b.blockno) := b.data]
      ensures ok ==> b.data == old(b.data) && b.valid && !b.dirty
      ensures !ok ==> blocks == old(blocks) && disk == old(disk) && Untouched(b) && b.data == old(b.data)
    {
      hide Linked, Unique, Lru, AllCoherent, Settled;
      if b.holder != pid { return false; }
      Publish(b);
      ghost var k :| 0 <= k < |order| && order[k] == b;
      CoherentSplit(blocks, order, k);
      Iderw(b, k);
      ok := true;
    }

    /** Marks a held buffer dirty, as log_write does: the block map takes its contents and the
        buffer is pinned until it is written. */
    method Publish(b: Buf)
      requires Valid() && b in order && b.dev != 0 && b.holder != 0
      modifies this`blocks, b`valid, b`dirty
      ensures Valid() && b.valid && b.dirty && blocks == old(blocks)[(b.dev, b.blockno) := b.data]
    {
      hide Linked, Unique, Lru, AllCoherent, Settled;
      Ring(head, order);
      ghost var k :| 0 <= k < |order| && order[k] == b;
      NotIn(head, order, k);
      CoherentSplit(blocks, order, k);
      CoherentUpdate(blocks, order, k, b.data);
      ghost var rest := Without(order, k);
      SettledOpen(disk, blocks, order, k);
      SettledChange(disk, blocks, disk, blocks[(b.dev, b.blockno) := b.data], rest, b.dev, b.blockno, b.data);
      blocks := blocks[(b.dev, b.blockno) := b.data];
      b.dirty, b.valid := true, true;
      CoherentJoin(blocks, order, k);
      SettledClose(disk, blocks, order, k);
    }

    /** brelse: unlocks the buffer and, when nobody else refers to it, moves it to the front. */
    method Brelse(pid: nat, b: Buf, ghost k: nat) returns (ok: bool)
      requires Valid() && k < |order| && b == order[k] && pid != 0
      requires b.valid && b.data == OnDisk(blocks, b.dev, b.blockno)
      modifies this`order, this`clock, b`holder, b`refcnt, b`stamp, head`next, head`prev, order`next, order`prev
      ensures Valid() && ok == old(b.holder == pid)
      ensures !ok ==> order == old(order) && b.refcnt == old(b.refcnt) && b.holder == old(b.holder)
      ensures ok ==> b.holder == 0 && b.refcnt == old(b.refcnt) - 1
      ensures ok ==> order == if b.refcnt == 0 then [b] + Without(old(order), k) else old(order)
      ensures ok && b.refcnt == 0 ==> forall c | c in order && c != b :: c.stamp < b.stamp
    {
      hide Linked, Unique, Lru, AllCoherent, Settled;
      if b.holder != pid { return false; }
      Ring(head, order);
      NotIn(head, order, k);
      LruSplit(order, clock, k);
      CoherentSplit(blocks, order, k);
      StampBound(order, clock, k);
      ghost var rest := Without(order, k);
      b.holder := 0;
      b.refcnt := b.refcnt - 1;
      if b.refcnt == 0 {
        MoveToFront(b, k);
      } else {
        LruJoin(order, clock, k);
        CoherentJoin(blocks, order, k);
      }
      ok := true;
    }

    /** The pointer surgery of brelse. */
    method MoveToFront(b: Buf, ghost k: nat)
      requires k < |order| && b == order[k] && Linked(head, order) && Unique(order) && Settled(disk, blocks, order)
      requires Lru(Without(order, k), clock) && AllCoherent(blocks, Without(order, k)) && Coherent(blocks, b)
      modifies this`order, this`clock, b`stamp, head`next, head`prev, order`next, order`prev
      ensures Valid() && order == [b] + Without(old(order), k)
      ensures forall c | c in order && c != b :: c.stamp < b.stamp
    {
      hide Linked, Unique, Lru, AllCoherent, Settled, Coherent, OnDisk, Pinned, Same, Distinct;
      Ring(head, order);
      NotIn(head, order, k);
      ghost var rest := Without(order, k);
      SettledMoves(disk, blocks, order, k);
      UniqueSplit(order, k);
      SplitDiffer(order, k);
      ghost var w := [b] + rest;
      UniqueCons(b, rest);
      CoherentCons(blocks, b, rest);
      b.stamp := clock + 1;
      LruCons(b, rest, clock);
      Oldest(rest, clock);
      assert Unique(w) && AllCoherent(blocks, w) && Settled(disk, blocks, w) && Lru(w, clock + 1);
      Relink(head, b, order, k);
      assert Unique(w);
      assert AllCoherent(blocks, w);
      assert Settled(disk, blocks, w);
      assert Lru(w, clock + 1);
      order, clock := w, clock + 1;
    }
  }
}
