/**
 The free list of the K&R allocator (user/umalloc.c).  Addresses are counted in header units of 8 bytes.  The
 free list is a circular list of headers in memory; `view` is the same list in address order.
 */
module FreeList {

  const UINT := 0x1_0000_0000
  const UNIT := 8               // sizeof(Header)

  datatype Block = Block(addr: int, size: nat) {
    function End(): int {
      addr + size
    }
  }

  // Free lists in address order

  /** Blocks in address order behind the empty base block.  Block a may touch block a + 1 only
      if lo <= a < hi. */
  ghost predicate Sorted(view: seq<Block>, base: int, lo: nat, hi: nat) {
    && 0 < |view| && view[0] == Block(base, 0)
    && (forall i | 0 < i < |view| :: view[i].size > 0)
    && (forall i, j | 0 <= i < j < |view| :: Before(view, i, j, lo, hi))
  }

  ghost predicate Before(view: seq<Block>, i: nat, j: nat, lo: nat, hi: nat)
    requires i < |view| && j < |view|
  {
    view[i].End() < view[j].addr || (view[i].End() == view[j].addr && j == i + 1 && lo <= i < hi)
  }

  /** No two free blocks touch. */
  ghost predicate Ordered(view: seq<Block>, base: int) {
    Sorted(view, base, 0, 0)
  }

  ghost predicate Inside(b: Block, x: int) {
    b.addr <= x < b.End()
  }

  ghost predicate Covers(view: seq<Block>, x: int) {
    exists i :: 0 <= i < |view| && Inside(view[i], x)
  }

  ghost predicate Apart(b: Block, c: Block) {
    b.End() <= c.addr || c.End() <= b.addr
  }

  /** Blocks i and i + 1 become one if they touch. */
  function Join(view: seq<Block>, i: nat): seq<Block> {
    if i + 1 < |view| && view[i].End() == view[i + 1].addr
    then view[..i] + [Block(view[i].addr, view[i].size + view[i + 1].size)] + view[i + 2..]
    else view
  }

  /** free: put b behind position t, then merge upwards, then downwards. */
  function Insert(view: seq<Block>, t: nat, b: Block): seq<Block>
    requires t < |view|
  {
    Join(Join(view[..t + 1] + [b] + view[t + 1..], t + 1), t)
  }

  /** Position t is where free stops for a block at address a. */
  ghost predicate Between(view: seq<Block>, t: nat, a: int) {
    t < |view| && view[t].addr < a && (t + 1 < |view| ==> a < view[t + 1].addr)
  }

  lemma JoinSorts(view: seq<Block>, base: int, lo: nat, i: nat)
    requires Sorted(view, base, lo, i + 1) && lo <= i && (|view| > 1 ==> base < view[1].addr)
    ensures Sorted(Join(view, i), base, lo, i)
  {
    if i + 1 < |view| && view[i].End() == view[i + 1].addr {
      var w := Join(view, i);
      forall a, c | 0 <= a < c < |w| ensures Before(w, a, c, lo, i) {
        var a', c' := if a < i then a else a + 1, if c <= i then c else c + 1;
        assert Before(view, a', c', lo, i + 1);
      }
    } else {
      forall a, c | 0 <= a < c < |view| ensures Before(view, a, c, lo, i) {
        assert Before(view, a, c, lo, i + 1);
      }
    }
  }

  lemma InsertLoose(view: seq<Block>, base: int, t: nat, b: Block)
    requires Ordered(view, base) && Between(view, t, b.addr) && b.size > 0
    requires forall i | 0 <= i < |view| :: Apart(view[i], b)
    ensures var v := view[..t + 1] + [b] + view[t + 1..]; Sorted(v, base, t, t + 2) && base < v[1].addr
  {
    var v, hi := view[..t + 1] + [b] + view[t + 1..], t + 2;
    forall a, c | 0 <= a < c < |v| ensures Before(v, a, c, t, hi) {
      if a == t + 1 {
        assert Apart(view[t + 1], b);
        if c > t + 2 { assert Before(view, t + 1, c - 1, 0, 0); }
      } else if c == t + 1 {
        assert Apart(view[t], b);
        if a < t { assert Before(view, a, t, 0, 0); }
      } else {
        var a', c' := if a <= t then a else a - 1, if c <= t then c else c - 1;
        assert Before(view, a', c', 0, 0);
      }
    }
    if t > 0 { assert Before(view, 0, 1, 0, 0); }
  }

  lemma InsertSorts(view: seq<Block>, base: int, t: nat, b: Block)
    requires Ordered(view, base) && Between(view, t, b.addr) && b.size > 0
    requires forall i | 0 <= i < |view| :: Apart(view[i], b)
    ensures Ordered(Insert(view, t, b), base)
  {
    hide Before;
    var v := view[..t + 1] + [b] + view[t + 1..];
    InsertLoose(view, base, t, b);
    JoinSorts(v, base, t, t + 1);
    assert |Join(v, t + 1)| > 1 && Join(v, t + 1)[1].addr == v[1].addr;
    JoinSorts(Join(v, t + 1), base, t, t);
    SortedTight(Insert(view, t, b), base, t);
  }

  lemma SortedTight(view: seq<Block>, base: int, t: nat)
    requires Sorted(view, base, t, t)
    ensures Ordered(view, base)
  {
    forall i, j | 0 <= i < j < |view| ensures Before(view, i, j, 0, 0) {
      assert Before(view, i, j, t, t);
    }
  }

  lemma CoversConcat(u: seq<Block>, v: seq<Block>, x: int)
    ensures Covers(u + v, x) <==> Covers(u, x) || Covers(v, x)
  {
    if i :| 0 <= i < |u| && Inside(u[i], x) { assert Inside((u + v)[i], x); }
    if i :| 0 <= i < |v| && Inside(v[i], x) { assert Inside((u + v)[|u| + i], x); }
  }

  lemma CoversOne(b: Block, x: int)
    ensures Covers([b], x) <==> Inside(b, x)
  {
    assert [b][0] == b;
  }

  lemma CoversThree(u: seq<Block>, b: Block, v: seq<Block>, x: int)
    ensures Covers(u + [b] + v, x) <==> Covers(u, x) || Inside(b, x) || Covers(v, x)
  {
    CoversConcat(u + [b], v, x);
    CoversConcat(u, [b], x);
    CoversOne(b, x);
  }

  lemma JoinCovers(view: seq<Block>, i: nat, x: int)
    ensures Covers(Join(view, i), x) <==> Covers(view, x)
  {
    if i + 1 < |view| && view[i].End() == view[i + 1].addr {
      var u, v := view[..i], view[i + 2..];
      CoversThree(u, Block(view[i].addr, view[i].size + view[i + 1].size), v, x);
      assert view == u + [view[i]] + ([view[i + 1]] + v);
      CoversThree(u, view[i], [view[i + 1]] + v, x);
      CoversConcat([view[i + 1]], v, x);
      CoversOne(view[i + 1], x);
    }
  }

  /** The units covered afterwards are those covered before and those of b. */
  lemma InsertCovers(view: seq<Block>, t: nat, b: Block, x: int)
    requires t < |view|
    ensures Covers(Insert(view, t, b), x) <==> Covers(view, x) || Inside(b, x)
  {
    hide Join, Covers;
    var v := view[..t + 1] + [b] + view[t + 1..];
    JoinCovers(v, t + 1, x);
    JoinCovers(Join(v, t + 1), t, x);
    CoversThree(view[..t + 1], b, view[t + 1..], x);
    CoversConcat(view[..t + 1], view[t + 1..], x);
    assert view == view[..t + 1] + view[t + 1..];
  }

  // The list in memory

  type Memory = map<int, int>

  function Next(i: nat, k: nat): nat
    requires i < k
  {
    if i + 1 < k then i + 1 else 0
  }

  /** The headers of `view` are linked in a circle and hold the sizes. */
  ghost predicate Linked(ptr: Memory, size: Memory, view: seq<Block>) {
    forall i | 0 <= i < |view| :: LinkedAt(ptr, size, view, i)
  }

  ghost predicate LinkedAt(ptr: Memory, size: Memory, view: seq<Block>, i: nat)
    requires i < |view|
  {
    var a := view[i].addr;
    a in ptr && a in size && ptr[a] == view[Next(i, |view|)].addr && size[a] == view[i].size
  }

  ghost predicate Distinct(view: seq<Block>) {
    forall i, j | 0 <= i < j < |view| :: view[i].addr != view[j].addr
  }

  lemma SortedDistinct(view: seq<Block>, base: int, lo: nat, hi: nat)
    requires Sorted(view, base, lo, hi) && (|view| > 1 ==> base < view[1].addr)
    ensures Distinct(view)
  {
    forall i, j | 0 <= i < j < |view| ensures view[i].addr != view[j].addr {
      assert Before(view, i, j, lo, hi);
      if i == 0 && j > 1 { assert Before(view, 1, j, lo, hi); }
    }
  }

  /** Linking b in behind position t. */
  lemma LinkInsert(ptr: Memory, size: Memory, view: seq<Block>, t: nat, b: Block)
    requires t < |view| && Linked(ptr, size, view) && b.addr in size && size[b.addr] == b.size
    requires Distinct(view[..t + 1] + [b] + view[t + 1..])
    ensures var p := view[t].addr; p in ptr && Linked(ptr[b.addr := ptr[p]][p := b.addr], size, view[..t + 1] + [b] + view[t + 1..])
  {
    assert LinkedAt(ptr, size, view, t);
    var p, v := view[t].addr, view[..t + 1] + [b] + view[t + 1..];
    var ptr' := ptr[b.addr := ptr[p]][p := b.addr];
    assert v[t].addr == p && v[t + 1] == b;
    forall i | 0 <= i < |v| ensures LinkedAt(ptr', size, v, i) {
      assert LinkedAt(ptr, size, view, t);
      if i != t + 1 { assert LinkedAt(ptr, size, view, if i <= t then i else i - 1); }
      assert i != t ==> v[i].addr != p;
      assert i != t + 1 ==> v[i].addr != b.addr;
    }
  }

  /** Merging block i with its successor. */
  lemma LinkJoin(ptr: Memory, size: Memory, v: seq<Block>, i: nat)
    requires i + 1 < |v| && Linked(ptr, size, v) && Distinct(v) && v[i].End() == v[i + 1].addr
    ensures var p, q := v[i].addr, v[i + 1].addr;
      q in ptr && p in size && q in size && Linked(ptr[p := ptr[q]], size[p := size[p] + size[q]], Join(v, i))
  {
    var p, q := v[i].addr, v[i + 1].addr;
    assert LinkedAt(ptr, size, v, i) && LinkedAt(ptr, size, v, i + 1);
    var ptr', size', w := ptr[p := ptr[q]], size[p := size[p] + size[q]], Join(v, i);
    forall j | 0 <= j < |w| ensures LinkedAt(ptr', size', w, j) {
      assert LinkedAt(ptr, size, v, if j <= i then j else j + 1);
      assert j != i ==> w[j].addr != p;
    }
  }

  // Taking n units from block i, as malloc does

  function Take(view: seq<Block>, i: nat, n: nat): seq<Block>
    requires i < |view| && n <= view[i].size
  {
    if view[i].size == n then view[..i] + view[i + 1..] else view[i := Block(view[i].addr, view[i].size - n)]
  }

  function Taken(view: seq<Block>, i: nat, n: nat): Block
    requires i < |view| && n <= view[i].size
  {
    Block(view[i].addr + view[i].size - n, n)
  }

  lemma TakeSorts(view: seq<Block>, base: int, i: nat, n: nat)
    requires Ordered(view, base) && i < |view| && 0 < n <= view[i].size
    ensures i > 0 && Ordered(Take(view, i, n), base)
    ensures forall j | 0 <= j < |Take(view, i, n)| :: Apart(Take(view, i, n)[j], Taken(view, i, n))
  {
    var w := Take(view, i, n);
    var same := view[i].size != n;
    forall a, c | 0 <= a < c < |w| ensures Before(w, a, c, 0, 0) {
      assert Before(view, if same || a < i then a else a + 1, if same || c < i then c else c + 1, 0, 0);
    }
    forall j | 0 <= j < |w| ensures Apart(w[j], Taken(view, i, n)) {
      var j' := if same || j < i then j else j + 1;
      if j' < i { assert Before(view, j', i, 0, 0); }
      if j' > i { assert Before(view, i, j', 0, 0); }
    }
  }

  lemma TakeCovers(view: seq<Block>, i: nat, n: nat, x: int)
    requires i < |view| && 0 < n <= view[i].size
    ensures Covers(view, x) <==> Covers(Take(view, i, n), x) || Inside(Taken(view, i, n), x)
  {
    var u, v := view[..i], view[i + 1..];
    assert view == u + [view[i]] + v;
    CoversThree(u, view[i], v, x);
    if view[i].size == n {
      CoversConcat(u, v, x);
    } else {
      var b := Block(view[i].addr, view[i].size - n);
      assert Take(view, i, n) == u + [b] + v;
      CoversThree(u, b, v, x);
    }
  }

  lemma LinkTake(ptr: Memory, size: Memory, view: seq<Block>, base: int, i: nat, n: nat)
    requires Ordered(view, base) && Linked(ptr, size, view) && 0 < i < |view| && 0 < n <= view[i].size
    ensures view[i].addr in ptr && view[i].addr in size
    ensures view[i].size == n ==> Linked(ptr[view[i - 1].addr := ptr[view[i].addr]], size, Take(view, i, n))
    ensures view[i].size > n ==>
      Linked(ptr, size[view[i].addr := view[i].size - n][Taken(view, i, n).addr := n], Take(view, i, n))
  {
    var w, p := Take(view, i, n), view[i].addr;
    assert LinkedAt(ptr, size, view, i);
    OrderedDistinct(view, base);
    if view[i].size == n {
      var ptr' := ptr[view[i - 1].addr := ptr[p]];
      forall j | 0 <= j < |w| ensures LinkedAt(ptr', size, w, j) {
        assert LinkedAt(ptr, size, view, if j < i then j else j + 1);
      }
    } else {
      var q := Taken(view, i, n).addr;
      var size' := size[p := view[i].size - n][q := n];
      forall j | 0 <= j < |w| ensures LinkedAt(ptr, size', w, j) {
        assert LinkedAt(ptr, size, view, j);
        if j > i { assert Before(view, i, j, 0, 0); }
        if j < i { assert Before(view, j, i, 0, 0); }
      }
    }
  }

  lemma OrderedDistinct(view: seq<Block>, base: int)
    requires Ordered(view, base)
    ensures Distinct(view)
  {
    if |view| > 1 { assert Before(view, 0, 1, 0, 0); }
    SortedDistinct(view, base, 0, 0);
  }
}
