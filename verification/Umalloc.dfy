/**
 malloc, free and morecore of user/umalloc.c, in place on the headers in memory.
 */
module Umalloc {
  import opened FreeList

  /** sbrk: the break and the outcomes the kernel will give, a failure or a gap above the
      old break. */
  class Os {
    var brk: int
    var gaps: seq<int>
    var calls: nat

    /** The next sbrk fails. */
    predicate Refuses()
      reads this
    {
      gaps == [] || gaps[0] < 0 || brk + gaps[0] < 0
    }

    method Sbrk(bytes: int) returns (p: int)
      requires 0 <= bytes && bytes % UNIT == 0
      modifies this
      ensures p == -1 <==> old(Refuses())
      ensures calls == old(calls) + 1 && (p == -1 || old(brk) <= p)
      ensures brk == if p == -1 then old(brk) else p + bytes / UNIT
      ensures gaps == old(gaps)[if old(gaps) == [] then 0 else 1..]
    {
      calls := calls + 1;
      p := -1;
      if gaps != [] {
        var g := gaps[0];
        gaps := gaps[1..];
        if g >= 0 && brk + g >= 0 {
          p := brk + g;
          brk := p + bytes / UNIT;
        }
      }
    }
  }

  // Accounting of units

  ghost predicate LiveAt(live: map<int, nat>, x: int) {
    exists a :: a in live && Inside(Block(a, live[a]), x)
  }

  /** Every unit obtained from sbrk is in exactly one free block or one live block. */
  ghost predicate Accounted(view: seq<Block>, live: map<int, nat>, heap: seq<Block>, size: Memory, base: int, brk: int) {
    && (forall x :: Covers(heap, x) <==> Covers(view, x) || LiveAt(live, x))
    && (forall x | Covers(heap, x) :: base < x < brk)
    && (forall a | a in live :: live[a] > 0 && a in size && size[a] == live[a])
    && (forall a, x | a in live && Inside(Block(a, live[a]), x) :: !Covers(view, x))
    && (forall a, b, x | a in live && b in live && Inside(Block(a, live[a]), x) && Inside(Block(b, live[b]), x) :: a == b)
  }

  lemma LiveInside(live: map<int, nat>, a: int)
    requires a in live && live[a] > 0
    ensures Inside(Block(a, live[a]), a) && LiveAt(live, a)
  {
  }

  /** Intervals without a common unit do not overlap. */
  lemma ApartFrom(view: seq<Block>, base: int, c: Block)
    requires Ordered(view, base) && base < c.addr && c.size > 0
    requires forall x | Inside(c, x) :: !Covers(view, x)
    ensures forall i | 0 <= i < |view| :: Apart(view[i], c)
  {
    forall i | 0 <= i < |view| ensures Apart(view[i], c) {
      if !Apart(view[i], c) {
        var x := if view[i].addr < c.addr then c.addr else view[i].addr;
        assert Inside(c, x) && Inside(view[i], x);
      }
    }
  }

  lemma FreeAccounts(view: seq<Block>, live: map<int, nat>, heap: seq<Block>, size: Memory, base: int, brk: int, t: nat, bp: int, size': Memory)
    requires Accounted(view, live, heap, size, base, brk) && bp in live && t < |view|
    requires forall a | a in live && a != bp :: a in size' && size'[a] == live[a]
    ensures Accounted(Insert(view, t, Block(bp, live[bp])), live - {bp}, heap, size', base, brk)
  {
    hide Covers, Insert;
    var b, live' := Block(bp, live[bp]), live - {bp};
    forall x ensures Covers(Insert(view, t, b), x) <==> Covers(view, x) || Inside(b, x) {
      InsertCovers(view, t, b, x);
    }
    forall x ensures LiveAt(live, x) <==> LiveAt(live', x) || Inside(b, x) {
      if a :| a in live && Inside(Block(a, live[a]), x) {
        assert a == bp || a in live';
      }
    }
  }

  lemma TakeAccounts(view: seq<Block>, live: map<int, nat>, heap: seq<Block>, size: Memory, base: int, brk: int, i: nat, n: nat, size': Memory)
    requires Accounted(view, live, heap, size, base, brk) && Ordered(view, base) && i < |view| && 0 < n <= view[i].size
    requires var q := Taken(view, i, n).addr;
      q in size' && size'[q] == n && forall a | a in live && a != q :: a in size' && size'[a] == live[a]
    ensures Taken(view, i, n).addr !in live
    ensures Accounted(Take(view, i, n), live[Taken(view, i, n).addr := n], heap, size', base, brk)
  {
    hide Covers, Take;
    var b := Taken(view, i, n);
    var live' := live[b.addr := n];
    TakeSorts(view, base, i, n);
    forall x ensures Covers(view, x) <==> Covers(Take(view, i, n), x) || Inside(b, x) {
      TakeCovers(view, i, n, x);
    }
    forall x | Inside(b, x) ensures !Covers(Take(view, i, n), x) {
      TakenOut(view, base, i, n, x);
    }
    assert Inside(b, b.addr) && Covers(view, b.addr);
    assert b.addr in live ==> Inside(Block(b.addr, live[b.addr]), b.addr);
    forall x ensures LiveAt(live', x) <==> LiveAt(live, x) || Inside(b, x) {
      if Inside(b, x) { assert b.addr in live' && Inside(Block(b.addr, live'[b.addr]), x); }
      if a :| a in live && Inside(Block(a, live[a]), x) { assert a in live' && live'[a] == live[a]; }
    }
  }

  lemma TakenOut(view: seq<Block>, base: int, i: nat, n: nat, x: int)
    requires Ordered(view, base) && i < |view| && 0 < n <= view[i].size && Inside(Taken(view, i, n), x)
    ensures !Covers(Take(view, i, n), x)
  {
    TakeSorts(view, base, i, n);
  }

  lemma GrowAccounts(view: seq<Block>, live: map<int, nat>, heap: seq<Block>, size: Memory, base: int, brk: int, p: int, n: nat, brk': int)
    requires Accounted(view, live, heap, size, base, brk) && base < p && brk <= p && 0 < n && p + n <= brk'
    ensures p !in live
    ensures Accounted(view, live[p := n], heap + [Block(p, n)], size[p := n], base, brk')
  {
    hide Covers;
    var b, live' := Block(p, n), live[p := n];
    if p in live { LiveInside(live, p); }
    forall x ensures Covers(heap + [b], x) <==> Covers(heap, x) || Inside(b, x) {
      CoversConcat(heap, [b], x);
      CoversOne(b, x);
    }
    forall x ensures LiveAt(live', x) <==> LiveAt(live, x) || Inside(b, x) {
      if Inside(b, x) { assert p in live' && Inside(Block(p, live'[p]), x); }
      if a :| a in live && Inside(Block(a, live[a]), x) { assert a in live' && live'[a] == live[a]; }
    }
    forall a, x | a in live && Inside(Block(a, live[a]), x) ensures x < brk {
      assert LiveAt(live, x);
    }
  }

  // Where free stops

  /** The exit test of free's loop, at the list element p with successor q. */
  predicate Stops(p: int, q: int, bp: int) {
    (bp > p && bp < q) || (p >= q && (bp > p || bp < q))
  }

  lemma StopsIff(view: seq<Block>, base: int, i: nat, bp: int)
    requires Ordered(view, base) && i < |view| && base < bp
    ensures Stops(view[i].addr, view[Next(i, |view|)].addr, bp) <==> Between(view, i, bp)
  {
    if i + 1 < |view| { assert Before(view, i, i + 1, 0, 0); }
    if i > 0 { assert Before(view, 0, i, 0, 0); }
  }

  lemma Position(view: seq<Block>, base: int, a: int) returns (t: nat)
    requires Ordered(view, base) && base < a && forall i | 0 <= i < |view| :: view[i].addr != a
    ensures Between(view, t, a)
  {
    t := 0;
    while t + 1 < |view| && view[t + 1].addr < a
      invariant t < |view| && view[t].addr < a
    {
      t := t + 1;
    }
  }

  /** Steps from position i to position j around a circle of k. */
  function Dist(i: nat, j: nat, k: nat): nat
    requires i < k && j < k
  {
    if i <= j then j - i else j - i + k
  }

  lemma NextIs(i: nat, k: nat)
    requires i < k
    ensures Next(i, k) < k && (Next(i, k) > 0 ==> i == Next(i, k) - 1)
  {
  }

  /** Unless i is already at j, one step brings it closer; a later target stays later. */
  lemma DistStep(i: nat, j: nat, l: nat, k: nat)
    requires i < k && j < k && l < k && Dist(i, j, k) <= Dist(i, l, k) && i != j
    ensures i != l && Dist(Next(i, k), j, k) == Dist(i, j, k) - 1 && Dist(Next(i, k), l, k) == Dist(i, l, k) - 1
  {
  }

  /** From the element behind l, l itself is the farthest. */
  lemma DistMax(j: nat, l: nat, k: nat)
    requires j < k && l < k
    ensures Dist(Next(l, k), j, k) <= Dist(Next(l, k), l, k)
  {
  }

  /** Going round from s, every block before position i is smaller than n. */
  ghost predicate Searched(view: seq<Block>, s: nat, i: nat, n: nat)
    requires s < |view| && i < |view|
  {
    forall j | 0 <= j < |view| && Dist(s, j, |view|) < Dist(s, i, |view|) :: view[j].size < n
  }

  ghost predicate Fits(view: seq<Block>, n: nat) {
    exists i :: 0 <= i < |view| && view[i].size >= n
  }

  /** Going round from the element behind position m, block i is the first with n units. */
  ghost predicate FirstFit(view: seq<Block>, m: nat, n: nat, i: nat) {
    m < |view| && Next(m, |view|) < |view| && i < |view| && view[i].size >= n && Searched(view, Next(m, |view|), i, n)
  }

  lemma FitsAt(view: seq<Block>, n: nat, i: nat)
    requires i < |view| && view[i].size >= n
    ensures Fits(view, n)
  {
  }

  lemma Fitting(view: seq<Block>, n: nat) returns (i: nat)
    requires Fits(view, n)
    ensures i < |view| && view[i].size >= n
  {
    i :| 0 <= i < |view| && view[i].size >= n;
  }

  lemma SearchedNone(view: seq<Block>, s: nat, n: nat)
    requires s < |view|
    ensures Searched(view, s, s, n)
  {
  }

  lemma SearchedStep(view: seq<Block>, m: nat, i: nat, n: nat)
    requires m < |view| && i < |view| && i != m && Searched(view, Next(m, |view|), i, n) && view[i].size < n
    ensures Searched(view, Next(m, |view|), Next(i, |view|), n)
  {
  }

  lemma SearchedAll(view: seq<Block>, m: nat, n: nat)
    requires m < |view| && Searched(view, Next(m, |view|), m, n) && view[m].size < n
    ensures !Fits(view, n)
  {
    forall j | 0 <= j < |view| ensures view[j].size < n {
      DistMax(j, m, |view|);
    }
  }

  /** The list view with c freed into it, and the position freep is left at. */
  ghost predicate Grew(view: seq<Block>, c: Block, view': seq<Block>, m: nat) {
    m < |view| && Between(view, m, c.addr) && view' == Insert(view, m, c)
  }

  /** The request morecore makes of sbrk for nu units. */
  function Ask(nu: nat): (r: nat)
    ensures r >= nu && r >= 4096 && (r == nu || r == 4096)
  {
    if nu < 4096 then 4096 else nu
  }

  /** What morecore got, once the break is at brk. */
  function Fresh(brk: int, nu: nat): Block {
    Block(brk - Ask(nu), Ask(nu))
  }

  /** nunits of malloc, in 32-bit unsigned arithmetic. */
  function Units(nbytes: nat): nat
    requires nbytes < UINT
  {
    (nbytes + UNIT - 1) % UINT / UNIT + 1
  }

  /** The argument of sbrk: nu * sizeof(Header) as a 32-bit signed integer. */
  function Request(nu: nat): int {
    var r := nu * UNIT % UINT;
    if r < UINT / 2 then r else r - UINT
  }

  const MAXUNITS := 0x1000_0000  // 2^31 / UNIT

  /** The payload is large enough exactly when the rounding does not wrap, and then it is no
      larger than it must be. */
  lemma UnitsFit(nbytes: nat)
    requires nbytes < UINT
    ensures (Units(nbytes) - 1) * UNIT >= nbytes <==> nbytes <= UINT - UNIT
    ensures nbytes <= UINT - UNIT ==> (Units(nbytes) - 1) * UNIT < nbytes + UNIT
  {
  }

  /** sbrk is asked for the needed bytes as a signed 32-bit integer, which is what morecore needs
      exactly below 2^28 units. */
  lemma RequestFits(nu: nat)
    requires nu <= UINT / UNIT
    ensures Request(nu) == nu * UNIT <==> nu < MAXUNITS
    ensures -0x8000_0000 <= Request(nu) < 0x8000_0000 && (Request(nu) - nu * UNIT) % UINT == 0
  {
  }

  /** The largest argument wraps to a block of one unit, all of it header. */
  lemma WrappedSize()
    ensures Units(UINT - 1) == 1 < MAXUNITS && (Units(UINT - 1) - 1) * UNIT == 0
  {
  }

  const MAXBYTES := 0x7FFF_FFF0

  /** Both conditions together are a limit on the argument of malloc. */
  lemma SizeLimit(nbytes: nat)
    requires nbytes < UINT
    ensures nbytes <= UINT - UNIT && Units(nbytes) < MAXUNITS <==> nbytes <= MAXBYTES
  {
  }

  lemma RequestIs(nu: nat)
    requires nu < MAXUNITS
    ensures Request(nu) == nu * UNIT && Request(nu) % UNIT == 0 && Request(nu) / UNIT == nu
  {
  }

  class Heap {
    const base: int
    var ptr: Memory
    var size: Memory
    var freep: int
    /** The free list in address order, the position of freep in it, the live blocks, and the
        memory obtained from sbrk. */
    ghost var view: seq<Block>
    ghost var at: nat
    ghost var live: map<int, nat>
    ghost var heap: seq<Block>

    constructor (base: int)
      requires base > 0
      ensures this.base == base && freep == 0 && live == map[] && heap == []
    {
      this.base := base;
      ptr, size, freep := map[], map[], 0;
      view, at, live, heap := [], 0, map[], [];
    }

    /** One address-ordered circle, nothing adjacent, every unit accounted for. */
    ghost predicate Valid(brk: int)
      reads this
    {
      && 0 < base < brk && Ordered(view, base) && Linked(ptr, size, view)
      && at < |view| && freep == view[at].addr
      && Accounted(view, live, heap, size, base, brk)
    }

    /** The allocator before its first call, or in order. */
    ghost predicate Ready(brk: int)
      reads this
    {
      if freep == 0 then 0 < base < brk && live == map[] && heap == [] else Valid(brk)
    }

    method Free(ap: int, ghost brk: int)
      requires Valid(brk) && ap - 1 in live
      modifies this`ptr, this`size, this`freep, this`view, this`at, this`live
      ensures Valid(brk) && live == old(live) - {ap - 1}
      ensures exists t: nat :: Between(old(view), t, ap - 1) && view == Insert(old(view), t, Block(ap - 1, old(live)[ap - 1])) &&
                at == t && freep == old(view)[t].addr
    {
      hide Sorted, Linked, Accounted, Covers, Insert;
      var bp := ap - 1;
      ghost var b, k := Block(bp, live[bp]), |view|;
      LiveApart(view, live, heap, size, base, brk, bp);
      ghost var t := Position(view, base, bp);
      var p := freep;
      ghost var i: nat := at;
      StopsIff(view, base, i, bp);
      OneStop(view, base, t, i, bp);
      NextOf(ptr, size, view, i);
      while !Stops(p, ptr[p], bp)
        modifies {}
        invariant i < k && p == view[i].addr && p in ptr && ptr[p] == view[Next(i, k)].addr
        invariant Stops(p, ptr[p], bp) <==> i == t
        decreases Dist(i, t, k)
      {
        p := ptr[p];
        i := Next(i, k);
        StopsIff(view, base, i, bp);
        OneStop(view, base, t, i, bp);
        NextOf(ptr, size, view, i);
      }
      ghost var size0 := size;
      InsertSorts(view, base, t, b);
      NotLive(view, live, heap, size, base, brk, t);
      SizesKnown(view, live, heap, size, base, brk);
      LinkBlock(p, bp, t);
      FreeAccounts(old(view), live, heap, size0, base, brk, t, bp, size);
      live := live - {bp};
      assert Between(old(view), t, bp) && view == Insert(old(view), t, b) && at == t && freep == old(view)[t].addr;
    }

    /** morecore: obtains at least nu units and frees them into the list. */
    method Morecore(os: Os, nu: nat) returns (p: int)
      requires Valid(os.brk) && 0 < nu < MAXUNITS
      modifies os, this`ptr, this`size, this`freep, this`view, this`at, this`live, this`heap
      ensures os.calls == old(os.calls) + 1 && live == old(live) && Valid(os.brk)
      ensures p == 0 <==> old(os.Refuses())
      ensures p == 0 ==> view == old(view) && at == old(at) && heap == old(heap) && freep == old(freep)
      ensures p != 0 ==> p == freep && heap == old(heap) + [Fresh(os.brk, nu)]
      ensures p != 0 ==> Grew(old(view), Fresh(os.brk, nu), view, at)
      ensures p != 0 ==> Fits(view, nu)
    {
      hide Sorted, Linked, Accounted, Covers, Insert;
      var n := if nu < 4096 then 4096 else nu;
      RequestIs(n);
      var hp := os.Sbrk(Request(n));
      if hp == -1 { return 0; }
      NotListed(view, live, heap, size, base, old(os.brk), hp);
      GrowAccounts(view, live, heap, size, base, old(os.brk), hp, n, os.brk);
      LinkedFrame(ptr, size, view, hp, n);
      size := size[hp := n];
      live, heap := live[hp := n], heap + [Block(hp, n)];
      ghost var view0 := view;
      Free(hp + 1, os.brk);
      ghost var t: nat :| Between(view0, t, hp) && view == Insert(view0, t, Block(hp, n)) && at == t;
      InsertHolds(view0, t, Block(hp, n));
      assert live == old(live);
      BaseFirst(view, base, at);
      p := freep;
    }

    /** malloc's first call: a list of one empty block. */
    method Start(ghost brk: int)
      requires Ready(brk)
      modifies this`ptr, this`size, this`freep, this`view, this`at
      ensures Valid(brk)
      ensures if old(freep) == 0 then view == [Block(base, 0)] && at == 0 else view == old(view) && at == old(at)
    {
      hide Sorted, Linked, Accounted;
      if freep == 0 {
        ptr, size, freep := ptr[base := base], size[base := 0], base;
        view, at := [Block(base, 0)], 0;
        FirstList(ptr, size, base, brk);
      }
    }

    /** What malloc leaves: n units off the first block, from position m of the list v on, that
        has them. */
    ghost predicate Served(v: seq<Block>, m: nat, n: nat, ap: int)
      reads this
    {
      exists i: nat :: i > 0 && FirstFit(v, m, n, i) && ap == Taken(v, i, n).addr + 1 && view == Take(v, i, n) && at == i - 1
    }

    /** The same, once c is in the list. */
    ghost predicate ServedMore(v0: seq<Block>, c: Block, n: nat, ap: int)
      reads this
    {
      exists v, m: nat :: Grew(v0, c, v, m) && Served(v, m, n, ap)
    }

    /** After morecore: no block of v0 had n units, and a new block is in the list. */
    ghost predicate Grown(v0: seq<Block>, heap0: seq<Block>, brk: int, n: nat)
      reads this
    {
      !Fits(v0, n) && heap == heap0 + [Fresh(brk, n)] && Grew(v0, Fresh(brk, n), view, at)
    }

    /** malloc's loop. */
    method Search(os: Os, nunits: nat) returns (ap: int)
      requires Valid(os.brk) && 0 < nunits < MAXUNITS
      modifies os, this
      ensures Valid(os.brk)
      ensures os.calls == old(os.calls) + if Fits(old(view), nunits) then 0 else 1
      ensures ap == 0 <==> !Fits(old(view), nunits) && old(os.Refuses())
      ensures ap == 0 ==> live == old(live) && heap == old(heap) && view == old(view) && at == old(at)
      ensures ap != 0 ==> ap - 1 !in old(live) && live == old(live)[ap - 1 := nunits]
      ensures Fits(old(view), nunits) ==> heap == old(heap) && Served(old(view), old(at), nunits, ap)
      ensures ap != 0 && !Fits(old(view), nunits) ==>
        heap == old(heap) + [Fresh(os.brk, nunits)] && ServedMore(old(view), Fresh(os.brk, nunits), nunits, ap)
    {
      hide Sorted, Linked, Accounted, Take, Dist, Next, Searched, Grew, Fits, Fresh, Served;
      var prevp := freep;
      NextOf(ptr, size, view, at);
      var p := ptr[prevp];
      ghost var pi: nat, ci: nat, g: nat, grown := at, Next(at, |view|), 0, false;
      NextIs(pi, |view|);
      SearchedNone(view, ci, nunits);
      while true
        invariant Valid(os.brk) && live == old(live) && pi < |view| && ci == Next(pi, |view|) < |view|
        invariant prevp == view[pi].addr && p == view[ci].addr
        invariant Next(at, |view|) < |view| && Searched(view, Next(at, |view|), ci, nunits)
        invariant !grown ==> os.calls == old(os.calls) && heap == old(heap) && os.Refuses() == old(os.Refuses())
        invariant !grown ==> view == old(view) && at == old(at)
        invariant grown ==> os.calls == old(os.calls) + 1 && g < |view| && view[g].size >= nunits
        invariant grown ==> !old(os.Refuses()) && Grown(old(view), old(heap), os.brk, nunits)
        invariant grown ==> Dist(ci, g, |view|) <= Dist(ci, at, |view|)
        decreases !grown, if grown then Dist(ci, g, |view|) else Dist(ci, at, |view|)
      {
        NextOf(ptr, size, view, ci);
        NextIs(pi, |view|);
        if size[p] >= nunits {
          FitsAt(view, nunits, ci);
          ap := Carve(prevp, p, nunits, ci, os.brk);
          return;
        }
        if grown { DistStep(ci, g, at, |view|); } else if ci != at { DistStep(ci, at, at, |view|); }
        if p == freep {
          SamePosition(view, base, ci, at);
          SearchedAll(view, at, nunits);
          p := Morecore(os, nunits);
          if p == 0 { return 0; }
          g := Fitting(view, nunits);
          ci, grown := at, true;
          DistMax(g, at, |view|);
          NextIs(at, |view|);
          SearchedNone(view, Next(at, |view|), nunits);
        } else {
          SearchedStep(view, at, ci, nunits);
        }
        NextOf(ptr, size, view, ci);
        NextIs(ci, |view|);
        prevp, pi := p, ci;
        p, ci := ptr[p], Next(ci, |view|);
      }
    }

    /** malloc.  Next fit on the list; sbrk is called, once, exactly when no block is large enough,
        as on the first call; a null result only when that call fails.  Sizes whose rounding
        wraps get a block too, but one that is too small. */
    method Malloc(os: Os, nbytes: nat) returns (ap: int)
      requires Ready(os.brk) && nbytes < UINT && Units(nbytes) < MAXUNITS
      modifies os, this
      ensures Valid(os.brk) && old(os.calls) <= os.calls <= old(os.calls) + 1
      ensures os.calls == old(os.calls) <==>
        old(freep) != 0 && exists i :: 0 <= i < |old(view)| && old(view)[i].size >= Units(nbytes)
      ensures ap == 0 <==> os.calls == old(os.calls) + 1 && old(os.Refuses())
      ensures ap == 0 ==> live == old(live) && heap == old(heap) && (old(freep) != 0 ==> view == old(view) && at == old(at))
      ensures ap != 0 ==> ap - 1 !in old(live) && live == old(live)[ap - 1 := Units(nbytes)]
      ensures ap != 0 ==> ((live[ap - 1] - 1) * UNIT >= nbytes <==> nbytes <= UINT - UNIT)
      ensures os.calls == old(os.calls) ==> heap == old(heap) && Served(old(view), old(at), Units(nbytes), ap)
      ensures ap != 0 && os.calls == old(os.calls) + 1 ==>
        && heap == old(heap) + [Fresh(os.brk, Units(nbytes))]
        && ServedMore(if old(freep) == 0 then [Block(base, 0)] else old(view), Fresh(os.brk, Units(nbytes)), Units(nbytes), ap)
    {
      assert Units(nbytes) > 0;
      hide Valid, Units, Served, ServedMore;
      UnitsFit(nbytes);
      Start(os.brk);
      ap := Search(os, Units(nbytes));
    }

    /** The successful branch of malloc: n units off the end of block p. */
    method Carve(prevp: int, p: int, n: nat, ghost i: nat, ghost brk: int) returns (ap: int)
      requires Valid(brk) && 0 < n && i < |view| && p == view[i].addr && view[i].size >= n
      requires i > 0 ==> prevp == view[i - 1].addr
      requires FirstFit(view, at, n, i)
      modifies this`ptr, this`size, this`freep, this`view, this`at, this`live
      ensures Valid(brk) && ap == Taken(old(view), i, n).addr + 1 && view == Take(old(view), i, n) && i > 0 && at == i - 1
      ensures Served(old(view), old(at), n, ap)
      ensures ap != 0 && ap - 1 !in old(live) && live == old(live)[ap - 1 := n]
    {
      hide Sorted, Linked, Accounted, Covers, FirstFit;
      ghost var view0, size0 := view, size;
      TakeSorts(view, base, i, n);
      LinkTake(ptr, size, view, base, i, n);
      NextOf(ptr, size, view, i);
      SizesKnown(view, live, heap, size, base, brk);
      NotLive(view, live, heap, size, base, brk, i);
      BaseFirst(view, base, i);
      var q := p;
      if size[p] == n {
        ptr := ptr[prevp := ptr[p]];
      } else {
        size := size[p := size[p] - n];
        q := p + size[p];
        size := size[q := n];
      }
      freep := prevp;
      TakeAccounts(view0, live, heap, size0, base, brk, i, n, size);
      view, at := Take(view, i, n), i - 1;
      live := live[q := n];
      ap := q + 1;
    }

    /** The four cases of free's tail: bp linked behind p, merged up, merged down, or both. */
    method LinkBlock(p: int, bp: int, ghost t: nat)
      requires Ordered(view, base) && Linked(ptr, size, view) && Between(view, t, bp) && p == view[t].addr
      requires bp in size && size[bp] > 0 && forall i | 0 <= i < |view| :: Apart(view[i], Block(bp, size[bp]))
      modifies this`ptr, this`size, this`freep, this`view, this`at
      ensures view == Insert(old(view), t, Block(bp, old(size)[bp])) && Linked(ptr, size, view)
      ensures at == t < |view| && freep == view[at].addr == p
      ensures forall a | a in old(size) && a != p && a != bp :: a in size && size[a] == old(size)[a]
    {
      hide Sorted, Linked, Insert;
      ghost var b := Block(bp, size[bp]);
      NextOf(ptr, size, view, t);
      LinkFree(ptr, size, view, base, t, b);
      if bp + size[bp] == ptr[p] {
        size := size[bp := size[bp] + size[ptr[p]]];
        ptr := ptr[bp := ptr[ptr[p]]];
      } else {
        ptr := ptr[bp := ptr[p]];
      }
      if p + size[p] == bp {
        size := size[p := size[p] + size[bp]];
        ptr := ptr[p := ptr[bp]];
      } else {
        ptr := ptr[p := bp];
      }
      freep := p;
      view := Insert(view, t, b);
      at := t;
    }
  }

  lemma LiveApart(view: seq<Block>, live: map<int, nat>, heap: seq<Block>, size: Memory, base: int, brk: int, a: int)
    requires Accounted(view, live, heap, size, base, brk) && Ordered(view, base) && a in live
    ensures base < a && live[a] > 0 && a in size && size[a] == live[a]
    ensures forall i | 0 <= i < |view| :: Apart(view[i], Block(a, live[a])) && view[i].addr != a
  {
    LiveInside(live, a);
    ApartFrom(view, base, Block(a, live[a]));
  }

  lemma NotLive(view: seq<Block>, live: map<int, nat>, heap: seq<Block>, size: Memory, base: int, brk: int, i: nat)
    requires Accounted(view, live, heap, size, base, brk) && Ordered(view, base) && i < |view|
    ensures view[i].addr !in live
  {
    if view[i].addr in live { LiveApart(view, live, heap, size, base, brk, view[i].addr); }
  }

  lemma SizesKnown(view: seq<Block>, live: map<int, nat>, heap: seq<Block>, size: Memory, base: int, brk: int)
    requires Accounted(view, live, heap, size, base, brk)
    ensures forall a | a in live :: live[a] > 0 && a in size && size[a] == live[a]
  {
  }

  lemma OneStop(view: seq<Block>, base: int, t: nat, i: nat, a: int)
    requires Ordered(view, base) && i < |view| && Between(view, t, a)
    ensures Between(view, i, a) <==> i == t
  {
    if i < t { assert Before(view, i, t, 0, 0); if i + 1 < t { assert Before(view, i + 1, t, 0, 0); } }
    if t < i { assert Before(view, t, i, 0, 0); if t + 1 < i { assert Before(view, t + 1, i, 0, 0); } }
  }

  lemma NextOf(ptr: Memory, size: Memory, view: seq<Block>, i: nat)
    requires Linked(ptr, size, view) && i < |view|
    ensures view[i].addr in ptr && ptr[view[i].addr] == view[Next(i, |view|)].addr
    ensures view[i].addr in size && size[view[i].addr] == view[i].size
  {
    assert LinkedAt(ptr, size, view, i);
  }

  /** After the first half of free's tail and p.ptr = bp. */
  lemma LinkUp(ptr: Memory, size: Memory, view: seq<Block>, base: int, t: nat, b: Block)
    requires Ordered(view, base) && Linked(ptr, size, view) && Between(view, t, b.addr) && b.size > 0
    requires forall i | 0 <= i < |view| :: Apart(view[i], b)
    requires b.addr in size && size[b.addr] == b.size
    ensures var p, bp := view[t].addr, b.addr; var v := view[..t + 1] + [b] + view[t + 1..];
      p in ptr && p in size && ptr[p] in ptr && ptr[p] in size &&
      (if b.End() == ptr[p] then
         Linked(ptr[bp := ptr[ptr[p]]][p := bp], size[bp := size[bp] + size[ptr[p]]], Join(v, t + 1))
       else Linked(ptr[bp := ptr[p]][p := bp], size, Join(v, t + 1)))
  {
    hide Sorted, Linked, Join;
    var p, bp, v := view[t].addr, b.addr, view[..t + 1] + [b] + view[t + 1..];
    NextOf(ptr, size, view, t);
    NextOf(ptr, size, view, Next(t, |view|));
    InsertLoose(view, base, t, b);
    SortedDistinct(v, base, t, t + 2);
    LinkInsert(ptr, size, view, t, b);
    assert v[t + 1] == b;
    BaseFirst(view, base, t);
    if b.End() == ptr[p] {
      assert t + 1 < |view| && v[t + 2] == view[t + 1];
      var ptr1 := ptr[bp := ptr[p]][p := bp];
      LinkJoin(ptr1, size, v, t + 1);
      assert v[t].addr == p && v[t].addr != v[t + 2].addr && v[t + 1].addr != v[t + 2].addr;
      assert ptr1[bp := ptr1[ptr[p]]] == ptr[bp := ptr[ptr[p]]][p := bp];
    } else {
      NoJoin(v, t + 1);
    }
  }

  lemma BaseFirst(view: seq<Block>, base: int, i: nat)
    requires Ordered(view, base) && i < |view|
    ensures view[0].addr == base && base <= view[i].addr
  {
    if i > 0 { assert Before(view, 0, i, 0, 0); }
  }

  lemma NoJoin(v: seq<Block>, i: nat)
    requires i + 1 < |v| ==> v[i].End() != v[i + 1].addr
    ensures Join(v, i) == v
  {
  }

  /** free's tail links exactly the list with b inserted and merged. */
  lemma LinkFree(ptr: Memory, size: Memory, view: seq<Block>, base: int, t: nat, b: Block)
    requires Ordered(view, base) && Linked(ptr, size, view) && Between(view, t, b.addr) && b.size > 0
    requires forall i | 0 <= i < |view| :: Apart(view[i], b)
    requires b.addr in size && size[b.addr] == b.size
    ensures var p, bp := view[t].addr, b.addr;
      p in ptr && p in size && ptr[p] in ptr && ptr[p] in size &&
      var up := b.End() == ptr[p];
      var ptr1 := if up then ptr[bp := ptr[ptr[p]]] else ptr[bp := ptr[p]];
      var size1 := if up then size[bp := size[bp] + size[ptr[p]]] else size;
      p in size1 && t < |Insert(view, t, b)| && Insert(view, t, b)[t].addr == p &&
      if p + size1[p] == bp then Linked(ptr1[p := ptr1[bp]], size1[p := size1[p] + size1[bp]], Insert(view, t, b))
      else Linked(ptr1[p := bp], size1, Insert(view, t, b))
  {
    hide Sorted, Linked, Join;
    LinkUp(ptr, size, view, base, t, b);
    var p, bp, v := view[t].addr, b.addr, view[..t + 1] + [b] + view[t + 1..];
    var up := b.End() == ptr[p];
    var ptr1 := if up then ptr[bp := ptr[ptr[p]]] else ptr[bp := ptr[p]];
    var size1 := if up then size[bp := size[bp] + size[ptr[p]]] else size;
    var w := Join(v, t + 1);
    InsertLoose(view, base, t, b);
    JoinSorts(v, base, t, t + 1);
    JoinPrefix(v, t + 1);
    SortedDistinct(w, base, t, t + 1);
    NextOf(ptr1[p := bp], size1, w, t);
    JoinPrefix(w, t);
    if p + size1[p] == bp {
      LinkJoin(ptr1[p := bp], size1, w, t);
      assert ptr1[p := bp][p := ptr1[p := bp][bp]] == ptr1[p := ptr1[bp]];
    } else {
      NoJoin(w, t);
    }
  }

  lemma JoinPrefix(v: seq<Block>, i: nat)
    requires i < |v|
    ensures i < |Join(v, i)| && Join(v, i)[..i] == v[..i] && Join(v, i)[i].addr == v[i].addr
  {
  }

  lemma NotListed(view: seq<Block>, live: map<int, nat>, heap: seq<Block>, size: Memory, base: int, brk: int, a: int)
    requires Accounted(view, live, heap, size, base, brk) && Ordered(view, base) && base < brk <= a
    ensures forall i | 0 <= i < |view| :: view[i].addr != a
  {
    forall i | 0 < i < |view| ensures view[i].addr < brk {
      assert Inside(view[i], view[i].addr) && Covers(view, view[i].addr);
    }
  }

  lemma LinkedFrame(ptr: Memory, size: Memory, view: seq<Block>, a: int, n: int)
    requires Linked(ptr, size, view) && forall i | 0 <= i < |view| :: view[i].addr != a
    ensures Linked(ptr, size[a := n], view)
  {
    var size' := size[a := n];
    forall i | 0 <= i < |view| ensures LinkedAt(ptr, size', view, i) {
      assert LinkedAt(ptr, size, view, i);
    }
  }

  lemma JoinHolds(v: seq<Block>, i: nat, g: nat)
    requires g < |v| && i < |v|
    ensures exists h :: 0 <= h < |Join(v, i)| && Join(v, i)[h].size >= v[g].size
  {
    var w := Join(v, i);
    if w != v {
      var h := if g <= i then g else g - 1;
      assert w[h].size >= v[g].size;
    } else {
      assert w[g].size >= v[g].size;
    }
  }

  /** Wherever a freed block ends up, some free block is as large. */
  lemma InsertHolds(view: seq<Block>, t: nat, b: Block)
    requires t < |view|
    ensures exists g :: 0 <= g < |Insert(view, t, b)| && Insert(view, t, b)[g].size >= b.size
  {
    var v := view[..t + 1] + [b] + view[t + 1..];
    assert v[t + 1] == b;
    JoinHolds(v, t + 1, t + 1);
    var g :| 0 <= g < |Join(v, t + 1)| && Join(v, t + 1)[g].size >= b.size;
    JoinPrefix(v, t + 1);
    JoinHolds(Join(v, t + 1), t, g);
    var h :| 0 <= h < |Join(Join(v, t + 1), t)| && Join(Join(v, t + 1), t)[h].size >= Join(v, t + 1)[g].size;
    assert Insert(view, t, b)[h].size >= b.size;
  }

  lemma FirstList(ptr: Memory, size: Memory, base: int, brk: int)
    requires base in ptr && base in size && ptr[base] == base && size[base] == 0
    ensures Ordered([Block(base, 0)], base) && Linked(ptr, size, [Block(base, 0)])
    ensures Accounted([Block(base, 0)], map[], [], size, base, brk)
  {
    var v := [Block(base, 0)];
    assert LinkedAt(ptr, size, v, 0);
    forall x ensures !Covers(v, x) {
      CoversOne(Block(base, 0), x);
    }
  }

  lemma SamePosition(view: seq<Block>, base: int, i: nat, j: nat)
    requires Ordered(view, base) && i < |view| && j < |view| && view[i].addr == view[j].addr
    ensures i == j
  {
    OrderedDistinct(view, base);
  }
}
