/**
 The loops of kernel/log.c, in place, with a ghost record of the disk after every block
 write.  Each prefix of the record is a possible crash point.
 */
module LogCode {
  import opened LogMachine
  import opened LogSafety
  import opened LogCrash
  import opened LogTheorems

  /** Every disk of the record recovers to `img`. */
  ghost predicate AllGood(pm: Params, tr: seq<seq<Block>>, img: seq<Block>)
    requires pm.Valid() && |img| == pm.nblocks
  {
    forall d | d in tr :: |d| == pm.nblocks && DiskGood(pm, d, img)
  }

  lemma AllGoodNil(pm: Params, img: seq<Block>)
    requires pm.Valid() && |img| == pm.nblocks
    ensures AllGood(pm, [], img)
  {
  }

  /** One more write appended to a record. */
  lemma OneMoreGood(pm: Params, tr: seq<seq<Block>>, w: seq<seq<Block>>, d: seq<Block>, img: seq<Block>)
    requires pm.Valid() && |img| == |d| == pm.nblocks && AllGood(pm, w, img) && DiskGood(pm, d, img)
    ensures AllGood(pm, w + [d], img) && tr + w + [d] == tr + (w + [d])
  {
    hide DiskGood;
  }

  lemma CommitRecord(pm: Params, tr: seq<seq<Block>>, a: seq<seq<Block>>, d: seq<Block>, b: seq<seq<Block>>, img: seq<Block>)
    requires pm.Valid() && |img| == |d| == pm.nblocks && AllGood(pm, b, img) && DiskGood(pm, d, img)
    ensures var w := a + ([d] + b); w[..|a|] == a && AllGood(pm, w[|a|..], img) && tr + a + [d] + b == tr + w
  {
    hide DiskGood;
    var w := a + ([d] + b);
    assert w[|a|..] == [d] + b;
    assert tr + a + [d] + b == tr + w;
  }

  lemma AllHome(pm: Params, d: seq<Block>, img: seq<Block>)
    requires pm.Valid() && |d| == |img| == pm.nblocks && DiskGood(pm, d, img)
    requires var lh := HeadList(d[pm.start]); forall j | 0 <= j < |lh| :: d[lh[j]] == img[lh[j]]
    ensures SameHome(pm, d, img)
  {
    var lh := HeadList(d[pm.start]);
    forall b | pm.Home(b) ensures d[b] == img[b] {
      if b in lh { var j :| 0 <= j < |lh| && lh[j] == b; }
    }
  }

  /** After write_log the log area and the untouched home blocks spell out the new image. */
  lemma LoggedReady(pm: Params, d: seq<Block>, base: seq<Block>, img: seq<Block>, lh: seq<int>, cached: map<int, Block>)
    requires pm.Valid() && |d| == |base| == |img| == pm.nblocks && |lh| <= LOGSIZE && |lh| < pm.size
    requires DiskGood(pm, d, base) && HeadList(d[pm.start]) == []
    requires forall j | 0 <= j < |lh| :: pm.Home(lh[j]) && lh[j] in cached && d[pm.start + 1 + j] == cached[lh[j]]
    requires forall b | pm.Home(b) :: img[b] == if b in lh && b in cached then cached[b] else base[b]
    ensures LogCopied(pm, img, d, lh, |lh|)
    ensures forall b | pm.Home(b) && !InTail(lh, 0, b) :: d[b] == img[b]
  {
    forall b | pm.Home(b) && !InTail(lh, 0, b) ensures d[b] == img[b] {
      assert b !in lh;
    }
  }

  lemma HeadHome(pm: Params, d: seq<Block>, img: seq<Block>)
    requires pm.Valid() && |d| == |img| == pm.nblocks && DiskGood(pm, d, img)
    ensures forall j | 0 <= j < |HeadList(d[pm.start])| :: pm.Home(HeadList(d[pm.start])[j])
  {
  }

  /** The header block as the loop of write_head fills it. */
  lemma HeadLoop(prev: Block, a: seq<int>, n: int, x: int)
    requires |a| <= LOGSIZE
    ensures a == [] ==> WithHead(prev, a)[0 := n] == prev[0 := n]
    ensures WithHead(prev, a)[0 := n][1 + |a| := x] == WithHead(prev, a + [x])[0 := n]
    ensures |a| == n ==> WithHead(prev, a)[0 := n] == WithHead(prev, a)
  {
  }

  lemma InstalledStep(pm: Params, d: seq<Block>, lh: seq<int>)
    requires pm.Valid() && |d| == pm.nblocks && |lh| <= LOGSIZE && |lh| < pm.size
    ensures Installed(pm, d, lh, 0) == d
    ensures forall k: nat | k < |lh| && InRange(d, lh[k]) ::
      Installed(pm, d, lh, k + 1) == Installed(pm, d, lh, k)[lh[k] := Installed(pm, d, lh, k)[pm.start + 1 + k]]
  {
  }

  /** Home blocks are as before, on disk and in the cache. */
  ghost predicate HomeKept(pm: Params, d: seq<Block>, c: map<int, Block>, d2: seq<Block>, c2: map<int, Block>)
    requires |d| == |d2| == pm.nblocks
  {
    forall b | pm.Home(b) :: d2[b] == d[b] && (b in c2 <==> b in c) && (b in c2 ==> c2[b] == c[b])
  }

  /** The first k logged blocks are in the log area. */
  ghost predicate LogHas(pm: Params, d: seq<Block>, c: map<int, Block>, lh: seq<int>, k: nat)
    requires pm.Valid() && |d| == pm.nblocks && k <= |lh| <= LOGSIZE && |lh| < pm.size
  {
    forall j | 0 <= j < k :: lh[j] in c && d[pm.start + 1 + j] == c[lh[j]]
  }

  lemma LogNone(pm: Params, d: seq<Block>, c: map<int, Block>, lh: seq<int>)
    requires pm.Valid() && |d| == pm.nblocks && |lh| <= LOGSIZE && |lh| < pm.size
    ensures HomeKept(pm, d, c, d, c) && LogHas(pm, d, c, lh, 0)
  {
  }

  lemma LogOne(pm: Params, d0: seq<Block>, c0: map<int, Block>, d: seq<Block>, c: map<int, Block>, lh: seq<int>, k: nat)
    requires pm.Valid() && |d0| == |d| == pm.nblocks && k < |lh| <= LOGSIZE && |lh| < pm.size && lh[k] in c0 && pm.Home(lh[k])
    requires HomeKept(pm, d0, c0, d, c) && LogHas(pm, d, c0, lh, k)
    ensures lh[k] in c && c[lh[k]] == c0[lh[k]]
    ensures var x := c[lh[k]]; var dst := pm.start + k + 1; var d2 := d[dst := x];
      HomeKept(pm, d0, c0, d2, c[lh[k] := x][dst := x]) && LogHas(pm, d2, c0, lh, k + 1)
  {
  }

  class Log {
    const pm: Params
    var outstanding: int
    var n: int
    var block: array<int>
    var disk: seq<Block>
    /** The buffer cache as bread sees it: blocks it holds are not read from the disk. */
    var cache: map<int, Block>
    ghost var trace: seq<seq<Block>>

    ghost predicate Valid()
      reads this, block
    {
      pm.Valid() && |disk| == pm.nblocks && block.Length == LOGSIZE && 0 <= n <= LOGSIZE &&
      (forall b | b in cache :: InRange(disk, b)) &&
      (forall b | b in cache && !pm.Home(b) :: cache[b] == disk[b])
    }

    ghost function Header(): seq<int>
      requires 0 <= n <= block.Length
      reads this, block
    {
      block[..n]
    }

    constructor (pm: Params, disk: seq<Block>)
      requires pm.Valid() && |disk| == pm.nblocks
      ensures Valid() && fresh(block) && this.pm == pm && this.disk == disk && cache == map[] && n == outstanding == 0 && trace == []
    {
      this.pm := pm;
      this.disk := disk;
      cache, n, outstanding, trace := map[], 0, 0, [];
      block := new int[LOGSIZE];
    }

    method Bread(b: int) returns (x: Block)
      requires Valid() && InRange(disk, b)
      modifies this`cache
      ensures Valid() && b in cache && cache[b] == x
      ensures cache == old(cache)[b := if b in old(cache) then old(cache)[b] else disk[b]]
    {
      if b !in cache { cache := cache[b := disk[b]]; }
      x := cache[b];
    }

    method Bwrite(b: int, x: Block)
      requires Valid() && InRange(disk, b)
      modifies this`cache, this`disk, this`trace
      ensures Valid() && disk == old(disk)[b := x] && cache == old(cache)[b := x] && trace == old(trace) + [disk]
    {
      cache := cache[b := x];
      disk := disk[b := x];
      trace := trace + [disk];
    }

    /** bread of both blocks, memmove, bwrite of the destination. */
    method CopyBlock(src: int, dst: int)
      requires Valid() && InRange(disk, src) && InRange(disk, dst)
      modifies this`cache, this`disk, this`trace
      ensures Valid() && trace == old(trace) + [disk]
      ensures var x := if src in old(cache) then old(cache)[src] else old(disk[src]);
        disk == old(disk)[dst := x] && cache == old(cache)[src := x][dst := x]
    {
      var d := Bread(dst);
      var s := Bread(src);
      Bwrite(dst, s);
    }

    /** log_write with its absorption loop: afterwards the block is logged exactly once.  A
        result of false stands for the panics of the capacity test and of a log_write outside
        any transaction. */
    method LogWrite(b: int, x: Block) returns (ok: bool)
      requires Valid() && Distinct(Header()) && pm.Home(b)
      modifies this`n, this`cache, block
      ensures Valid() && Distinct(Header()) && ok == (!Full(pm, old(n)) && outstanding >= 1)
      ensures !ok ==> cache == old(cache) && Header() == old(Header())
      ensures ok ==> cache == old(cache)[b := x]
      ensures ok ==> Header() == if b in old(Header()) then old(Header()) else old(Header()) + [b]
    {
      ok := !(n >= LOGSIZE || n >= pm.size - 1) && outstanding >= 1;
      if !ok { return; }
      var i := 0;
      while i < n
        invariant 0 <= i <= n && b !in block[..i]
      {
        if block[i] == b { break; }
        i := i + 1;
      }
      ghost var h := block[..n];
      block[i] := b;
      assert i == n ==> b !in h;
      if i == n { n := n + 1; }
      cache := cache[b := x];
      assert block[..n] == if b in h then h else h + [b];
    }

    method WriteHead()
      requires Valid()
      modifies this`cache, this`disk, this`trace
      ensures Valid() && trace == old(trace) + [disk]
      ensures disk == old(disk)[pm.start := WithHead(old(disk[pm.start]), Header())]
      ensures HeadOk(disk[pm.start]) && HeadList(disk[pm.start]) == Header()
      ensures cache == old(cache)[pm.start := disk[pm.start]]
    {
      hide WithHead, HeadList;
      var prev := Bread(pm.start);
      var hb: seq<int> := prev[0 := n];
      var i := 0;
      HeadLoop(prev, [], n, 0);
      assert block[..0] == [];
      while i < n
        modifies {}
        invariant 0 <= i <= n && hb == WithHead(prev, block[..i])[0 := n]
      {
        HeadLoop(prev, block[..i], n, block[i]);
        hb := hb[1 + i := block[i]];
        assert block[..i + 1] == block[..i] + [block[i]];
        i := i + 1;
      }
      HeadLoop(prev, block[..n], n, 0);
      HeadRoundTrip(prev, Header());
      Bwrite(pm.start, hb);
    }

    method ReadHead()
      requires Valid() && HeadOk(disk[pm.start])
      modifies this`n, this`cache, block
      ensures Valid() && Header() == HeadList(disk[pm.start])
      ensures cache == old(cache)[pm.start := disk[pm.start]]
    {
      var h := Bread(pm.start);
      n := h[0];
      var i := 0;
      while i < n
        modifies block
        invariant Valid() && 0 <= i <= n == h[0] && block[..i] == h[1..1 + i]
      {
        block[i] := h[1 + i];
        assert block[..i + 1] == block[..i] + [block[i]];
        i := i + 1;
      }
    }

    /** Copies the cached contents of the logged blocks into the log area. */
    method WriteLog(ghost base: seq<Block>) returns (ghost w: seq<seq<Block>>)
      requires Valid() && n < pm.size && |base| == pm.nblocks && DiskGood(pm, disk, base) && HeadList(disk[pm.start]) == []
      requires forall j | 0 <= j < n :: pm.Home(block[j]) && block[j] in cache
      modifies this`cache, this`disk, this`trace
      ensures Valid() && DiskGood(pm, disk, base) && HeadList(disk[pm.start]) == []
      ensures LogHas(pm, disk, old(cache), Header(), n) && HomeKept(pm, old(disk), old(cache), disk, cache)
      ensures trace == old(trace) + w && |w| == n && AllGood(pm, w, base)
    {
      hide DiskGood, AllGood, HeadList, HomeKept, LogHas;
      AllGoodNil(pm, base);
      ghost var lh := Header();
      LogNone(pm, disk, cache, lh);
      assert forall j | 0 <= j < n :: lh[j] == block[j];
      var tail := 0;
      w := [];
      while tail < n
        invariant 0 <= tail <= n && Valid() && DiskGood(pm, disk, base) && HeadList(disk[pm.start]) == []
        invariant LogHas(pm, disk, old(cache), lh, tail) && HomeKept(pm, old(disk), old(cache), disk, cache)
        invariant trace == old(trace) + w && |w| == tail && AllGood(pm, w, base)
      {
        assert lh[tail] == block[tail];
        LogOne(pm, old(disk), old(cache), disk, cache, lh, tail);
        LogWriteDisk(pm, disk, base, pm.start + tail + 1, cache[lh[tail]]);
        CopyBlock(block[tail], pm.start + tail + 1);
        OneMoreGood(pm, old(trace), w, disk, base);
        w := w + [disk];
        tail := tail + 1;
      }
    }

    /** Copies the log area to the home locations. */
    method InstallTrans(ghost img: seq<Block>) returns (ghost w: seq<seq<Block>>)
      requires Valid() && |img| == pm.nblocks && DiskGood(pm, disk, img) && HeadList(disk[pm.start]) == Header()
      modifies this`cache, this`disk, this`trace
      ensures Valid() && SameHome(pm, disk, img) && disk == Installed(pm, old(disk), Header(), n)
      ensures trace == old(trace) + w && |w| == n && AllGood(pm, w, img)
    {
      hide DiskGood, HeadList, AllGood, Installed, Distinct;
      HeadFits(pm, disk, img);
      InstalledStep(pm, disk, Header());
      HeadHome(pm, disk, img);
      AllGoodNil(pm, img);
      ghost var lh := Header();
      var tail := 0;
      w := [];
      while tail < n
        invariant 0 <= tail <= n && Valid() && DiskGood(pm, disk, img) && HeadList(disk[pm.start]) == lh
        invariant forall j | 0 <= j < tail :: disk[lh[j]] == img[lh[j]]
        invariant disk == Installed(pm, old(disk), lh, tail)
        invariant trace == old(trace) + w && |w| == tail && AllGood(pm, w, img)
      {
        assert block[tail] == lh[tail] && pm.Home(lh[tail]);
        InstallDisk(pm, disk, img, tail);
        CopyBlock(pm.start + tail + 1, block[tail]);
        OneMoreGood(pm, old(trace), w, disk, img);
        w := w + [disk];
        tail := tail + 1;
      }
      AllHome(pm, disk, img);
    }

    /** The first half of commit: write_log, then the header write that commits. */
    method MakeDurable(ghost base: seq<Block>, ghost img: seq<Block>) returns (ghost w: seq<seq<Block>>)
      requires Valid() && n < pm.size && |base| == |img| == pm.nblocks && Distinct(Header())
      requires DiskGood(pm, disk, base) && HeadList(disk[pm.start]) == []
      requires forall j | 0 <= j < n :: pm.Home(block[j]) && block[j] in cache
      requires forall b | pm.Home(b) :: img[b] == if b in Header() && b in cache then cache[b] else base[b]
      modifies this`cache, this`disk, this`trace
      ensures Valid() && DiskGood(pm, disk, img) && HeadList(disk[pm.start]) == Header()
      ensures trace == old(trace) + w + [disk] && |w| == n && AllGood(pm, w, base)
    {
      hide DiskGood, HeadList, AllGood, WithHead, LogCopied;
      ghost var lh := Header();
      w := WriteLog(base);
      ghost var d1 := disk;
      LoggedReady(pm, d1, base, img, lh, old(cache));
      WriteHead();
      CommitDisk(pm, d1, img, disk[pm.start], lh);
    }

    /** The second half: install_trans, then the header write that empties the log. */
    method Finish(ghost img: seq<Block>) returns (ghost w: seq<seq<Block>>)
      requires Valid() && |img| == pm.nblocks && DiskGood(pm, disk, img) && HeadList(disk[pm.start]) == Header()
      modifies this`n, this`cache, this`disk, this`trace
      ensures Valid() && n == 0 && HeadList(disk[pm.start]) == [] && SameHome(pm, disk, img)
      ensures trace == old(trace) + w && |w| == old(n) + 1 && AllGood(pm, w, img)
    {
      hide DiskGood, HeadList, AllGood, WithHead, Installed;
      w := InstallTrans(img);
      n := 0;
      ghost var d := disk;
      WriteHead();
      ClearDisk(pm, d, img, disk[pm.start]);
      OneMoreGood(pm, old(trace), w, disk, img);
      w := w + [disk];
    }

    /** commit: the n + 1st of its 2n + 2 block writes is the one that commits. */
    method Commit(ghost base: seq<Block>, ghost img: seq<Block>) returns (ghost w: seq<seq<Block>>)
      requires Valid() && n < pm.size && |base| == |img| == pm.nblocks && Distinct(Header())
      requires DiskGood(pm, disk, base) && HeadList(disk[pm.start]) == []
      requires forall j | 0 <= j < n :: pm.Home(block[j]) && block[j] in cache
      requires forall b | pm.Home(b) :: img[b] == if b in Header() && b in cache then cache[b] else base[b]
      modifies this`n, this`cache, this`disk, this`trace
      ensures Valid() && n == 0 && HeadList(disk[pm.start]) == [] && SameHome(pm, disk, img)
      ensures trace == old(trace) + w && |w| == if old(n) > 0 then 2 * old(n) + 2 else 0
      ensures AllGood(pm, w[..old(n)], base) && AllGood(pm, w[old(n)..], img)
    {
      hide DiskGood, HeadList, AllGood;
      w := [];
      AllGoodNil(pm, base);
      AllGoodNil(pm, img);
      if n > 0 {
        ghost var w1 := MakeDurable(base, img);
        ghost var d := disk;
        ghost var w2 := Finish(img);
        w := w1 + ([d] + w2);
        CommitRecord(pm, old(trace), w1, d, w2, img);
      } else {
        AllHome(pm, disk, base);
      }
    }

    /** recover_from_log: computes Recovered, and every crash point recovers to the same image. */
    method RecoverFromLog(ghost img: seq<Block>) returns (ghost w: seq<seq<Block>>)
      requires Valid() && cache == map[] && |img| == pm.nblocks && DiskGood(pm, disk, img)
      modifies this`n, this`cache, this`disk, this`trace, block
      ensures Valid() && n == 0 && HeadList(disk[pm.start]) == []
      ensures SameHome(pm, disk, img) && SameHome(pm, disk, Recovered(pm, old(disk)))
      ensures trace == old(trace) + w && AllGood(pm, w, img)
    {
      RecoveryRestores(pm, disk, img);
      ReadHead();
      w := Finish(img);
    }
  }
}
