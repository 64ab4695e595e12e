/**
 The budget of ten blocks is exact: a consistent file system from which any transaction that
 writes one chunk, however it is done, has to log ten blocks.
 */
module FsTight {
  import opened FsSpec
  import opened FsSteps
  import opened Fs
  import opened FileIo

  /** One byte into the last block an inode addresses directly. */
  const OFF := 5633  // 11 * BSIZE + 1

  predicate Zero(b: Blk) {
    forall k | 0 <= k < BSIZE :: b[k] == 0
  }

  /** Exactly four blocks are free, each on a bitmap block of its own. */
  ghost predicate FourFree(sb: Super, f: Files, free: seq<nat>) {
    && |free| == 4 && |f.bits| == |f.blocks| == sb.size
    && (forall b: nat | b < |f.bits| && !f.bits[b] :: b in free)
    && (forall m | 0 <= m < 4 :: free[m] < |f.bits| && !f.bits[free[m]])
    && (forall m, n | 0 <= m < n < 4 :: sb.BBlock(free[m]) != sb.BBlock(free[n]))
  }

  /** File i ends one byte into its twelfth block, and its blocks and the free ones are zero. */
  ghost predicate Ready12(f: Files, i: nat, free: seq<nat>) {
    && i < |f.inodes| && f.inodes[i].size == OFF && f.inodes[i].typ != 0 && f.inodes[i].typ != T_DEV
    && (forall b: nat | b in free && b < |f.blocks| :: Zero(f.blocks[b]))
    && (forall k: nat | k < NDIRECT :: f.inodes[i].addrs[k] < |f.blocks| ==> Zero(f.blocks[f.inodes[i].addrs[k]]))
  }

  ghost function Slots(ino: Dinode, blocks: seq<Blk>, n: nat): (r: seq<nat>)
    requires n <= NSLOT
    ensures |r| == n && forall k: nat | k < n :: r[k] == Slot(ino, blocks, k)
  {
    seq(n, k requires 0 <= k < n => Slot(ino, blocks, k))
  }

  ghost function Members(s: seq<nat>): set<nat> {
    set b | b in s
  }

  lemma {:induction false} MembersBound(s: seq<nat>)
    ensures |Members(s)| <= |s|
    ensures (forall i, j | 0 <= i < j < |s| :: s[i] != s[j]) ==> |Members(s)| == |s|
  {
    if s != [] {
      var n := |s| - 1;
      MembersBound(s[..n]);
      assert Members(s) == Members(s[..n]) + {s[n]};
    }
  }

  /** A set inside one that is no larger is all of it. */
  lemma Filled(a: set<nat>, c: set<nat>, b: nat)
    requires a <= c && |c| <= |a| && b in c
    ensures b in a
  {
    assert c == a + (c - a);
    assert |c - a| == 0;
  }

  // Slots of the file before and after

  lemma SlotsBefore(sb: Super, f: Files, i: nat)
    requires Good(sb, f) && i < |f.inodes| && f.inodes[i].size == OFF
    ensures forall k: nat | k < NSLOT :: Slot(f.inodes[i], f.blocks, k) != 0 <==> k < NDIRECT
  {
    hide Owned, Slot;
    assert FileOk(f.inodes[i], f.blocks);
    forall k: nat | k < NSLOT
      ensures Slot(f.inodes[i], f.blocks, k) != 0 <==> k < NDIRECT
    {
      if k != NDIRECT {
        var bn := if k < NDIRECT then k else k - 1;
        assert SlotOf(bn) == k && Addr(f.inodes[i], f.blocks, bn) == Slot(f.inodes[i], f.blocks, k);
      } else {
        AddrSlot(f.inodes[i], f.blocks);
      }
    }
  }

  lemma AddrSlot(ino: Dinode, blocks: seq<Blk>)
    ensures Slot(ino, blocks, NDIRECT) == ino.addrs[NDIRECT]
  {
  }

  lemma SlotsAfter(sb: Super, f: Files, i: nat)
    requires Good(sb, f) && i < |f.inodes| && f.inodes[i].size == OFF + CHUNK
    ensures forall k: nat | k < 16 :: Slot(f.inodes[i], f.blocks, k) != 0
  {
    hide Owned, Slot;
    assert FileOk(f.inodes[i], f.blocks);
    forall k: nat | k < 16
      ensures Slot(f.inodes[i], f.blocks, k) != 0
    {
      if k != NDIRECT {
        var bn := if k < NDIRECT then k else k - 1;
        assert SlotOf(bn) == k && Addr(f.inodes[i], f.blocks, bn) == Slot(f.inodes[i], f.blocks, k);
      } else {
        AddrSlot(f.inodes[i], f.blocks);
      }
    }
  }

  lemma SlotsDistinct(sb: Super, f: Files, i: nat, k: nat, l: nat)
    requires Good(sb, f) && i < |f.inodes| && k < l < NSLOT && Slot(f.inodes[i], f.blocks, k) != 0
    ensures Slot(f.inodes[i], f.blocks, k) != Slot(f.inodes[i], f.blocks, l)
  {
    hide Slot;
    assert SlotOwned(f.inodes, f.blocks, f.owner, i, k) && SlotOwned(f.inodes, f.blocks, f.owner, i, l);
  }

  lemma SlotUsed(sb: Super, f: Files, i: nat, k: nat)
    requires Good(sb, f) && i < |f.inodes| && k < NSLOT && Slot(f.inodes[i], f.blocks, k) != 0
    ensures var b := Slot(f.inodes[i], f.blocks, k); sb.nmeta <= b < sb.size == |f.bits| == |f.blocks| && f.bits[b]
  {
    hide Slot;
    assert SlotOwned(f.inodes, f.blocks, f.owner, i, k);
  }

  lemma OneOwner(sb: Super, f: Files, i: nat, k: nat, j: nat, l: nat)
    requires Good(sb, f) && i < |f.inodes| && k < NSLOT && j < |f.inodes| && l < NSLOT && Slot(f.inodes[i], f.blocks, k) != 0
    ensures Slot(f.inodes[j], f.blocks, l) == Slot(f.inodes[i], f.blocks, k) ==> i == j && k == l
  {
    hide Slot;
    assert SlotOwned(f.inodes, f.blocks, f.owner, i, k) && SlotOwned(f.inodes, f.blocks, f.owner, j, l);
  }

  /** A block of the file afterwards was free before or belonged to the file. */
  lemma WasOwn(sb: Super, f: Files, f': Files, i: nat, k: nat, free: seq<nat>)
    requires Good(sb, f) && Good(sb, f') && FourFree(sb, f, free) && i < |f.inodes| == |f'.inodes| && f.inodes[i].size == OFF && k < NSLOT
    requires forall j | 0 <= j < |f.inodes| && j != i :: f'.inodes[j] == f.inodes[j] && KeptFile(f.inodes[j], f.blocks, f'.blocks)
    requires Slot(f'.inodes[i], f'.blocks, k) != 0
    ensures var b := Slot(f'.inodes[i], f'.blocks, k); b in free || b in Slots(f.inodes[i], f.blocks, NDIRECT)
  {
    hide Slot, FourFree, FileBlock;
    var b := Slot(f'.inodes[i], f'.blocks, k);
    SlotUsed(sb, f', i, k);
    SlotsBefore(sb, f, i);
    FreeIs(sb, f, free, b);
    if b !in free {
      var j, l := f.owner[b].0, f.owner[b].1;
      assert Holds(f.inodes, f.blocks, j, l, b);
      assert j != i ==> KeptFile(f.inodes[j], f.blocks, f'.blocks);
      assert j != i ==> Slot(f'.inodes[j], f'.blocks, l) == b;
      OneOwner(sb, f', i, k, j, l);
      assert Slots(f.inodes[i], f.blocks, NDIRECT)[l] == b;
    }
  }

  lemma FreeIs(sb: Super, f: Files, free: seq<nat>, b: nat)
    requires FourFree(sb, f, free) && b < sb.size
    ensures |f.bits| == sb.size && (!f.bits[b] <==> b in free)
  {
    if b in free {
      var m :| 0 <= m < 4 && free[m] == b;
    }
  }

  // What has to be logged

  /** Every free block is taken, because sixteen blocks need room among twelve and four. */
  lemma AllTaken(sb: Super, f: Files, f': Files, i: nat, free: seq<nat>, m: nat)
    requires Good(sb, f) && Good(sb, f') && FourFree(sb, f, free) && i < |f.inodes| == |f'.inodes| && f.inodes[i].size == OFF
    requires forall j | 0 <= j < |f.inodes| && j != i :: f'.inodes[j] == f.inodes[j] && KeptFile(f.inodes[j], f.blocks, f'.blocks)
    requires f'.inodes[i].size == OFF + CHUNK && m < 4
    ensures exists k: nat :: k < 16 && Slot(f'.inodes[i], f'.blocks, k) == free[m]
  {
    hide Good, Slot, FourFree, KeptFile;
    var was, now := Slots(f.inodes[i], f.blocks, NDIRECT), Slots(f'.inodes[i], f'.blocks, 16);
    SlotsAfter(sb, f', i);
    forall k: nat, l: nat | k < l < 16
      ensures now[k] != now[l]
    {
      SlotsDistinct(sb, f', i, k, l);
    }
    forall b | b in Members(now)
      ensures b in Members(was + free)
    {
      var k: nat :| k < 16 && now[k] == b;
      WasOwn(sb, f, f', i, k, free);
    }
    MembersBound(now);
    MembersBound(was + free);
    FourLong(sb, f, free);
    assert free[m] in was + free;
    Filled(Members(now), Members(was + free), free[m]);
    var k: nat :| k < 16 && now[k] == free[m];
  }

  lemma FourLong(sb: Super, f: Files, free: seq<nat>)
    requires FourFree(sb, f, free)
    ensures |free| == 4
  {
  }

  /** So its bit changes. */
  lemma BitLogged(sb: Super, f: Files, f': Files, i: nat, off: nat, x: seq<byte>, logged: set<nat>, free: seq<nat>, m: nat)
    requires Good(sb, f) && ChunkDone(sb, f, f', i, off, x, logged) && FourFree(sb, f, free) && m < 4
    requires f.inodes[i].size == OFF && f'.inodes[i].size == OFF + CHUNK
    ensures sb.BBlock(free[m]) in logged && sb.bmapstart <= sb.BBlock(free[m]) < sb.nmeta
  {
    hide Consistent, Slot, KeptFile, Contents;
    AllTaken(sb, f, f', i, free, m);
    var k: nat :| k < 16 && Slot(f'.inodes[i], f'.blocks, k) == free[m];
    SlotsAfter(sb, f', i);
    SlotUsed(sb, f', i, k);
    GoodSuper(sb, f);
  }

  lemma GoodSuper(sb: Super, f: Files)
    requires Good(sb, f)
    ensures sb.Valid() && |f.bits| == |f.blocks| == sb.size && |f.inodes| == sb.ninodes
  {
  }

  /** A block of the file that held zeros and holds something else now. */
  lemma DataLogged(sb: Super, f: Files, f': Files, i: nat, off: nat, x: seq<byte>, logged: set<nat>, free: seq<nat>, k: nat)
    requires Good(sb, f) && ChunkDone(sb, f, f', i, off, x, logged) && FourFree(sb, f, free) && Ready12(f, i, free)
    requires k < NSLOT && Slot(f'.inodes[i], f'.blocks, k) != 0
    requires var b := Slot(f'.inodes[i], f'.blocks, k); b < |f'.blocks| ==> !Zero(f'.blocks[b])
    ensures var b := Slot(f'.inodes[i], f'.blocks, k); b in logged && sb.nmeta <= b
  {
    hide Consistent, Slot, KeptFile, Contents, FourFree, Zero;
    var b := Slot(f'.inodes[i], f'.blocks, k);
    SlotUsed(sb, f', i, k);
    WasOwn(sb, f, f', i, k, free);
    GoodSuper(sb, f);
    WasZero(sb, f, i, free, b);
  }

  lemma WasZero(sb: Super, f: Files, i: nat, free: seq<nat>, b: nat)
    requires Ready12(f, i, free) && b < |f.blocks| && (b in free || b in Slots(f.inodes[i], f.blocks, NDIRECT))
    ensures Zero(f.blocks[b])
  {
    hide Zero;
    if b !in free {
      var k: nat :| k < NDIRECT && Slots(f.inodes[i], f.blocks, NDIRECT)[k] == b;
      assert f.inodes[i].addrs[k] == b;
    }
  }

  /** The four blocks the chunk reaches into, and the table, hold something afterwards. */
  lemma NotZero(sb: Super, f: Files, f': Files, i: nat, x: seq<byte>, logged: set<nat>, bn: nat)
    requires Good(sb, f) && ChunkDone(sb, f, f', i, OFF, x, logged) && f.inodes[i].size == OFF && f.inodes[i].typ != T_DEV
    requires |x| == CHUNK && (forall k | 0 <= k < |x| :: x[k] == 1) && 11 <= bn < 15
    ensures f'.inodes[i].size == OFF + CHUNK
    ensures var b := Addr(f'.inodes[i], f'.blocks, bn); 0 < b < |f'.blocks| ==> !Zero(f'.blocks[b])
  {
    hide Good, KeptFile, Slot, Within, OthersKept;
    var o: nat := if bn == 11 then OFF else bn * BSIZE;
    var c := Contents(f'.inodes[i], f'.blocks);
    assert c == Splice(Contents(f.inodes[i], f.blocks), OFF, x);
    assert c[o] == x[o - OFF] == 1;
    assert ByteAt(f'.inodes[i], f'.blocks, o) == 1;
  }

  lemma TableNotZero(ino: Dinode, blocks: seq<Blk>)
    requires 0 < ino.addrs[NDIRECT] < |blocks| && Slot(ino, blocks, NDIRECT + 1) != 0
    ensures !Zero(blocks[ino.addrs[NDIRECT]])
  {
    assert Slot(ino, blocks, NDIRECT + 1) == Word(blocks[ino.addrs[NDIRECT]], 0);
  }

  /** The last direct block, the table and the first three blocks in it. */
  lemma FiveLogged(sb: Super, f: Files, f': Files, i: nat, x: seq<byte>, logged: set<nat>, free: seq<nat>, k: nat)
    requires Good(sb, f) && ChunkDone(sb, f, f', i, OFF, x, logged) && FourFree(sb, f, free) && Ready12(f, i, free)
    requires |x| == CHUNK && (forall k | 0 <= k < |x| :: x[k] == 1) && 11 <= k < 16
    ensures var b := Slot(f'.inodes[i], f'.blocks, k); b in logged && sb.nmeta <= b
  {
    hide Consistent, Slot, KeptFile, Contents, FourFree, Zero, Within, OthersKept;
    var bn := if k == 12 then 12 else if k == 11 then 11 else k - 1;
    NotZero(sb, f, f', i, x, logged, bn);
    SlotsAfter(sb, f', i);
    SlotUsed(sb, f', i, k);
    if k == NDIRECT {
      AddrSlot(f'.inodes[i], f'.blocks);
      TableNotZero(f'.inodes[i], f'.blocks);
    } else {
      assert SlotOf(bn) == k && Addr(f'.inodes[i], f'.blocks, bn) == Slot(f'.inodes[i], f'.blocks, k);
    }
    DataLogged(sb, f, f', i, OFF, x, logged, free, k);
  }

  /** Whatever transaction writes a chunk there logs ten blocks. */
  lemma TenBlocks(sb: Super, f: Files, f': Files, i: nat, x: seq<byte>, logged: set<nat>, free: seq<nat>)
    requires Good(sb, f) && ChunkDone(sb, f, f', i, OFF, x, logged) && FourFree(sb, f, free) && Ready12(f, i, free)
    requires |x| == CHUNK && forall k | 0 <= k < |x| :: x[k] == 1
    ensures |logged| == MAXOPBLOCKS
  {
    hide Consistent, Slot, KeptFile, Contents, Zero, OthersKept;
    NotZero(sb, f, f', i, x, logged, 11);
    SlotsAfter(sb, f', i);
    GoodSuper(sb, f);
    var five := seq(5, k requires 0 <= k < 5 => Slot(f'.inodes[i], f'.blocks, 11 + k));
    forall k: nat | k < 5
      ensures five[k] in logged && sb.nmeta <= five[k]
    {
      FiveLogged(sb, f, f', i, x, logged, free, 11 + k);
    }
    forall k: nat, l: nat | k < l < 5
      ensures five[k] != five[l]
    {
      SlotsDistinct(sb, f', i, 11 + k, 11 + l);
    }
    var four := seq(4, m requires 0 <= m < 4 => sb.BBlock(free[m]));
    forall m: nat | m < 4
      ensures four[m] in logged && sb.bmapstart <= four[m] < sb.nmeta
    {
      BitLogged(sb, f, f', i, OFF, x, logged, free, m);
    }
    TenOf(sb, five, four, sb.IBlock(i), logged);
  }

  lemma TenOf(sb: Super, five: seq<nat>, four: seq<nat>, one: nat, logged: set<nat>)
    requires |five| == 5 && (forall k: nat | k < 5 :: five[k] in logged && sb.nmeta <= five[k])
    requires |four| == 4 && (forall k: nat | k < 4 :: four[k] in logged && sb.bmapstart <= four[k] < sb.nmeta)
    requires one in logged && one < sb.bmapstart
    requires (forall k, l | 0 <= k < l < 5 :: five[k] != five[l]) && (forall k, l | 0 <= k < l < 4 :: four[k] != four[l])
    ensures |logged| >= 10
  {
    MembersBound(five);
    MembersBound(four);
    var a, b := Members(five), Members(four);
    assert forall y | y in a :: y in logged && sb.nmeta <= y;
    assert forall y | y in b :: y in logged && sb.bmapstart <= y < sb.nmeta;
    hide Members;
    assert |a + b| == 9;
    assert |a + b + {one}| == 10;
    assert logged == a + b + {one} + (logged - (a + b + {one}));
  }
}
