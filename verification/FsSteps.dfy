/**
 What single steps of bmap and writei do to slots, contents and the log budget, as relations
 between the state before and after, with the lemmas that compose them.
 */
module FsSteps {
  import opened FsSpec

  const MAXOPBLOCKS := 10

  /** Every block whose contents changed, and the bitmap block of every bit that changed, is
      among the logged blocks. */
  ghost predicate Covered(sb: Super, bits: seq<bool>, blocks: seq<Blk>, bits': seq<bool>, blocks': seq<Blk>, logged: set<nat>) {
    && |bits'| == |bits| && |blocks'| == |blocks|
    && (forall b | 0 <= b < |blocks| && blocks'[b] != blocks[b] :: b in logged)
    && (forall b | 0 <= b < |bits| && bits'[b] != bits[b] :: sb.BBlock(b) in logged)
  }

  lemma CoveredSame(sb: Super, bits: seq<bool>, blocks: seq<Blk>, logged: set<nat>)
    ensures Covered(sb, bits, blocks, bits, blocks, logged)
  {
  }

  /** Freeing for inode i: the bitmap block of every bit that changed is logged, and nothing else
      but the inode's own block; the log takes them all while there are fewer than a
      transaction may have. */
  ghost predicate Freeing(sb: Super, i: nat, bits0: seq<bool>, logs0: set<nat>, over0: bool, bits: seq<bool>, logs: set<nat>, over: bool) {
    && |bits| == |bits0| && (forall b | 0 <= b < |bits| && bits[b] != bits0[b] :: sb.BBlock(b) in logs)
    && logs0 <= logs && |logs0| <= |logs| && (|logs| < MAXOPBLOCKS ==> over == over0)
    && (forall x | x in logs :: x in logs0 || x == sb.IBlock(i) || sb.bmapstart <= x <= sb.bmapstart + sb.size / BPB)
  }

  lemma FreeingNone(sb: Super, i: nat, bits: seq<bool>, logs: set<nat>, over: bool)
    ensures Freeing(sb, i, bits, logs, over, bits, logs, over)
  {
  }

  lemma FreeingBit(sb: Super, i: nat, bits0: seq<bool>, logs0: set<nat>, over0: bool, bits: seq<bool>, logs: set<nat>, over: bool, b: nat)
    requires Freeing(sb, i, bits0, logs0, over0, bits, logs, over) && b < |bits| <= sb.size
    ensures Freeing(sb, i, bits0, logs0, over0, bits[b := false], logs + {sb.BBlock(b)}, over || |logs| >= MAXOPBLOCKS)
  {
    if sb.BBlock(b) in logs { assert logs + {sb.BBlock(b)} == logs; }
  }

  lemma FreeingInode(sb: Super, i: nat, bits0: seq<bool>, logs0: set<nat>, over0: bool, bits: seq<bool>, logs: set<nat>, over: bool)
    requires Freeing(sb, i, bits0, logs0, over0, bits, logs, over)
    ensures Freeing(sb, i, bits0, logs0, over0, bits, logs + {sb.IBlock(i)}, over || |logs| >= MAXOPBLOCKS)
  {
    if sb.IBlock(i) in logs { assert logs + {sb.IBlock(i)} == logs; }
  }

  lemma FreeingTrans(sb: Super, i: nat, bits0: seq<bool>, logs0: set<nat>, over0: bool, bits1: seq<bool>, logs1: set<nat>, over1: bool,
                     bits: seq<bool>, logs: set<nat>, over: bool)
    requires Freeing(sb, i, bits0, logs0, over0, bits1, logs1, over1) && Freeing(sb, i, bits1, logs1, over1, bits, logs, over)
    ensures Freeing(sb, i, bits0, logs0, over0, bits, logs, over)
  {
  }

  lemma FreeingCovers(sb: Super, i: nat, bits0: seq<bool>, logs0: set<nat>, over0: bool, bits: seq<bool>, logs: set<nat>, over: bool, blocks: seq<Blk>)
    requires Freeing(sb, i, bits0, logs0, over0, bits, logs, over)
    ensures Covered(sb, bits0, blocks, bits, blocks, logs) && logs0 <= logs
  {
  }

  /** A transaction that only frees logs at most the bitmap and one block more. */
  lemma FreeingFits(sb: Super, i: nat, bits0: seq<bool>, over0: bool, bits: seq<bool>, logs: set<nat>, over: bool)
    requires Freeing(sb, i, bits0, {}, over0, bits, logs, over)
    ensures |logs| <= sb.size / BPB + 2 && (sb.size < 8 * BPB ==> over == over0)
  {
    var rest := logs - {sb.IBlock(i)};
    IntervalCard(sb.bmapstart, sb.size / BPB + 1, rest);
    if sb.IBlock(i) in logs { assert |rest| == |logs| - 1; } else { assert rest == logs; }
  }

  /** How many blocks there can be. */
  lemma {:induction false} IntervalCard(a: nat, n: nat, s: set<nat>)
    requires forall x | x in s :: a <= x < a + n
    ensures |s| <= n
    decreases n
  {
    if n == 0 {
      assert s == {};
    } else {
      IntervalCard(a, n - 1, s - {a + n - 1});
      if a + n - 1 in s { assert |s - {a + n - 1}| == |s| - 1; } else { assert s - {a + n - 1} == s; }
    }
  }

  lemma CoveredOne(sb: Super, bits: seq<bool>, blocks: seq<Blk>, blocks': seq<Blk>, logged: set<nat>, b: nat)
    requires b < |blocks| == |blocks'| && b in logged && blocks' == blocks[b := blocks'[b]]
    ensures Covered(sb, bits, blocks, bits, blocks', logged)
  {
  }

  lemma CoveredTrans(sb: Super, bits: seq<bool>, blocks: seq<Blk>, bits1: seq<bool>, blocks1: seq<Blk>, bits2: seq<bool>, blocks2: seq<Blk>,
                     logs1: set<nat>, logs2: set<nat>)
    requires Covered(sb, bits, blocks, bits1, blocks1, logs1) && Covered(sb, bits1, blocks1, bits2, blocks2, logs2) && logs1 <= logs2
    ensures Covered(sb, bits, blocks, bits2, blocks2, logs2)
  {
  }

  ghost predicate KeptFile(ino: Dinode, blocks: seq<Blk>, blocks': seq<Blk>) {
    && (forall k | 0 <= k < NSLOT :: Slot(ino, blocks', k) == Slot(ino, blocks, k))
    && (forall bn | 0 <= bn < MAXFILE :: FileBlock(ino, blocks', bn) == FileBlock(ino, blocks, bn))
  }

  lemma KeptSame(inodes: seq<Dinode>, blocks: seq<Blk>)
    ensures forall j | 0 <= j < |inodes| :: KeptFile(inodes[j], blocks, blocks)
  {
  }

  lemma OwnedSized(sb: Super, bits: seq<bool>, blocks: seq<Blk>, inodes: seq<Dinode>, owner: Owners)
    requires Owned(sb, bits, blocks, inodes, owner)
    ensures sb.Valid() && |bits| == |blocks| == sb.size && |inodes| == sb.ninodes
    ensures forall b | 0 <= b < sb.nmeta :: bits[b]
  {
  }

  /** What bmap does to slots and contents: block bn is there afterwards, nothing else moves. */
  ghost predicate Mapped(inodes: seq<Dinode>, blocks: seq<Blk>, inodes': seq<Dinode>, blocks': seq<Blk>, i: nat, bn: nat) {
    && |inodes'| == |inodes| && |blocks'| == |blocks| && i < |inodes| && bn < MAXFILE
    && (forall j | 0 <= j < |inodes| && j != i :: inodes'[j] == inodes[j] && KeptFile(inodes[j], blocks, blocks'))
    && (forall x | 0 <= x < MAXFILE :: FileBlock(inodes'[i], blocks', x) == FileBlock(inodes[i], blocks, x))
    && (forall x | 0 <= x < MAXFILE && x != bn :: Addr(inodes'[i], blocks', x) == Addr(inodes[i], blocks, x))
    && Addr(inodes'[i], blocks', bn) != 0
    && (Addr(inodes[i], blocks, bn) != 0 ==> inodes' == inodes && blocks' == blocks)
    && inodes'[i] == inodes[i].(addrs := inodes'[i].addrs)
    && (bn >= NDIRECT ==> inodes'[i].addrs[NDIRECT] != 0)
    && (bn < NDIRECT || inodes[i].addrs[NDIRECT] != 0 ==> inodes'[i].addrs[NDIRECT] == inodes[i].addrs[NDIRECT])
  }

  lemma MappedAlready(inodes: seq<Dinode>, blocks: seq<Blk>, i: nat, bn: nat)
    requires i < |inodes| && bn < MAXFILE && Addr(inodes[i], blocks, bn) != 0
    ensures Mapped(inodes, blocks, inodes, blocks, i, bn)
  {
  }

  lemma MappedByOne(inodes: seq<Dinode>, blocks: seq<Blk>, inodes': seq<Dinode>, blocks': seq<Blk>, i: nat, bn: nat, b: nat)
    requires bn < MAXFILE && Allocated(inodes, blocks, inodes', blocks', i, SlotOf(bn), b) && b != 0
    requires Addr(inodes[i], blocks, bn) == 0 && (bn >= NDIRECT ==> inodes[i].addrs[NDIRECT] != 0)
    requires inodes' == inodes[i := inodes[i].(addrs := inodes'[i].addrs)]
    ensures Mapped(inodes, blocks, inodes', blocks', i, bn)
  {
    hide Word;
    assert forall j | 0 <= j < |inodes| :: Slot(inodes[j], blocks, NDIRECT) == inodes[j].addrs[NDIRECT];
    assert forall j | 0 <= j < |inodes| :: Slot(inodes'[j], blocks', NDIRECT) == inodes'[j].addrs[NDIRECT];
  }

  lemma MappedByTwo(inodes: seq<Dinode>, blocks: seq<Blk>, inodes1: seq<Dinode>, blocks1: seq<Blk>, inodes2: seq<Dinode>, blocks2: seq<Blk>,
                    i: nat, bn: nat, t: nat, b: nat)
    requires NDIRECT <= bn < MAXFILE && b != 0 && t != 0
    requires Allocated(inodes, blocks, inodes1, blocks1, i, NDIRECT, t) && Allocated(inodes1, blocks1, inodes2, blocks2, i, bn + 1, b)
    requires inodes[i].addrs[NDIRECT] == 0
    requires inodes1 == inodes[i := inodes[i].(addrs := inodes1[i].addrs)] && inodes2 == inodes1
    ensures Mapped(inodes, blocks, inodes2, blocks2, i, bn)
  {
    hide Word;
    assert forall j | 0 <= j < |inodes| :: Slot(inodes2[j], blocks2, NDIRECT) == inodes2[j].addrs[NDIRECT];
    assert Addr(inodes[i], blocks, bn) == 0;
  }

  /** A table allocated a moment ago has no entries. */
  lemma EmptyTable(inodes: seq<Dinode>, blocks: seq<Blk>, inodes': seq<Dinode>, blocks': seq<Blk>, i: nat, t: nat)
    requires Allocated(inodes, blocks, inodes', blocks', i, NDIRECT, t) && inodes[i].addrs[NDIRECT] == 0
    ensures forall k | NDIRECT < k < NSLOT :: Slot(inodes'[i], blocks', k) == 0
  {
    hide Word;
    assert forall k | NDIRECT < k < NSLOT :: Slot(inodes[i], blocks, k) == 0;
  }

  /** The blocks bmap logs, from the inode before and after. */
  function MapLogs(sb: Super, d: Dinode, blocks: seq<Blk>, d': Dinode, blocks': seq<Blk>, bn: nat): set<nat>
    requires bn < MAXFILE
  {
    var a, t := Addr(d', blocks', bn), d'.addrs[NDIRECT];
    (if Addr(d, blocks, bn) == 0 then {sb.BBlock(a), a} + (if bn >= NDIRECT then {t} else {}) else {}) +
    (if bn >= NDIRECT && d.addrs[NDIRECT] == 0 then {sb.BBlock(t), t} else {})
  }

  lemma NoTable(d: Dinode, blocks: seq<Blk>, bn: nat)
    requires NDIRECT <= bn < MAXFILE
    ensures d.addrs[NDIRECT] == 0 ==> Addr(d, blocks, bn) == 0
  {
  }

  /** How many more blocks bmap can log. */
  function MapCost(d: Dinode, blocks: seq<Blk>, bn: nat, logged: set<nat>): nat
    requires bn < MAXFILE
  {
    if Addr(d, blocks, bn) != 0 then 0
    else if bn < NDIRECT then 2
    else if d.addrs[NDIRECT] == 0 then 4
    else if d.addrs[NDIRECT] in logged then 2
    else 3
  }

  /** bzero has already logged a fresh block. */
  lemma FreshLogged(sb: Super, d: Dinode, blocks: seq<Blk>, d': Dinode, blocks': seq<Blk>, bn: nat)
    requires bn < MAXFILE
    ensures Addr(d, blocks, bn) == 0 ==> Addr(d', blocks', bn) in MapLogs(sb, d, blocks, d', blocks', bn)
    ensures Addr(d, blocks, bn) == 0 && bn >= NDIRECT ==> d'.addrs[NDIRECT] in MapLogs(sb, d, blocks, d', blocks', bn)
    ensures Addr(d, blocks, bn) == 0 ==> MapCost(d, blocks, bn, {}) > 0
  {
  }

  lemma SlotInData(sb: Super, bits: seq<bool>, blocks: seq<Blk>, inodes: seq<Dinode>, owner: Owners, i: nat, k: nat)
    requires Owned(sb, bits, blocks, inodes, owner) && i < |inodes| && k < NSLOT && Slot(inodes[i], blocks, k) != 0
    ensures sb.nmeta <= Slot(inodes[i], blocks, k) < sb.size && bits[Slot(inodes[i], blocks, k)]
  {
    assert SlotOwned(inodes, blocks, owner, i, k);
  }

  lemma SubCard(a: set<nat>, b: set<nat>)
    requires a <= b
    ensures |a| <= |b|
  {
    assert b == a + (b - a);
  }

  function Patch(b: Blk, bo: nat, x: seq<byte>): Blk
    requires bo + |x| <= BSIZE
  {
    b[..bo] + x + b[bo + |x|..]
  }

  function PatchIf(hit: bool, b: Blk, bo: nat, x: seq<byte>): Blk
    requires bo + |x| <= BSIZE
  {
    if hit then Patch(b, bo, x) else b
  }

  ghost predicate Patched(inodes: seq<Dinode>, blocks: seq<Blk>, blocks': seq<Blk>, i: nat, bn: nat, bo: nat, x: seq<byte>) {
    && bo + |x| <= BSIZE
    && (forall j, k | 0 <= j < |inodes| && 0 <= k < NSLOT :: Slot(inodes[j], blocks', k) == Slot(inodes[j], blocks, k))
    && (forall j, y | 0 <= j < |inodes| && 0 <= y < MAXFILE ::
          FileBlock(inodes[j], blocks', y) == PatchIf(j == i && y == bn, FileBlock(inodes[j], blocks, y), bo, x))
  }

  /** Only block bn of file i changes: it is allocated and patched. */
  ghost predicate Wrote(inodes: seq<Dinode>, blocks: seq<Blk>, inodes': seq<Dinode>, blocks': seq<Blk>, i: nat, bn: nat, bo: nat, x: seq<byte>) {
    && |inodes'| == |inodes| && |blocks'| == |blocks| && i < |inodes| && bn < MAXFILE && bo + |x| <= BSIZE
    && (forall j | 0 <= j < |inodes| && j != i :: inodes'[j] == inodes[j] && KeptFile(inodes[j], blocks, blocks'))
    && (forall y | 0 <= y < MAXFILE :: FileBlock(inodes'[i], blocks', y) ==
          PatchIf(y == bn, FileBlock(inodes[i], blocks, y), bo, x))
    && (forall y | 0 <= y < MAXFILE && y != bn :: Addr(inodes'[i], blocks', y) == Addr(inodes[i], blocks, y))
    && Addr(inodes'[i], blocks', bn) != 0
    && (Addr(inodes[i], blocks, bn) != 0 ==> inodes' == inodes)
    && inodes'[i] == inodes[i].(addrs := inodes'[i].addrs)
    && (bn >= NDIRECT ==> inodes'[i].addrs[NDIRECT] != 0)
    && (bn < NDIRECT || inodes[i].addrs[NDIRECT] != 0 ==> inodes'[i].addrs[NDIRECT] == inodes[i].addrs[NDIRECT])
  }

  lemma WroteKeeps(inodes: seq<Dinode>, blocks: seq<Blk>, inodes': seq<Dinode>, blocks': seq<Blk>, i: nat, bn: nat, bo: nat, x: seq<byte>)
    requires Wrote(inodes, blocks, inodes', blocks', i, bn, bo, x)
    ensures i < |inodes'| == |inodes| && inodes'[i] == inodes[i].(addrs := inodes'[i].addrs)
  {
  }

  lemma MappedAddr(inodes: seq<Dinode>, blocks: seq<Blk>, inodes': seq<Dinode>, blocks': seq<Blk>, i: nat, bn: nat)
    requires Mapped(inodes, blocks, inodes', blocks', i, bn)
    ensures bn < MAXFILE && i < |inodes'| && Addr(inodes'[i], blocks', bn) != 0
  {
  }

  /** Overwriting a data block of file i changes that block of that file only. */
  lemma PatchBlock(sb: Super, bits: seq<bool>, blocks: seq<Blk>, inodes: seq<Dinode>, owner: Owners, i: nat, bn: nat, bo: nat, x: seq<byte>)
    requires Owned(sb, bits, blocks, inodes, owner) && i < |inodes| && bn < MAXFILE && bo + |x| <= BSIZE
    requires 0 < Addr(inodes[i], blocks, bn) < |blocks|
    ensures var a := Addr(inodes[i], blocks, bn); var blocks' := blocks[a := Patch(blocks[a], bo, x)];
      Owned(sb, bits, blocks', inodes, owner) && Patched(inodes, blocks, blocks', i, bn, bo, x)
  {
    hide Slot;
    var a := Addr(inodes[i], blocks, bn);
    OneTable(sb, bits, blocks, inodes, owner, i, SlotOf(bn));
    DataWrite(sb, bits, blocks, inodes, owner, a, Patch(blocks[a], bo, x));
    assert SlotOwned(inodes, blocks, owner, i, SlotOf(bn));
    var blocks' := blocks[a := Patch(blocks[a], bo, x)];
    forall j, y | 0 <= j < |inodes| && 0 <= y < MAXFILE
      ensures FileBlock(inodes[j], blocks', y) == PatchIf(j == i && y == bn, FileBlock(inodes[j], blocks, y), bo, x)
    {
      assert SlotOwned(inodes, blocks, owner, j, SlotOf(y));
      assert Slot(inodes[j], blocks', SlotOf(y)) == Slot(inodes[j], blocks, SlotOf(y));
    }
  }

  lemma WroteAfterMap(inodes: seq<Dinode>, blocks: seq<Blk>, inodes': seq<Dinode>, blocks1: seq<Blk>, blocks': seq<Blk>, i: nat, bn: nat, bo: nat, x: seq<byte>)
    requires Mapped(inodes, blocks, inodes', blocks1, i, bn) && bo + |x| <= BSIZE && |blocks'| == |blocks1|
    requires Patched(inodes', blocks1, blocks', i, bn, bo, x)
    ensures Wrote(inodes, blocks, inodes', blocks', i, bn, bo, x)
  {
    hide Slot;
    forall j | 0 <= j < |inodes| && j != i ensures KeptFile(inodes[j], blocks, blocks') {
      assert KeptFile(inodes[j], blocks, blocks1) && inodes'[j] == inodes[j];
      assert forall k | 0 <= k < NSLOT :: Slot(inodes'[j], blocks', k) == Slot(inodes'[j], blocks1, k);
      assert forall y | 0 <= y < MAXFILE :: FileBlock(inodes'[j], blocks', y) == FileBlock(inodes'[j], blocks1, y);
    }
  }

  lemma PatchedAddr(inodes: seq<Dinode>, blocks: seq<Blk>, blocks': seq<Blk>, i: nat, bn: nat, bo: nat, x: seq<byte>)
    requires i < |inodes| && bn < MAXFILE && Patched(inodes, blocks, blocks', i, bn, bo, x)
    ensures Addr(inodes[i], blocks', bn) == Addr(inodes[i], blocks, bn)
  {
    hide Slot;
  }

  lemma SameLogs(sb: Super, d: Dinode, blocks: seq<Blk>, d': Dinode, blocks1: seq<Blk>, blocks2: seq<Blk>, bn: nat)
    requires bn < MAXFILE && Addr(d', blocks1, bn) == Addr(d', blocks2, bn)
    ensures MapLogs(sb, d, blocks, d', blocks1, bn) == MapLogs(sb, d, blocks, d', blocks2, bn)
  {
  }

  function Max(a: int, b: int): int {
    if a < b then b else a
  }

  /** File i has the bytes x written at off; blocks were allocated only past its old end. */
  ghost predicate Written(inodes: seq<Dinode>, blocks: seq<Blk>, inodes': seq<Dinode>, blocks': seq<Blk>, i: nat, off: nat, x: seq<byte>) {
    && |inodes'| == |inodes| && |blocks'| == |blocks| && i < |inodes|
    && FileOk(inodes[i], blocks) && off <= inodes[i].size && off + |x| <= MAXFILE * BSIZE
    && (forall j | 0 <= j < |inodes| && j != i :: inodes'[j] == inodes[j] && KeptFile(inodes[j], blocks, blocks'))
    && (forall o | 0 <= o < MAXFILE * BSIZE :: ByteAt(inodes'[i], blocks', o) ==
          if off <= o < off + |x| then x[o - off] else ByteAt(inodes[i], blocks, o))
    && Dense(inodes'[i], blocks', Max(BlocksFor(inodes[i].size), BlocksFor(off + |x|)))
    && inodes'[i] == inodes[i].(addrs := inodes'[i].addrs)
    && (BlocksFor(off + |x|) <= BlocksFor(inodes[i].size) ==> inodes' == inodes)
    && (inodes[i].addrs[NDIRECT] != 0 ==> inodes'[i].addrs[NDIRECT] == inodes[i].addrs[NDIRECT])
  }

  lemma WrittenNothing(inodes: seq<Dinode>, blocks: seq<Blk>, i: nat, off: nat)
    requires i < |inodes| && FileOk(inodes[i], blocks) && off <= inodes[i].size
    ensures Written(inodes, blocks, inodes, blocks, i, off, [])
  {
  }

  lemma KeptTrans(ino: Dinode, blocks: seq<Blk>, blocks1: seq<Blk>, blocks2: seq<Blk>)
    requires KeptFile(ino, blocks, blocks1) && KeptFile(ino, blocks1, blocks2)
    ensures KeptFile(ino, blocks, blocks2)
  {
    hide Slot, FileBlock;
    forall k | 0 <= k < NSLOT ensures Slot(ino, blocks2, k) == Slot(ino, blocks, k) {
      assert Slot(ino, blocks1, k) == Slot(ino, blocks, k);
    }
    forall bn | 0 <= bn < MAXFILE ensures FileBlock(ino, blocks2, bn) == FileBlock(ino, blocks, bn) {
      assert FileBlock(ino, blocks1, bn) == FileBlock(ino, blocks, bn);
    }
  }

  lemma WrittenStep(inodes: seq<Dinode>, blocks: seq<Blk>, inodes1: seq<Dinode>, blocks1: seq<Blk>, inodes2: seq<Dinode>, blocks2: seq<Blk>,
                    i: nat, off: nat, x: seq<byte>, y: seq<byte>)
    requires Written(inodes, blocks, inodes1, blocks1, i, off, x) && 0 < |y|
    requires off + |x| + |y| <= MAXFILE * BSIZE && (off + |x|) % BSIZE + |y| <= BSIZE
    requires Wrote(inodes1, blocks1, inodes2, blocks2, i, (off + |x|) / BSIZE, (off + |x|) % BSIZE, y)
    ensures Written(inodes, blocks, inodes2, blocks2, i, off, x + y)
  {
    hide Slot, FileBlock, ByteAt, KeptFile, FileOk, PatchIf;
    forall j | 0 <= j < |inodes| && j != i ensures KeptFile(inodes[j], blocks, blocks2) {
      KeptTrans(inodes[j], blocks, blocks1, blocks2);
    }
    var e := off + |x|;
    WrittenBytes(inodes[i], blocks, inodes1[i], blocks1, inodes2[i], blocks2, off, x, y);
    DenseStep(inodes1[i], blocks1, inodes2[i], blocks2, Max(BlocksFor(inodes[i].size), BlocksFor(e)), e / BSIZE);
  }

  lemma WrittenBytes(d: Dinode, blocks: seq<Blk>, d1: Dinode, blocks1: seq<Blk>, d2: Dinode, blocks2: seq<Blk>, off: nat, x: seq<byte>, y: seq<byte>)
    requires off + |x| + |y| <= MAXFILE * BSIZE && (off + |x|) % BSIZE + |y| <= BSIZE
    requires forall o | 0 <= o < MAXFILE * BSIZE :: ByteAt(d1, blocks1, o) == if off <= o < off + |x| then x[o - off] else ByteAt(d, blocks, o)
    requires forall bn | 0 <= bn < MAXFILE :: FileBlock(d2, blocks2, bn) ==
               PatchIf(bn == (off + |x|) / BSIZE, FileBlock(d1, blocks1, bn), (off + |x|) % BSIZE, y)
    ensures forall o | 0 <= o < MAXFILE * BSIZE :: ByteAt(d2, blocks2, o) ==
              if off <= o < off + |x + y| then (x + y)[o - off] else ByteAt(d, blocks, o)
  {
    hide FileBlock;
    var e := off + |x|;
    forall o | 0 <= o < MAXFILE * BSIZE
      ensures ByteAt(d2, blocks2, o) == if off <= o < off + |x + y| then (x + y)[o - off] else ByteAt(d, blocks, o)
    {
      var k, b := o % BSIZE, FileBlock(d1, blocks1, o / BSIZE);
      assert ByteAt(d1, blocks1, o) == if off <= o < e then x[o - off] else ByteAt(d, blocks, o);
      if o / BSIZE == e / BSIZE {
        assert Patch(b, e % BSIZE, y)[k] == if e <= o < e + |y| then y[o - e] else b[k];
      }
    }
  }

  lemma DenseStep(d: Dinode, blocks: seq<Blk>, d': Dinode, blocks': seq<Blk>, nb: nat, bn: nat)
    requires Dense(d, blocks, nb) && bn <= nb && bn < MAXFILE
    requires forall y | 0 <= y < MAXFILE && y != bn :: Addr(d', blocks', y) == Addr(d, blocks, y)
    requires Addr(d', blocks', bn) != 0
    requires bn >= NDIRECT ==> d'.addrs[NDIRECT] != 0
    requires bn < NDIRECT || d.addrs[NDIRECT] != 0 ==> d'.addrs[NDIRECT] == d.addrs[NDIRECT]
    ensures Dense(d', blocks', Max(nb, bn + 1))
  {
    hide Slot;
  }

  // How many blocks one call of writei logs

  /** Blocks of the file that the bytes [off, off + n) touch. */
  function Span(off: nat, n: nat): nat {
    if n == 0 then 0 else (off + n - 1) / BSIZE - off / BSIZE + 1
  }

  /** One log entry per touched block, one bitmap block per new block, and the indirect table
      with its own bitmap block. */
  ghost predicate LogsOk(d: Dinode, d': Dinode, logged: set<nat>, off: nat, n: nat) {
    var nb, nb' := BlocksFor(d.size), Max(BlocksFor(d.size), BlocksFor(off + n));
    var t := d'.addrs[NDIRECT];
    && (nb' > Max(nb, NDIRECT) ==> t in logged)
    && |logged| <= Span(off, n) + (nb' - nb) + (if nb' > Max(nb, NDIRECT) then 1 else 0) +
                   (if d.addrs[NDIRECT] == 0 && t != 0 then 1 else 0)
  }

  lemma LogsNothing(d: Dinode, off: nat)
    requires off <= d.size
    ensures LogsOk(d, d, {}, off, 0)
  {
  }

  lemma LogsStep(inodes: seq<Dinode>, blocks: seq<Blk>, inodes1: seq<Dinode>, blocks1: seq<Blk>, inodes2: seq<Dinode>, blocks2: seq<Blk>,
                 i: nat, logs1: set<nat>, logs2: set<nat>, off: nat, x: seq<byte>, y: seq<byte>)
    requires Written(inodes, blocks, inodes1, blocks1, i, off, x) && 0 < |y|
    requires off + |x| + |y| <= MAXFILE * BSIZE && (off + |x|) % BSIZE + |y| <= BSIZE && (x != [] ==> (off + |x|) % BSIZE == 0)
    requires Wrote(inodes1, blocks1, inodes2, blocks2, i, (off + |x|) / BSIZE, (off + |x|) % BSIZE, y)
    requires LogsOk(inodes[i], inodes1[i], logs1, off, |x|) && logs1 <= logs2
    requires |logs2| <= |logs1| + Max(1, MapCost(inodes1[i], blocks1, (off + |x|) / BSIZE, logs1))
    requires Addr(inodes1[i], blocks1, (off + |x|) / BSIZE) == 0 && (off + |x|) / BSIZE >= NDIRECT ==> inodes2[i].addrs[NDIRECT] in logs2
    ensures LogsOk(inodes[i], inodes2[i], logs2, off, |x| + |y|)
  {
    hide Slot, KeptFile, FileBlock, ByteAt, Span, BlocksFor;
    var e := off + |x|;
    SpanStep(inodes[i].size, off, |x|, |y|);
    assert Addr(inodes1[i], blocks1, e / BSIZE) != 0 <==> e / BSIZE < Max(BlocksFor(inodes[i].size), BlocksFor(e));
  }

  lemma SpanStep(size: nat, off: nat, n: nat, m: nat)
    requires off <= size && 0 < m && (off + n) % BSIZE + m <= BSIZE && (n > 0 ==> (off + n) % BSIZE == 0)
    ensures Span(off, n + m) == Span(off, n) + 1
    ensures BlocksFor(off + n + m) == (off + n) / BSIZE + 1
    ensures (off + n) / BSIZE <= Max(BlocksFor(size), BlocksFor(off + n))
    ensures BlocksFor(off + n) <= (off + n) / BSIZE + 1
  {
  }

  /** A chunk of filewrite: ((MAXOPBLOCKS-1-1-2) / 2) * 512 bytes. */
  const CHUNK := 1536

  /** At any alignment such a chunk leaves room for the inode in a budget of ten blocks. */
  lemma ChunkFits(d: Dinode, d': Dinode, logged: set<nat>, off: nat, n: nat)
    requires LogsOk(d, d', logged, off, n) && off <= d.size && n <= CHUNK
    ensures |logged| <= 9
  {
  }

  // From a written file back to a consistent file system

  lemma SameSlots(ino: Dinode, size: nat, typ: int, blocks: seq<Blk>)
    ensures forall k | 0 <= k < NSLOT :: Slot(ino.(size := size, typ := typ), blocks, k) == Slot(ino, blocks, k)
    ensures forall bn | 0 <= bn < MAXFILE :: FileBlock(ino.(size := size, typ := typ), blocks, bn) == FileBlock(ino, blocks, bn)
  {
  }

  /** Ownership does not depend on sizes and types. */
  lemma OwnedResize(sb: Super, bits: seq<bool>, blocks: seq<Blk>, inodes: seq<Dinode>, owner: Owners, i: nat, size: nat, typ: int)
    requires Owned(sb, bits, blocks, inodes, owner) && i < |inodes|
    ensures Owned(sb, bits, blocks, inodes[i := inodes[i].(size := size, typ := typ)], owner)
  {
    hide Slot;
    SameSlots(inodes[i], size, typ, blocks);
    var inodes' := inodes[i := inodes[i].(size := size, typ := typ)];
    forall b | b in owner ensures Holds(inodes', blocks, owner[b].0, owner[b].1, b) {
      assert Holds(inodes, blocks, owner[b].0, owner[b].1, b);
    }
    forall j, k | 0 <= j < |inodes| && 0 <= k < NSLOT ensures SlotOwned(inodes', blocks, owner, j, k) {
      assert SlotOwned(inodes, blocks, owner, j, k);
    }
  }

  /** The bytes of a written file are the old ones with x spliced in. */
  lemma WrittenIsSplice(inodes: seq<Dinode>, blocks: seq<Blk>, inodes': seq<Dinode>, blocks': seq<Blk>, i: nat, off: nat, x: seq<byte>)
    requires Written(inodes, blocks, inodes', blocks', i, off, x) && inodes[i].typ != 0
    ensures var d := inodes'[i].(size := Max(inodes[i].size, off + |x|));
      FileOk(d, blocks') && Contents(d, blocks') == Splice(Contents(inodes[i], blocks), off, x)
  {
    hide Slot, FileBlock;
    var d := inodes'[i].(size := Max(inodes[i].size, off + |x|));
    assert d == d.(size := d.size, typ := d.typ) && inodes'[i].(size := d.size, typ := d.typ) == d;
    SameSlots(inodes'[i], d.size, d.typ, blocks');
    forall bn | 0 <= bn < MAXFILE ensures Addr(d, blocks', bn) == Addr(inodes'[i], blocks', bn) {
      assert Slot(d, blocks', SlotOf(bn)) == Slot(inodes'[i], blocks', SlotOf(bn));
    }
    assert Dense(d, blocks', BlocksFor(d.size));
    forall o | 0 <= o < d.size
      ensures Contents(d, blocks')[o] == Splice(Contents(inodes[i], blocks), off, x)[o]
    {
      assert ByteAt(d, blocks', o) == ByteAt(inodes'[i], blocks', o);
    }
  }

  lemma KeptIsOk(ino: Dinode, blocks: seq<Blk>, blocks': seq<Blk>)
    requires KeptFile(ino, blocks, blocks') && FileOk(ino, blocks)
    ensures FileOk(ino, blocks') && Contents(ino, blocks') == Contents(ino, blocks)
  {
    hide Slot, FileBlock;
    forall bn | 0 <= bn < MAXFILE ensures Addr(ino, blocks', bn) == Addr(ino, blocks, bn) {}
    forall o | 0 <= o < ino.size ensures Contents(ino, blocks')[o] == Contents(ino, blocks)[o] {
      assert FileBlock(ino, blocks', o / BSIZE) == FileBlock(ino, blocks, o / BSIZE);
    }
  }

  lemma FileSizes(sb: Super, bits: seq<bool>, blocks: seq<Blk>, inodes: seq<Dinode>, owner: Owners)
    requires Consistent(sb, bits, blocks, inodes, owner)
    ensures forall i | 0 <= i < |inodes| :: inodes[i].size <= MAXFILE * BSIZE && FileOk(inodes[i], blocks)
    ensures |inodes| == sb.ninodes && |bits| == |blocks| == sb.size
  {
  }

  /** Other files are untouched, and a file that does not grow keeps its inode. */
  lemma WrittenOthers(inodes: seq<Dinode>, blocks: seq<Blk>, inodes': seq<Dinode>, blocks': seq<Blk>, i: nat, off: nat, x: seq<byte>)
    requires Written(inodes, blocks, inodes', blocks', i, off, x) && forall j | 0 <= j < |inodes| :: FileOk(inodes[j], blocks)
    ensures forall j | 0 <= j < |inodes| && j != i :: inodes'[j] == inodes[j] && FileOk(inodes[j], blocks') &&
              Contents(inodes[j], blocks') == Contents(inodes[j], blocks) && KeptFile(inodes[j], blocks, blocks')
    ensures |inodes'| == |inodes| && inodes'[i] == inodes[i].(addrs := inodes'[i].addrs)
    ensures off + |x| <= inodes[i].size ==> inodes' == inodes
  {
    hide Slot, FileBlock, Dense, Contents;
    forall j | 0 <= j < |inodes| && j != i
      ensures FileOk(inodes[j], blocks') && Contents(inodes[j], blocks') == Contents(inodes[j], blocks)
    {
      KeptIsOk(inodes[j], blocks, blocks');
    }
  }

  lemma CoveredMore(sb: Super, bits: seq<bool>, blocks: seq<Blk>, bits': seq<bool>, blocks': seq<Blk>, logs: set<nat>, logs': set<nat>)
    requires Covered(sb, bits, blocks, bits', blocks', logs) && logs <= logs'
    ensures Covered(sb, bits, blocks, bits', blocks', logs')
  {
  }

  // Reading

  lemma PresentBlock(d: Dinode, blocks: seq<Blk>, o: nat)
    requires FileOk(d, blocks) && o < d.size
    ensures o / BSIZE < MAXFILE && Addr(d, blocks, o / BSIZE) != 0
  {
    hide Slot;
    assert o / BSIZE < BlocksFor(d.size);
  }

  lemma ReadStep(d: Dinode, blocks: seq<Blk>, off: nat, o: nat, m: nat)
    requires d.size <= MAXFILE * BSIZE && off <= o && o + m <= d.size && 0 < m && o % BSIZE + m <= BSIZE
    requires 0 < Addr(d, blocks, o / BSIZE) < |blocks|
    ensures Contents(d, blocks)[off..o] + blocks[Addr(d, blocks, o / BSIZE)][o % BSIZE..o % BSIZE + m] == Contents(d, blocks)[off..o + m]
  {
    hide Slot;
    var c, b := Contents(d, blocks), blocks[Addr(d, blocks, o / BSIZE)];
    forall k | o <= k < o + m ensures c[k] == b[k - o + o % BSIZE] {
      assert k / BSIZE == o / BSIZE && k % BSIZE == k - o + o % BSIZE;
    }
    assert b[o % BSIZE..o % BSIZE + m] == c[o..o + m];
  }

  // Truncation

  /** owner is owner0 without the blocks of inode i outside the slots in keep. */
  ghost predicate Cut(owner0: Owners, owner: Owners, i: nat, keep: set<nat>) {
    && (forall b :: b in owner <==> b in owner0 && (owner0[b].0 == i ==> owner0[b].1 in keep))
    && (forall b | b in owner :: owner[b] == owner0[b])
  }

  /** Slot k of inode i has been freed, or was empty. */
  lemma CutStep(sb: Super, bits: seq<bool>, blocks: seq<Blk>, inodes: seq<Dinode>, owner0: Owners, owner: Owners, i: nat, k: nat, keep: set<nat>)
    requires Owned(sb, bits, blocks, inodes, owner) && Cut(owner0, owner, i, keep) && i < |inodes| && k < NSLOT
    ensures Slot(inodes[i], blocks, k) == 0 ==> Cut(owner0, owner, i, keep - {k})
    ensures Slot(inodes[i], blocks, k) != 0 ==> Cut(owner0, owner - {Slot(inodes[i], blocks, k)}, i, keep - {k})
  {
    hide Slot;
    var s := Slot(inodes[i], blocks, k);
    assert SlotOwned(inodes, blocks, owner, i, k);
    forall b | b in owner && owner[b] == (i, k) ensures b == s && s != 0 {
      assert Holds(inodes, blocks, owner[b].0, owner[b].1, b);
    }
  }

  /** A block that no inode uses as its table may hold anything. */
  lemma FreeTableIrrelevant(sb: Super, bits: seq<bool>, blocks: seq<Blk>, blocks': seq<Blk>, inodes: seq<Dinode>, owner: Owners, t: nat)
    requires Owned(sb, bits, blocks, inodes, owner) && |blocks'| == |blocks| && t < |blocks|
    requires forall b | 0 <= b < |blocks| && b != t :: blocks'[b] == blocks[b]
    requires forall j | 0 <= j < |inodes| :: inodes[j].addrs[NDIRECT] != t
    ensures Owned(sb, bits, blocks', inodes, owner)
  {
    DataWrite(sb, bits, blocks, inodes, owner, t, blocks'[t]);
    assert blocks[t := blocks'[t]] == blocks';
  }

  function SlotsFrom(k: nat): (r: set<nat>)
    ensures forall l: nat :: l in r <==> k <= l < NSLOT
    decreases NSLOT - k
  {
    if k >= NSLOT then {} else {k} + SlotsFrom(k + 1)
  }

  lemma CutNone(sb: Super, bits: seq<bool>, blocks: seq<Blk>, inodes: seq<Dinode>, owner: Owners, i: nat)
    requires Owned(sb, bits, blocks, inodes, owner)
    ensures Cut(owner, owner, i, SlotsFrom(0))
  {
    forall b | b in owner ensures owner[b].1 in SlotsFrom(0) {
      assert Holds(inodes, blocks, owner[b].0, owner[b].1, b);
    }
  }

  lemma CutEmpty(owner0: Owners, owner: Owners, i: nat)
    requires Cut(owner0, owner, i, {})
    ensures forall b :: b in owner <==> b in owner0 && owner0[b].0 != i
    ensures forall b | b in owner :: owner[b] == owner0[b]
  {
  }

  /** Without an indirect table the remaining slots are empty. */
  lemma CutTable(sb: Super, bits: seq<bool>, blocks: seq<Blk>, inodes: seq<Dinode>, owner0: Owners, owner: Owners, i: nat)
    requires Owned(sb, bits, blocks, inodes, owner) && i < |inodes| && inodes[i].addrs[NDIRECT] == 0
    requires Cut(owner0, owner, i, SlotsFrom(NDIRECT))
    ensures Cut(owner0, owner, i, {})
  {
    forall b | b in owner && owner[b].0 == i ensures owner[b].1 !in SlotsFrom(NDIRECT) {
      assert Holds(inodes, blocks, owner[b].0, owner[b].1, b);
    }
  }

  /** The bits cleared by itrunc are those of the blocks the inode held. */
  lemma CutBits(sb: Super, bits0: seq<bool>, bits: seq<bool>, blocks: seq<Blk>, inodes0: seq<Dinode>, inodes: seq<Dinode>,
                owner0: Owners, owner: Owners, i: nat)
    requires Owned(sb, bits0, blocks, inodes0, owner0) && Owned(sb, bits, blocks, inodes, owner) && i < |inodes0|
    requires forall b :: b in owner <==> b in owner0 && owner0[b].0 != i
    ensures forall b | sb.nmeta <= b < sb.size :: bits[b] <==> bits0[b] && !HeldBy(inodes0[i], blocks, b)
  {
    hide Slot;
    forall b | sb.nmeta <= b < sb.size ensures bits[b] <==> bits0[b] && !HeldBy(inodes0[i], blocks, b) {
      if b in owner0 {
        assert Holds(inodes0, blocks, owner0[b].0, owner0[b].1, b);
      }
      if k :| 0 <= k < NSLOT && Slot(inodes0[i], blocks, k) == b {
        assert SlotOwned(inodes0, blocks, owner0, i, k);
      }
    }
  }

  ghost predicate HeldBy(ino: Dinode, blocks: seq<Blk>, b: nat) {
    exists k :: 0 <= k < NSLOT && Slot(ino, blocks, k) == b
  }

  lemma EmptyFile(ino: Dinode, blocks: seq<Blk>)
    requires ino.size == 0 && ino.addrs == ZeroAddrs()
    ensures FileOk(ino, blocks) && forall k | 0 <= k < NSLOT :: Slot(ino, blocks, k) == 0
  {
  }

  /** A file of size zero has no blocks, so its inode may be reinitialised. */
  lemma NoBlocks(ino: Dinode, blocks: seq<Blk>)
    requires FileOk(ino, blocks) && ino.size == 0
    ensures ino.addrs == ZeroAddrs()
  {
    assert ino.addrs[NDIRECT] == 0;
    forall k | 0 <= k < NDIRECT ensures ino.addrs[k] == 0 {
      assert Addr(ino, blocks, k) == 0;
    }
  }

  lemma FreeNoBlocks(ino: Dinode, blocks: seq<Blk>)
    requires FileOk(ino, blocks) && ino.typ == 0
    ensures ino.addrs == ZeroAddrs()
  {
    NoBlocks(ino, blocks);
  }

  /** Replacing an inode without blocks by another one without blocks. */
  lemma OwnedFreshInode(sb: Super, bits: seq<bool>, blocks: seq<Blk>, inodes: seq<Dinode>, owner: Owners, i: nat, d: Dinode)
    requires Owned(sb, bits, blocks, inodes, owner) && i < |inodes| && inodes[i].addrs == d.addrs == ZeroAddrs()
    ensures Owned(sb, bits, blocks, inodes[i := d], owner)
  {
    var inodes' := inodes[i := d];
    assert forall j, k | 0 <= j < |inodes| && 0 <= k < NSLOT :: Slot(inodes'[j], blocks, k) == Slot(inodes[j], blocks, k);
    forall b | b in owner ensures Holds(inodes', blocks, owner[b].0, owner[b].1, b) {
      assert Holds(inodes, blocks, owner[b].0, owner[b].1, b);
    }
    forall j, k | 0 <= j < |inodes'| && 0 <= k < NSLOT ensures SlotOwned(inodes', blocks, owner, j, k) {
      assert SlotOwned(inodes, blocks, owner, j, k);
    }
  }
}
