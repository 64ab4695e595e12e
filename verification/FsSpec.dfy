/**
 The on-disk file system: bitmap, inodes and data blocks, and what they mean.  Pure
 definitions and the facts about them that the operations of kernel/fs.c and tools/mkfs.c use.
 */
module FsSpec {

  const BSIZE := 512
  const NDIRECT := 12
  const NINDIRECT := 128     // BSIZE / sizeof(uint)
  const MAXFILE := 140       // NDIRECT + NINDIRECT
  const IPB := 8             // BSIZE / sizeof(struct dinode)
  const BPB := 4096          // BSIZE * 8
  const UINT := 0x1_0000_0000

  type byte = x: int | 0 <= x < 256
  type Blk = b: seq<byte> | |b| == BSIZE witness seq(BSIZE, _ => 0)
  function ZeroBlk(): Blk {
    seq(BSIZE, _ => 0)
  }

  // Words in a block, little-endian

  function Word(b: Blk, j: int): nat
    requires 0 <= j < NINDIRECT
  {
    (b[4 * j] as int) + 256 * (b[4 * j + 1] as int) + 65536 * (b[4 * j + 2] as int) + 16777216 * (b[4 * j + 3] as int)
  }

  function PutWord(b: Blk, j: int, v: nat): Blk
    requires 0 <= j < NINDIRECT && v < UINT
  {
    b[4 * j := v % 256][4 * j + 1 := v / 256 % 256][4 * j + 2 := v / 65536 % 256][4 * j + 3 := v / 16777216]
  }

  lemma PutWordIs(b: Blk, j: int, v: nat)
    requires 0 <= j < NINDIRECT && v < UINT
    ensures forall k | 0 <= k < NINDIRECT :: Word(PutWord(b, j, v), k) == if k == j then v else Word(b, k)
  {
    Digits(v);
    forall k | 0 <= k < NINDIRECT
      ensures Word(PutWord(b, j, v), k) == if k == j then v else Word(b, k)
    {
      PutWordAt(b, j, v, k);
    }
  }

  lemma Digits(v: nat)
    ensures v == v % 256 + 256 * (v / 256 % 256) + 65536 * (v / 65536 % 256) + 16777216 * (v / 16777216)
  {
    assert v / 256 / 256 == v / 65536 && v / 65536 / 256 == v / 16777216;
  }

  lemma PutWordAt(b: Blk, j: int, v: nat, k: int)
    requires 0 <= j < NINDIRECT && v < UINT && 0 <= k < NINDIRECT
    ensures k != j ==> Word(PutWord(b, j, v), k) == Word(b, k)
    ensures k == j ==> Word(PutWord(b, j, v), k) == v % 256 + 256 * (v / 256 % 256) + 65536 * (v / 65536 % 256) + 16777216 * (v / 16777216)
  {
  }

  lemma ZeroWords()
    ensures forall k | 0 <= k < NINDIRECT :: Word(ZeroBlk(), k) == 0
  {
  }

  // Superblock and inodes

  datatype Super = Super(size: nat, ninodes: nat, inodestart: nat, bmapstart: nat, nmeta: nat) {
    ghost predicate Valid() {
      0 < nmeta <= size < UINT && inodestart + ninodes / IPB < bmapstart && bmapstart + size / BPB < nmeta
    }

    function IBlock(i: nat): nat {
      i / IPB + inodestart
    }

    function BBlock(b: nat): nat {
      b / BPB + bmapstart
    }
  }

  const T_DEV := 3

  type Addrs = a: seq<nat> | |a| == NDIRECT + 1 witness seq(NDIRECT + 1, _ => 0)

  datatype Dinode = Dinode(typ: int, major: int, minor: int, nlink: int, size: nat, addrs: Addrs)

  function ZeroAddrs(): Addrs {
    seq(NDIRECT + 1, _ => 0)
  }

  function FreeInode(): Dinode {
    Dinode(0, 0, 0, 0, 0, ZeroAddrs())
  }

  /** The places in an inode that can hold a block number: the direct addresses, the indirect
      table, and the entries of the indirect table. */
  const NSLOT := 141         // NDIRECT + 1 + NINDIRECT

  function Slot(ino: Dinode, blocks: seq<Blk>, k: nat): nat
    requires k < NSLOT
  {
    if k <= NDIRECT then ino.addrs[k]
    else if 0 < ino.addrs[NDIRECT] < |blocks| then Word(blocks[ino.addrs[NDIRECT]], k - NDIRECT - 1)
    else 0
  }

  function SlotOf(bn: nat): nat {
    if bn < NDIRECT then bn else bn + 1
  }

  /** The block number of block bn of the file, zero when there is none. */
  function Addr(ino: Dinode, blocks: seq<Blk>, bn: nat): nat
    requires bn < MAXFILE
  {
    Slot(ino, blocks, SlotOf(bn))
  }

  // Ownership

  type Owners = map<nat, (nat, nat)>

  /** The bitmap marks the metadata blocks and exactly the blocks some inode slot holds; the
      owner of each is unique because `owner` inverts the slots. */
  ghost predicate Owned(sb: Super, bits: seq<bool>, blocks: seq<Blk>, inodes: seq<Dinode>, owner: Owners) {
    && sb.Valid() && |bits| == |blocks| == sb.size && |inodes| == sb.ninodes
    && (forall b | 0 <= b < sb.nmeta :: bits[b])
    && (forall b | sb.nmeta <= b < sb.size :: bits[b] <==> b in owner)
    && (forall b | b in owner :: sb.nmeta <= b < sb.size && Holds(inodes, blocks, owner[b].0, owner[b].1, b))
    && (forall i, k | 0 <= i < |inodes| && 0 <= k < NSLOT :: SlotOwned(inodes, blocks, owner, i, k))
  }

  ghost predicate Holds(inodes: seq<Dinode>, blocks: seq<Blk>, i: nat, k: nat, b: nat) {
    i < |inodes| && k < NSLOT && Slot(inodes[i], blocks, k) == b
  }

  ghost predicate SlotOwned(inodes: seq<Dinode>, blocks: seq<Blk>, owner: Owners, i: nat, k: nat)
    requires i < |inodes| && k < NSLOT
  {
    var b := Slot(inodes[i], blocks, k);
    b == 0 || (b in owner && owner[b] == (i, k))
  }

  /** What ownership says without the inverse map. */
  lemma OwnedMeans(sb: Super, bits: seq<bool>, blocks: seq<Blk>, inodes: seq<Dinode>, owner: Owners)
    requires Owned(sb, bits, blocks, inodes, owner)
    ensures forall b | sb.nmeta <= b < sb.size :: bits[b] <==> exists i, k :: b != 0 && Holds(inodes, blocks, i, k, b)
    ensures forall i, k, j, l, b | Holds(inodes, blocks, i, k, b) && Holds(inodes, blocks, j, l, b) && b != 0 :: i == j && k == l
  {
    forall b | sb.nmeta <= b < sb.size
      ensures bits[b] <==> exists i, k :: b != 0 && Holds(inodes, blocks, i, k, b)
    {
      if bits[b] {
        assert Holds(inodes, blocks, owner[b].0, owner[b].1, b);
      }
      if i, k :| b != 0 && Holds(inodes, blocks, i, k, b) {
        assert SlotOwned(inodes, blocks, owner, i, k);
      }
    }
    forall i, k, j, l, b | Holds(inodes, blocks, i, k, b) && Holds(inodes, blocks, j, l, b) && b != 0
      ensures i == j && k == l
    {
      assert SlotOwned(inodes, blocks, owner, i, k) && SlotOwned(inodes, blocks, owner, j, l);
    }
  }

  // File contents

  function BlocksFor(size: nat): nat {
    (size + BSIZE - 1) / BSIZE
  }

  /** No holes: the first nb blocks of the file are allocated and no others. */
  ghost predicate Dense(ino: Dinode, blocks: seq<Blk>, nb: nat) {
    && nb <= MAXFILE
    && (forall bn | 0 <= bn < MAXFILE :: Addr(ino, blocks, bn) != 0 <==> bn < nb)
    && (ino.addrs[NDIRECT] != 0 <==> nb > NDIRECT)
  }

  function FileBlock(ino: Dinode, blocks: seq<Blk>, bn: nat): Blk
    requires bn < MAXFILE
  {
    if 0 < Addr(ino, blocks, bn) < |blocks| then blocks[Addr(ino, blocks, bn)] else ZeroBlk()
  }

  function ByteAt(ino: Dinode, blocks: seq<Blk>, o: nat): byte
    requires o < MAXFILE * BSIZE
  {
    FileBlock(ino, blocks, o / BSIZE)[o % BSIZE]
  }

  /** The byte sequence a file stands for. */
  function Contents(ino: Dinode, blocks: seq<Blk>): (r: seq<byte>)
    requires ino.size <= MAXFILE * BSIZE
    ensures |r| == ino.size
  {
    seq(ino.size, o requires 0 <= o < ino.size => ByteAt(ino, blocks, o))
  }

  /** Overwrite f from off on with x, growing f when x reaches past its end. */
  function Splice(f: seq<byte>, off: nat, x: seq<byte>): seq<byte>
    requires off <= |f|
  {
    f[..off] + x + if off + |x| <= |f| then f[off + |x|..] else []
  }

  /** The state between operations: ownership is exact and no file has holes. */
  ghost predicate Consistent(sb: Super, bits: seq<bool>, blocks: seq<Blk>, inodes: seq<Dinode>, owner: Owners) {
    && Owned(sb, bits, blocks, inodes, owner)
    && (forall i | 0 <= i < |inodes| :: FileOk(inodes[i], blocks))
  }

  /** A file without holes; a free inode owns nothing. */
  ghost predicate FileOk(ino: Dinode, blocks: seq<Blk>) {
    ino.size <= MAXFILE * BSIZE && Dense(ino, blocks, BlocksFor(ino.size)) && (ino.typ == 0 ==> ino.size == 0)
  }

  // How allocation, data writes and frees change ownership

  /** Block t is the indirect table of inode i only. */
  lemma OneTable(sb: Super, bits: seq<bool>, blocks: seq<Blk>, inodes: seq<Dinode>, owner: Owners, i: nat, k: nat)
    requires Owned(sb, bits, blocks, inodes, owner) && i < |inodes| && k < NSLOT && Slot(inodes[i], blocks, k) != 0
    ensures forall j | 0 <= j < |inodes| && (j != i || k != NDIRECT) :: inodes[j].addrs[NDIRECT] != Slot(inodes[i], blocks, k)
  {
    forall j | 0 <= j < |inodes| && (j != i || k != NDIRECT)
      ensures inodes[j].addrs[NDIRECT] != Slot(inodes[i], blocks, k)
    {
      assert SlotOwned(inodes, blocks, owner, i, k) && SlotOwned(inodes, blocks, owner, j, NDIRECT);
    }
  }

  /** No slot holds a block that the bitmap shows free. */
  lemma FreeUnheld(sb: Super, bits: seq<bool>, blocks: seq<Blk>, inodes: seq<Dinode>, owner: Owners, b: nat)
    requires Owned(sb, bits, blocks, inodes, owner) && sb.nmeta <= b < sb.size && !bits[b]
    ensures forall i: nat, k: nat :: !Holds(inodes, blocks, i, k, b)
  {
    forall i: nat, k: nat ensures !Holds(inodes, blocks, i, k, b) {
      if i < |inodes| && k < NSLOT { assert SlotOwned(inodes, blocks, owner, i, k); }
    }
  }

  /** Slot k of inode i now holds block b, all other slots and all file contents are as before. */
  ghost predicate Allocated(inodes: seq<Dinode>, blocks: seq<Blk>, inodes': seq<Dinode>, blocks': seq<Blk>, i: nat, k: nat, b: nat) {
    && |inodes'| == |inodes| && |blocks'| == |blocks| && i < |inodes| && k < NSLOT
    && (forall j, l | 0 <= j < |inodes| && 0 <= l < NSLOT ::
          Slot(inodes'[j], blocks', l) == if j == i && l == k then b else Slot(inodes[j], blocks, l))
    && (forall j, bn | 0 <= j < |inodes| && 0 <= bn < MAXFILE :: FileBlock(inodes'[j], blocks', bn) == FileBlock(inodes[j], blocks, bn))
  }

  /** Fresh block b is zeroed and at most i's own table changes: contents stay. */
  lemma AllocatedView(sb: Super, bits: seq<bool>, blocks: seq<Blk>, inodes: seq<Dinode>, owner: Owners,
                      inodes': seq<Dinode>, blocks': seq<Blk>, i: nat, k: nat, b: nat)
    requires Owned(sb, bits, blocks, inodes, owner) && sb.nmeta <= b < sb.size && !bits[b]
    requires |inodes'| == |inodes| && |blocks'| == |blocks| && i < |inodes| && k < NSLOT && Slot(inodes[i], blocks, k) == 0
    requires blocks'[b] == ZeroBlk()
    requires forall x | 0 <= x < |blocks| && x != b && x != inodes[i].addrs[NDIRECT] :: blocks'[x] == blocks[x]
    requires forall j, l | 0 <= j < |inodes| && 0 <= l < NSLOT ::
          Slot(inodes'[j], blocks', l) == if j == i && l == k then b else Slot(inodes[j], blocks, l)
    ensures Allocated(inodes, blocks, inodes', blocks', i, k, b)
  {
    hide Slot;
    forall j, bn | 0 <= j < |inodes| && 0 <= bn < MAXFILE
      ensures FileBlock(inodes'[j], blocks', bn) == FileBlock(inodes[j], blocks, bn)
    {
      var a := Slot(inodes[j], blocks, SlotOf(bn));
      assert SlotOwned(inodes, blocks, owner, j, SlotOf(bn));
      TableSlot(inodes, blocks, owner, i);
    }
  }

  lemma TableSlot(inodes: seq<Dinode>, blocks: seq<Blk>, owner: Owners, i: nat)
    requires i < |inodes| && forall j, k | 0 <= j < |inodes| && 0 <= k < NSLOT :: SlotOwned(inodes, blocks, owner, j, k)
    ensures var t := inodes[i].addrs[NDIRECT]; t == 0 || (t in owner && owner[t] == (i, NDIRECT))
  {
    assert SlotOwned(inodes, blocks, owner, i, NDIRECT);
  }

  lemma AllocSlot(sb: Super, bits: seq<bool>, blocks: seq<Blk>, inodes: seq<Dinode>, owner: Owners, i: nat, k: nat, b: nat)
    requires Owned(sb, bits, blocks, inodes, owner) && sb.nmeta <= b < sb.size && !bits[b]
    requires i < |inodes| && k <= NDIRECT && inodes[i].addrs[k] == 0
    ensures Owned(sb, bits[b := true], blocks[b := ZeroBlk()], inodes[i := inodes[i].(addrs := inodes[i].addrs[k := b])], owner[b := (i, k)])
    ensures Allocated(inodes, blocks, inodes[i := inodes[i].(addrs := inodes[i].addrs[k := b])], blocks[b := ZeroBlk()], i, k, b)
  {
    hide Word;
    var blocks', inodes', owner' := blocks[b := ZeroBlk()], inodes[i := inodes[i].(addrs := inodes[i].addrs[k := b])], owner[b := (i, k)];
    ZeroWords();
    FreeUnheld(sb, bits, blocks, inodes, owner, b);
    forall j, l | 0 <= j < |inodes| && 0 <= l < NSLOT
      ensures Slot(inodes'[j], blocks', l) == if j == i && l == k then b else Slot(inodes[j], blocks, l)
    {
      assert !Holds(inodes, blocks, j, NDIRECT, b);
    }
    AllocatedView(sb, bits, blocks, inodes, owner, inodes', blocks', i, k, b);
    forall x | x in owner' ensures sb.nmeta <= x < sb.size && Holds(inodes', blocks', owner'[x].0, owner'[x].1, x) {
      if x != b { assert Holds(inodes, blocks, owner[x].0, owner[x].1, x); }
    }
    forall j, l | 0 <= j < |inodes'| && 0 <= l < NSLOT ensures SlotOwned(inodes', blocks', owner', j, l) {
      assert SlotOwned(inodes, blocks, owner, j, l);
      assert !Holds(inodes, blocks, j, l, b);
    }
  }

  lemma AllocEntry(sb: Super, bits: seq<bool>, blocks: seq<Blk>, inodes: seq<Dinode>, owner: Owners, i: nat, k: nat, b: nat)
    requires Owned(sb, bits, blocks, inodes, owner) && sb.nmeta <= b < sb.size && !bits[b]
    requires i < |inodes| && NDIRECT < k < NSLOT && Slot(inodes[i], blocks, k) == 0
    requires 0 < inodes[i].addrs[NDIRECT] < |blocks|
    ensures var t := inodes[i].addrs[NDIRECT];
      b != t &&
      Owned(sb, bits[b := true], blocks[b := ZeroBlk()][t := PutWord(blocks[t], k - NDIRECT - 1, b)], inodes, owner[b := (i, k)]) &&
      Allocated(inodes, blocks, inodes, blocks[b := ZeroBlk()][t := PutWord(blocks[t], k - NDIRECT - 1, b)], i, k, b)
  {
    hide Word, PutWord;
    var t := inodes[i].addrs[NDIRECT];
    var blocks', owner' := blocks[b := ZeroBlk()][t := PutWord(blocks[t], k - NDIRECT - 1, b)], owner[b := (i, k)];
    FreeUnheld(sb, bits, blocks, inodes, owner, b);
    assert Slot(inodes[i], blocks, NDIRECT) == t && !Holds(inodes, blocks, i, NDIRECT, b);
    OneTable(sb, bits, blocks, inodes, owner, i, NDIRECT);
    PutWordIs(blocks[t], k - NDIRECT - 1, b);
    forall j, l | 0 <= j < |inodes| && 0 <= l < NSLOT
      ensures Slot(inodes[j], blocks', l) == if j == i && l == k then b else Slot(inodes[j], blocks, l)
    {
      assert !Holds(inodes, blocks, j, NDIRECT, b);
    }
    AllocatedView(sb, bits, blocks, inodes, owner, inodes, blocks', i, k, b);
    forall x | x in owner' ensures sb.nmeta <= x < sb.size && Holds(inodes, blocks', owner'[x].0, owner'[x].1, x) {
      if x != b { assert Holds(inodes, blocks, owner[x].0, owner[x].1, x); }
    }
    forall j, l | 0 <= j < |inodes| && 0 <= l < NSLOT ensures SlotOwned(inodes, blocks', owner', j, l) {
      assert SlotOwned(inodes, blocks, owner, j, l);
      assert !Holds(inodes, blocks, j, l, b);
    }
  }

  /** Writing a block that is not an indirect table leaves every slot as it was. */
  lemma DataWrite(sb: Super, bits: seq<bool>, blocks: seq<Blk>, inodes: seq<Dinode>, owner: Owners, b: nat, x: Blk)
    requires Owned(sb, bits, blocks, inodes, owner) && b < |blocks|
    requires forall j | 0 <= j < |inodes| :: inodes[j].addrs[NDIRECT] != b
    ensures Owned(sb, bits, blocks[b := x], inodes, owner)
    ensures forall j, l | 0 <= j < |inodes| && 0 <= l < NSLOT :: Slot(inodes[j], blocks[b := x], l) == Slot(inodes[j], blocks, l)
  {
    hide Word;
    var blocks' := blocks[b := x];
    forall y | y in owner ensures Holds(inodes, blocks', owner[y].0, owner[y].1, y) {
      assert Holds(inodes, blocks, owner[y].0, owner[y].1, y);
    }
    forall j, l | 0 <= j < |inodes| && 0 <= l < NSLOT ensures SlotOwned(inodes, blocks', owner, j, l) {
      assert SlotOwned(inodes, blocks, owner, j, l);
    }
  }

  /** Clearing a slot and its bit, as bfree followed by addrs[k] = 0. */
  lemma FreeSlot(sb: Super, bits: seq<bool>, blocks: seq<Blk>, inodes: seq<Dinode>, owner: Owners, i: nat, k: nat)
    requires Owned(sb, bits, blocks, inodes, owner) && i < |inodes| && k <= NDIRECT && inodes[i].addrs[k] != 0
    requires k == NDIRECT ==> forall l | NDIRECT < l < NSLOT :: Slot(inodes[i], blocks, l) == 0
    ensures var b := inodes[i].addrs[k];
      b in owner && sb.nmeta <= b < sb.size && bits[b] &&
      Owned(sb, bits[b := false], blocks, inodes[i := inodes[i].(addrs := inodes[i].addrs[k := 0])], owner - {b})
  {
    hide Word;
    var b := inodes[i].addrs[k];
    var inodes', owner' := inodes[i := inodes[i].(addrs := inodes[i].addrs[k := 0])], owner - {b};
    assert SlotOwned(inodes, blocks, owner, i, k);
    forall x | x in owner' ensures sb.nmeta <= x < sb.size && Holds(inodes', blocks, owner'[x].0, owner'[x].1, x) {
      assert Holds(inodes, blocks, owner[x].0, owner[x].1, x);
    }
    forall j, l | 0 <= j < |inodes'| && 0 <= l < NSLOT ensures SlotOwned(inodes', blocks, owner', j, l) {
      assert SlotOwned(inodes, blocks, owner, j, l);
    }
  }

  /** Freeing one entry of an indirect table, seen as clearing it in the table. */
  lemma FreeEntry(sb: Super, bits: seq<bool>, blocks: seq<Blk>, inodes: seq<Dinode>, owner: Owners, i: nat, k: nat)
    requires Owned(sb, bits, blocks, inodes, owner) && i < |inodes| && NDIRECT < k < NSLOT && Slot(inodes[i], blocks, k) != 0
    ensures var b, t := Slot(inodes[i], blocks, k), inodes[i].addrs[NDIRECT];
      b in owner && sb.nmeta <= b < sb.size && bits[b] &&
      Owned(sb, bits[b := false], blocks[t := PutWord(blocks[t], k - NDIRECT - 1, 0)], inodes, owner - {b})
  {
    hide Word, PutWord;
    var b, t := Slot(inodes[i], blocks, k), inodes[i].addrs[NDIRECT];
    var blocks', owner' := blocks[t := PutWord(blocks[t], k - NDIRECT - 1, 0)], owner - {b};
    assert SlotOwned(inodes, blocks, owner, i, k);
    assert Slot(inodes[i], blocks, NDIRECT) == t;
    OneTable(sb, bits, blocks, inodes, owner, i, NDIRECT);
    PutWordIs(blocks[t], k - NDIRECT - 1, 0);
    forall j, l | 0 <= j < |inodes| && 0 <= l < NSLOT
      ensures Slot(inodes[j], blocks', l) == if j == i && l == k then 0 else Slot(inodes[j], blocks, l)
    {
    }
    forall x | x in owner' ensures sb.nmeta <= x < sb.size && Holds(inodes, blocks', owner'[x].0, owner'[x].1, x) {
      assert Holds(inodes, blocks, owner[x].0, owner[x].1, x);
    }
    forall j, l | 0 <= j < |inodes| && 0 <= l < NSLOT ensures SlotOwned(inodes, blocks', owner', j, l) {
      assert SlotOwned(inodes, blocks, owner, j, l);
    }
  }
}
