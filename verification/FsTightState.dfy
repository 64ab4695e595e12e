/**
 A file system on which a chunk needs its whole budget: everything is in use except one block
 on each of four bitmap blocks.  Fifty-nine files fill the space between the free blocks.
 */
module FsTightState {
  import opened FsSpec
  import opened FsSteps
  import opened FileIo
  import opened FsTight

  /** mkfs's layout for a disk of 12289 blocks, a log of LOGSIZE blocks and 32368 inodes. */
  const SB := Super(12289, 32368, 32, 4079, 4083)

  const FREE: seq<nat> := [4095, 4096, 8192, 12288]

  /** The blocks between the free ones, in order. */
  function Filling(k: nat): nat {
    if k < 4095 then 4097 + k else 4098 + k
  }

  predicate IsFilling(b: nat) {
    4096 < b < 8192 || 8192 < b < 12288
  }

  function Index(b: nat): nat
    requires IsFilling(b)
  {
    if b < 8192 then b - 4097 else b - 4098
  }

  lemma IndexInverts(k: nat)
    requires k < 8190
    ensures IsFilling(Filling(k)) && Index(Filling(k)) == k
  {
  }

  /** File j takes NSLOT blocks: its slots in order. */
  lemma FileIndex(j: nat, k: nat)
    requires k < NSLOT
    ensures (NSLOT * j + k) / NSLOT == j && (NSLOT * j + k) % NSLOT == k
  {
  }

  function Digit(v: nat, r: nat): byte
    requires v < UINT
  {
    if r == 0 then v % 256 else if r == 1 then v / 256 % 256 else if r == 2 then v / 65536 % 256 else v / 16777216
  }

  /** The indirect table of file j. */
  function Table(j: nat): Blk
    requires j < 58
  {
    seq(BSIZE, c requires 0 <= c < BSIZE => Digit(Filling(NSLOT * j + 13 + c / 4), c % 4))
  }

  lemma TableByte(j: nat, w: nat, r: nat)
    requires j < 58 && w < NINDIRECT && r < 4
    ensures Table(j)[4 * w + r] == Digit(Filling(NSLOT * j + 13 + w), r)
  {
    hide Digit, Filling;
    assert (4 * w + r) / 4 == w && (4 * w + r) % 4 == r;
  }

  lemma TableWord(j: nat, w: nat)
    requires j < 58 && w < NINDIRECT
    ensures Word(Table(j), w) == Filling(NSLOT * j + 13 + w)
  {
    hide Table;
    TableByte(j, w, 0);
    TableByte(j, w, 1);
    TableByte(j, w, 2);
    TableByte(j, w, 3);
    Digits(Filling(NSLOT * j + 13 + w));
  }

  function Blocks(): (r: seq<Blk>)
    ensures |r| == SB.size
  {
    seq(SB.size, b requires 0 <= b < SB.size =>
      if IsFilling(b) && Index(b) % NSLOT == NDIRECT && Index(b) / NSLOT < 58 then Table(Index(b) / NSLOT) else ZeroBlk())
  }

  function Direct(first: nat): Addrs {
    seq(NDIRECT + 1, s requires 0 <= s < NDIRECT + 1 => if s < NDIRECT then first + s else 0)
  }

  function FillAddr(j: nat, s: nat): nat {
    if j < 58 || s < NDIRECT then Filling(NSLOT * j + s) else 0
  }

  function FillAddrs(j: nat): Addrs {
    seq(NDIRECT + 1, s requires 0 <= s < NDIRECT + 1 => FillAddr(j, s))
  }

  /** Inode 1 is the file to write to, inodes 2 to 60 fill the disk, the others are free. */
  function InodeOf(n: nat): Dinode {
    if n == 1 then Dinode(2, 0, 0, 1, OFF, Direct(4083))
    else if 2 <= n < 61 then Dinode(2, 0, 0, 1, (if n < 60 then MAXFILE else NDIRECT) * BSIZE, FillAddrs(n - 2))
    else FreeInode()
  }

  function Inodes(): (r: seq<Dinode>)
    ensures |r| == SB.ninodes
  {
    seq(SB.ninodes, n requires 0 <= n < SB.ninodes => InodeOf(n))
  }

  /** What each slot holds. */
  function SlotValue(n: nat, k: nat): nat {
    if n == 1 then (if k < NDIRECT then 4083 + k else 0)
    else if 2 <= n < 60 || (n == 60 && k < NDIRECT) then Filling(NSLOT * (n - 2) + k)
    else 0
  }

  lemma SlotIs(n: nat, k: nat)
    requires k < NSLOT
    ensures Slot(InodeOf(n), Blocks(), k) == SlotValue(n, k)
  {
    hide Table, Word;
    if k > NDIRECT && 2 <= n < 60 {
      var j := n - 2;
      IndexInverts(NSLOT * j + NDIRECT);
      FileIndex(j, NDIRECT);
      TableWord(j, k - NDIRECT - 1);
      assert Blocks()[Filling(NSLOT * j + NDIRECT)] == Table(j);
    }
  }

  function OwnerOf(b: nat): (nat, nat) {
    if b < 4095 then (1, if b < 4083 then 0 else b - 4083)
    else if IsFilling(b) then (2 + Index(b) / NSLOT, Index(b) % NSLOT)
    else (0, 0)
  }

  lemma OwnerIs(n: nat, k: nat)
    requires k < NSLOT && SlotValue(n, k) != 0
    ensures var b := SlotValue(n, k); SB.nmeta <= b < SB.size && b !in FREE && OwnerOf(b) == (n, k)
  {
    if n >= 2 {
      assert NSLOT * (n - 2) + k < 8190;
      IndexInverts(NSLOT * (n - 2) + k);
      FileIndex(n - 2, k);
    }
  }

  lemma OwnerHolds(b: nat)
    requires SB.nmeta <= b < SB.size && b !in FREE
    ensures var o := OwnerOf(b); o.0 < SB.ninodes && o.1 < NSLOT && SlotValue(o.0, o.1) == b
  {
    if b >= 4095 {
      var k := Index(b);
      assert b != FREE[0] && b != FREE[1] && b != FREE[2] && b != FREE[3];
      assert NSLOT * (k / NSLOT) + k % NSLOT == k < 8190;
    }
  }

  function Bits(): (r: seq<bool>)
    ensures |r| == SB.size
  {
    seq(SB.size, b requires 0 <= b < SB.size => b !in FREE)
  }

  function Owner(): Owners {
    map b: nat | SB.nmeta <= b < SB.size && b !in FREE :: OwnerOf(b)
  }

  function FullDisk(): Files {
    Files(Bits(), Blocks(), Inodes(), Owner())
  }

  lemma FullOwned()
    ensures Owned(SB, Bits(), Blocks(), Inodes(), Owner())
  {
    hide Slot, InodeOf, SlotValue, OwnerOf, Blocks;
    forall b | b in Owner()
      ensures Holds(Inodes(), Blocks(), Owner()[b].0, Owner()[b].1, b)
    {
      OwnerHolds(b);
      SlotIs(OwnerOf(b).0, OwnerOf(b).1);
    }
    forall n, k | 0 <= n < SB.ninodes && 0 <= k < NSLOT
      ensures SlotOwned(Inodes(), Blocks(), Owner(), n, k)
    {
      SlotIs(n, k);
      if SlotValue(n, k) != 0 { OwnerIs(n, k); }
    }
  }

  lemma FullFile(n: nat)
    ensures FileOk(InodeOf(n), Blocks())
  {
    hide Slot, Blocks;
    var ino := InodeOf(n);
    forall bn | 0 <= bn < MAXFILE
      ensures Addr(ino, Blocks(), bn) != 0 <==> bn < BlocksFor(ino.size)
    {
      SlotIs(n, SlotOf(bn));
    }
    SlotIs(n, NDIRECT);
    AddrSlot(ino, Blocks());
  }

  /** It is consistent, four blocks are free, and file 1 is where the chunk needs most. */
  lemma FullGood()
    ensures Good(SB, FullDisk()) && FourFree(SB, FullDisk(), FREE) && Ready12(FullDisk(), 1, FREE)
  {
    hide Owned, FileOk, Zero;
    FullOwned();
    forall n | 0 <= n < SB.ninodes
      ensures FileOk(Inodes()[n], Blocks())
    {
      FullFile(n);
    }
    FullZero();
  }

  lemma FullZero()
    ensures forall b: nat | b in FREE || 4083 <= b < 4095 :: b < |Blocks()| && Zero(Blocks()[b])
  {
  }

  /** Any transaction that writes a chunk of ones there logs MAXOPBLOCKS blocks. */
  lemma BudgetAttained(f': Files, x: seq<byte>, logged: set<nat>)
    requires |x| == CHUNK && (forall k | 0 <= k < |x| :: x[k] == 1) && ChunkDone(SB, FullDisk(), f', 1, OFF, x, logged)
    ensures |logged| == 10
  {
    hide ChunkDone, Good, FourFree, Ready12;
    FullGood();
    TenBlocks(SB, FullDisk(), f', 1, x, logged, FREE);
  }
}
