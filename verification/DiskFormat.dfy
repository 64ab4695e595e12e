/**
 How the file system lies in the words of disk blocks (kernel/fs.h): bits of the bitmap,
 struct dinode, and data.  Reading a block back gives what balloc, bfree and iupdate put there.
 */
module DiskFormat {
  import opened LogMachine
  import FsSpec

  // Reading

  function Power(n: nat): (r: nat)
    ensures r > 0
  {
    if n == 0 then 1 else 2 * Power(n - 1)
  }

  predicate Bit(w: int, i: nat) {
    w / Power(i) % 2 == 1
  }

  /** Bit k of a bitmap block. */
  predicate BitIn(x: Block, k: nat)
    requires k < FsSpec.BPB
  {
    Bit(x[k / 32], k % 32)
  }

  function Short(w: int): int {
    var v := w % 0x10000;
    if v < 0x8000 then v else v - 0x10000
  }

  function Natural(w: int): nat {
    if w < 0 then 0 else w
  }

  /** struct dinode number k of an inode block: four shorts, the size and the addresses. */
  function DinodeIn(x: Block, k: nat): FsSpec.Dinode
    requires k < FsSpec.IPB
  {
    var w := 16 * k;
    var addrs: seq<nat> := seq<nat>(FsSpec.NDIRECT + 1, j requires 0 <= j < FsSpec.NDIRECT + 1 => Natural(x[w + 3 + j]));
    FsSpec.Dinode(Short(x[w]), Short(x[w] / 0x10000), Short(x[w + 1]), Short(x[w + 1] / 0x10000), Natural(x[w + 2]), addrs)
  }

  ghost predicate DataSays(b: FsSpec.Blk, x: Block) {
    forall j | 0 <= j < FsSpec.NINDIRECT :: x[j] == FsSpec.Word(b, j)
  }

  // Writing

  /** The word w with bit i set, or clear. */
  function PutBit(w: int, i: nat, v: bool): int {
    if Bit(w, i) == v then w else if v then w + Power(i) else w - Power(i)
  }

  function PutBitIn(x: Block, k: nat, v: bool): Block
    requires k < FsSpec.BPB
  {
    x[k / 32 := PutBit(x[k / 32], k % 32, v)]
  }

  /** Two shorts in a word. */
  function Shorts(lo: int, hi: int): int {
    lo % 0x10000 + 0x10000 * (hi % 0x10000)
  }

  /** Word j of struct dinode d. */
  function DinodeWord(d: FsSpec.Dinode, j: nat): int
    requires j < 16
  {
    if j == 0 then Shorts(d.typ, d.major) else if j == 1 then Shorts(d.minor, d.nlink)
    else if j == 2 then d.size else d.addrs[j - 3]
  }

  /** iupdate's copy of inode d into place k of an inode block. */
  function PutDinodeIn(x: Block, k: nat, d: FsSpec.Dinode): Block
    requires k < FsSpec.IPB
  {
    seq(WORDS, j requires 0 <= j < WORDS => if j / 16 == k then DinodeWord(d, j % 16) else x[j])
  }

  // Bits

  lemma DivTwice(w: int, p: nat)
    requires p > 0
    ensures w / (2 * p) == w / 2 / p
  {
    var h, b := w / 2, w % 2;
    var q, r := h / p, h % p;
    assert w == 2 * p * q + (2 * r + b);
    Quotient(w, 2 * p, q, 2 * r + b);
  }

  lemma Quotient(w: int, p: nat, q: int, r: int)
    requires 0 <= r < p && w == p * q + r
    ensures w / p == q
  {
    var d := w / p - q;
    assert p * d == r - w % p;
    Multiple(p, d);
  }

  lemma Multiple(p: nat, d: int)
    ensures d > 0 ==> p * d >= p
    ensures d < 0 ==> p * d <= 0 - p
  {
  }

  lemma BitNext(w: int, i: nat)
    requires i > 0
    ensures Bit(w, i) == Bit(w / 2, i - 1)
  {
    DivTwice(w, Power(i - 1));
  }

  /** Writing a bit changes that bit and no other. */
  lemma {:induction false} PutBitIs(w: int, i: nat, v: bool, j: nat)
    ensures Bit(PutBit(w, i, v), j) == if j == i then v else Bit(w, j)
    decreases i
  {
    var w' := PutBit(w, i, v);
    if i == 0 {
      assert w' / 2 == w / 2;
      if j > 0 { BitNext(w, j); BitNext(w', j); }
    } else {
      BitNext(w, i);
      assert w' / 2 == PutBit(w / 2, i - 1, v) && w' % 2 == w % 2;
      if j > 0 {
        BitNext(w, j);
        BitNext(w', j);
        PutBitIs(w / 2, i - 1, v, j - 1);
      }
    }
  }

  lemma PutBitInIs(x: Block, k: nat, v: bool, j: nat)
    requires k < FsSpec.BPB && j < FsSpec.BPB
    ensures BitIn(PutBitIn(x, k, v), j) == if j == k then v else BitIn(x, j)
  {
    hide Bit, PutBit;
    if j / 32 == k / 32 { PutBitIs(x[k / 32], k % 32, v, j % 32); }
  }

  // Inodes

  predicate IsShort(v: int) {
    -0x8000 <= v < 0x8000
  }

  /** The fields of d fit where struct dinode keeps them. */
  predicate Storable(d: FsSpec.Dinode) {
    IsShort(d.typ) && IsShort(d.major) && IsShort(d.minor) && IsShort(d.nlink)
  }

  lemma ShortsIs(lo: int, hi: int)
    requires IsShort(lo) && IsShort(hi)
    ensures Short(Shorts(lo, hi)) == lo && Short(Shorts(lo, hi) / 0x10000) == hi
  {
  }

  lemma DinodeWordIn(x: Block, k: nat, d: FsSpec.Dinode, j: nat, i: nat)
    requires k < FsSpec.IPB && j < FsSpec.IPB && i < 16
    ensures PutDinodeIn(x, k, d)[16 * j + i] == if j == k then DinodeWord(d, i) else x[16 * j + i]
  {
  }

  lemma AddrIn(x: Block, k: nat, i: nat)
    requires k < FsSpec.IPB && i < FsSpec.NDIRECT + 1
    ensures DinodeIn(x, k).addrs[i] == Natural(x[16 * k + (3 + i)])
  {
    assert 16 * k + 3 + i == 16 * k + (3 + i);
  }

  /** Reading an inode back gives the inode written, and leaves the others in the block. */
  lemma PutDinodeInIs(x: Block, k: nat, d: FsSpec.Dinode, j: nat)
    requires k < FsSpec.IPB && j < FsSpec.IPB && Storable(d)
    ensures DinodeIn(PutDinodeIn(x, k, d), j) == if j == k then d else DinodeIn(x, j)
  {
    hide Short, Shorts, PutDinodeIn;
    ShortsIs(d.typ, d.major);
    ShortsIs(d.minor, d.nlink);
    var y := PutDinodeIn(x, k, d);
    DinodeWordIn(x, k, d, j, 0);
    DinodeWordIn(x, k, d, j, 1);
    DinodeWordIn(x, k, d, j, 2);
    var was := if j == k then d.addrs else DinodeIn(x, j).addrs;
    forall i | 0 <= i < FsSpec.NDIRECT + 1
      ensures DinodeIn(y, j).addrs[i] == was[i]
    {
      DinodeWordIn(x, k, d, j, 3 + i);
      AddrIn(y, j, i);
      AddrIn(x, j, i);
    }
    assert DinodeIn(y, j).addrs == was;
  }

  // Whole blocks

  /** A bitmap block whose first n bits are those of `bits` from base on. */
  function BitmapBlock(bits: seq<bool>, base: nat, n: nat): Block
    requires n <= FsSpec.BPB
  {
    if n == 0 then seq(WORDS, _ => 0)
    else PutBitIn(BitmapBlock(bits, base, n - 1), n - 1, base + n - 1 < |bits| && bits[base + n - 1])
  }

  lemma {:induction false} BitmapBlockIs(bits: seq<bool>, base: nat, n: nat, k: nat)
    requires k < n <= FsSpec.BPB
    ensures BitIn(BitmapBlock(bits, base, n), k) == (base + k < |bits| && bits[base + k])
  {
    hide BitIn, PutBitIn;
    PutBitInIs(BitmapBlock(bits, base, n - 1), n - 1, base + n - 1 < |bits| && bits[base + n - 1], k);
    if k < n - 1 { BitmapBlockIs(bits, base, n - 1, k); }
  }

  /** An inode block whose first n inodes are those of `inodes` from base on. */
  function InodeBlock(inodes: seq<FsSpec.Dinode>, base: nat, n: nat): Block
    requires n <= FsSpec.IPB
  {
    if n == 0 then seq(WORDS, _ => 0)
    else PutDinodeIn(InodeBlock(inodes, base, n - 1), n - 1, if base + n - 1 < |inodes| then inodes[base + n - 1] else FsSpec.FreeInode())
  }

  lemma {:induction false} InodeBlockIs(inodes: seq<FsSpec.Dinode>, base: nat, n: nat, k: nat)
    requires k < n <= FsSpec.IPB && base + k < |inodes| && forall i | 0 <= i < |inodes| :: Storable(inodes[i])
    ensures DinodeIn(InodeBlock(inodes, base, n), k) == inodes[base + k]
  {
    hide DinodeIn, PutDinodeIn;
    PutDinodeInIs(InodeBlock(inodes, base, n - 1), n - 1, if base + n - 1 < |inodes| then inodes[base + n - 1] else FsSpec.FreeInode(), k);
    if k < n - 1 { InodeBlockIs(inodes, base, n - 1, k); }
  }

  function DataBlock(b: FsSpec.Blk): Block {
    seq(WORDS, j requires 0 <= j < WORDS => FsSpec.Word(b, j))
  }
}
