/**
 tools/mkfs.c: the initial image.  Blocks are handed out by a counter, and the bitmap is
 written once at the end; the result is a consistent file system.
 */
module Mkfs {
  import opened FsSpec
  import opened FsSteps

  /** The bitmap that marks the first n of size blocks. */
  function FirstSet(size: nat, n: nat): (r: seq<bool>)
    ensures |r| == size && forall b | 0 <= b < size :: r[b] == (b < n)
  {
    seq(size, b => b < n)
  }

  class Image {
    const sb: Super
    var blocks: seq<Blk>
    var dinodes: seq<Dinode>
    var bits: seq<bool>
    var freeinode: nat
    var freeblock: nat
    ghost var owner: Owners

    ghost function Used(): (r: seq<bool>)
      reads this
    {
      FirstSet(sb.size, freeblock)
    }

    /** Ownership with the inode copy `din` in place, and blocks not handed out still zero. */
    ghost predicate Building(inum: nat, din: Dinode)
      reads this
    {
      inum < |dinodes| && sb.nmeta <= freeblock <= sb.size &&
      Owned(sb, Used(), blocks, dinodes[inum := din], owner) &&
      forall b | freeblock <= b < sb.size && b < |blocks| :: blocks[b] == ZeroBlk()
    }

    ghost predicate Valid()
      reads this
    {
      sb.nmeta <= freeblock <= sb.size && 1 <= freeinode &&
      Consistent(sb, Used(), blocks, dinodes, owner) &&
      (forall b | freeblock <= b < sb.size && b < |blocks| :: blocks[b] == ZeroBlk()) &&
      (forall i | freeinode <= i < |dinodes| :: dinodes[i] == FreeInode())
    }

    /** main up to makedirs: every sector zeroed, the first nmeta blocks reserved. */
    constructor (sb: Super)
      requires sb.Valid()
      ensures Valid() && this.sb == sb && freeinode == 1 && freeblock == sb.nmeta
    {
      this.sb := sb;
      blocks := seq(sb.size, _ => ZeroBlk());
      dinodes := seq(sb.ninodes, _ => FreeInode());
      bits := seq(sb.size, _ => false);
      freeinode, freeblock, owner := 1, sb.nmeta, map[];
      new;
      EmptyFile(FreeInode(), blocks);
      assert forall i, k | 0 <= i < |dinodes| && 0 <= k < NSLOT :: SlotOwned(dinodes, blocks, owner, i, k);
    }

    /** ialloc.  ok is false when the inode table has no such entry. */
    method IAlloc(typ: int) returns (inum: nat, ok: bool)
      requires Valid() && typ != 0
      modifies this`dinodes, this`freeinode
      ensures ok == (old(freeinode) < |old(dinodes)|) && inum == old(freeinode)
      ensures ok ==> Valid() && freeinode == old(freeinode) + 1
      ensures ok ==> dinodes == old(dinodes)[inum := FreeInode().(typ := typ, nlink := 1)]
    {
      inum, freeinode := freeinode, freeinode + 1;
      ok := inum < |dinodes|;
      if ok {
        OwnedFreshInode(sb, Used(), blocks, dinodes, owner, inum, FreeInode().(typ := typ, nlink := 1));
        EmptyFile(FreeInode().(typ := typ, nlink := 1), blocks);
        dinodes := dinodes[inum := FreeInode().(typ := typ, nlink := 1)];
      }
    }

    /** freeblock++ into slot k <= NDIRECT of din. */
    method TakeSlot(inum: nat, din: Dinode, k: nat) returns (din': Dinode, ok: bool)
      requires Building(inum, din) && k <= NDIRECT && din.addrs[k] == 0
      modifies this`freeblock, this`owner
      ensures ok == (old(freeblock) < sb.size) && freeblock == old(freeblock) + (if ok then 1 else 0)
      ensures ok ==> Building(inum, din') && din' == din.(addrs := din.addrs[k := old(freeblock)])
      ensures ok ==> Allocated(dinodes[inum := din], blocks, dinodes[inum := din'], blocks, inum, k, old(freeblock))
    {
      hide Owned, Slot, Allocated;
      OwnedSized(sb, Used(), blocks, dinodes[inum := din], owner);
      din', ok := din, freeblock < sb.size;
      if ok {
        ghost var b, used := freeblock, Used();
        AllocSlot(sb, used, blocks, dinodes[inum := din], owner, inum, k, b);
        din' := din.(addrs := din.addrs[k := freeblock]);
        owner := owner[b := (inum, k)];
        freeblock := freeblock + 1;
        assert blocks[b := ZeroBlk()] == blocks && Used() == used[b := true];
        assert dinodes[inum := din][inum := din'] == dinodes[inum := din'];
      }
    }

    /** freeblock++ into the indirect-table entry that is slot k of din. */
    method TakeEntry(inum: nat, din: Dinode, k: nat) returns (ok: bool)
      requires Building(inum, din) && NDIRECT < k < NSLOT && din.addrs[NDIRECT] != 0 && Slot(din, blocks, k) == 0
      modifies this`freeblock, this`owner, this`blocks
      ensures ok == (old(freeblock) < sb.size) && freeblock == old(freeblock) + (if ok then 1 else 0)
      ensures ok ==> Building(inum, din) && Slot(din, blocks, k) == old(freeblock)
      ensures ok ==> Allocated(dinodes[inum := din], old(blocks), dinodes[inum := din], blocks, inum, k, old(freeblock))
    {
      hide Owned, Word, PutWord;
      ghost var inodes := dinodes[inum := din];
      OwnedSized(sb, Used(), blocks, inodes, owner);
      SlotInData(sb, Used(), blocks, inodes, owner, inum, NDIRECT);
      ok := freeblock < sb.size;
      if ok {
        var t := din.addrs[NDIRECT];
        ghost var b, used := freeblock, Used();
        AllocEntry(sb, used, blocks, inodes, owner, inum, k, b);
        assert blocks[b := ZeroBlk()] == blocks;
        blocks := blocks[t := PutWord(blocks[t], k - NDIRECT - 1, freeblock)];
        owner := owner[b := (inum, k)];
        freeblock := freeblock + 1;
        assert Used() == used[b := true];
      }
    }

    /** The block of iappend's round: fbn of din, taken from the counter if absent. */
    method FindBlock(inum: nat, din: Dinode, fbn: nat) returns (din': Dinode, x: nat, ok: bool)
      requires Building(inum, din) && fbn < MAXFILE
      modifies this`freeblock, this`owner, this`blocks
      ensures !ok ==> freeblock == sb.size
      ensures ok ==> Building(inum, din') && x == Addr(din', blocks, fbn) && freeblock >= old(freeblock)
      ensures ok ==> Mapped(dinodes[inum := din], old(blocks), dinodes[inum := din'], blocks, inum, fbn)
    {
      hide Owned, Word, PutWord, Mapped, Allocated;
      ghost var inodes0, blocks0 := dinodes[inum := din], blocks;
      OwnedSized(sb, Used(), blocks, inodes0, owner);
      din', ok := din, true;
      if fbn < NDIRECT {
        if din.addrs[fbn] == 0 {
          din', ok := TakeSlot(inum, din, fbn);
          if ok { MappedByOne(inodes0, blocks0, dinodes[inum := din'], blocks, inum, fbn, din'.addrs[fbn]); }
        } else {
          MappedAlready(inodes0, blocks0, inum, fbn);
        }
        x := din'.addrs[fbn];
      } else {
        x, din', ok := FindEntry(inum, din, fbn);
      }
    }

    method FindEntry(inum: nat, din: Dinode, fbn: nat) returns (x: nat, din': Dinode, ok: bool)
      requires Building(inum, din) && NDIRECT <= fbn < MAXFILE
      modifies this`freeblock, this`owner, this`blocks
      ensures !ok ==> freeblock == sb.size
      ensures ok ==> Building(inum, din') && x == Addr(din', blocks, fbn) && freeblock >= old(freeblock)
      ensures ok ==> Mapped(dinodes[inum := din], old(blocks), dinodes[inum := din'], blocks, inum, fbn)
    {
      hide Owned, Word, PutWord, Mapped, Allocated;
      ghost var inodes0, blocks0 := dinodes[inum := din], blocks;
      OwnedSized(sb, Used(), blocks, inodes0, owner);
      din', ok, x := din, true, 0;
      if din.addrs[NDIRECT] == 0 {
        din', ok := TakeSlot(inum, din, NDIRECT);
        if !ok { return; }
        ghost var inodes1 := dinodes[inum := din'];
        EmptyTable(inodes0, blocks0, inodes1, blocks, inum, din'.addrs[NDIRECT]);
        assert Slot(din', blocks, fbn + 1) == Slot(inodes1[inum], blocks, fbn + 1) == 0;
        ok := TakeEntry(inum, din', fbn + 1);
        if ok {
          MappedByTwo(inodes0, blocks0, inodes1, blocks0, inodes1, blocks, inum, fbn, din'.addrs[NDIRECT], Slot(din', blocks, fbn + 1));
        }
      } else if Slot(din, blocks, fbn + 1) == 0 {
        ok := TakeEntry(inum, din, fbn + 1);
        if ok { MappedByOne(inodes0, blocks0, inodes0, blocks, inum, fbn, Slot(din, blocks, fbn + 1)); }
      } else {
        MappedAlready(inodes0, blocks0, inum, fbn);
      }
      x := Slot(din', blocks, fbn + 1);
    }

    /** One round of iappend. */
    method AppendBlock(inum: nat, din: Dinode, fbn: nat, bo: nat, p: seq<byte>) returns (din': Dinode, ok: bool)
      requires Building(inum, din) && fbn < MAXFILE && bo + |p| <= BSIZE
      modifies this`freeblock, this`owner, this`blocks
      ensures !ok ==> freeblock == sb.size
      ensures ok ==> Building(inum, din') && Wrote(dinodes[inum := din], old(blocks), dinodes[inum := din'], blocks, inum, fbn, bo, p)
    {
      hide Owned, Slot, Mapped, Patched, Wrote;
      ghost var inodes0, blocks0 := dinodes[inum := din], blocks;
      var x;
      din', x, ok := FindBlock(inum, din, fbn);
      if ok {
        ghost var inodes1, blocks1 := dinodes[inum := din'], blocks;
        MappedAddr(inodes0, blocks0, inodes1, blocks1, inum, fbn);
        SlotInData(sb, Used(), blocks, inodes1, owner, inum, SlotOf(fbn));
        OwnedSized(sb, Used(), blocks, inodes1, owner);
        PatchBlock(sb, Used(), blocks, inodes1, owner, inum, fbn, bo, p);
        blocks := blocks[x := Patch(blocks[x], bo, p)];
        WroteAfterMap(inodes0, blocks0, inodes1, blocks1, blocks, inum, fbn, bo, p);
      }
    }

    /** iappend: the contents grow by exactly xp.  ok is false when the file would pass MAXFILE
        or the image is out of blocks. */
    method IAppend(inum: nat, xp: seq<byte>) returns (ok: bool)
      requires Valid() && inum < freeinode && inum < |dinodes| && dinodes[inum].typ != 0
      modifies this`blocks, this`dinodes, this`freeblock, this`owner
      ensures ok ==> Valid() && |dinodes| == |old(dinodes)|
      ensures !ok ==> freeblock == sb.size || old(dinodes[inum].size) + |xp| > MAXFILE * BSIZE
      ensures ok ==> Contents(dinodes[inum], blocks) == old(Contents(dinodes[inum], blocks)) + xp
      ensures ok ==> dinodes[inum] == old(dinodes[inum]).(size := old(dinodes[inum].size) + |xp|, addrs := dinodes[inum].addrs)
      ensures ok ==> forall j | 0 <= j < |dinodes| && j != inum ::
        dinodes[j] == old(dinodes)[j] && Contents(dinodes[j], blocks) == Contents(old(dinodes)[j], old(blocks))
    {
      hide Owned, Slot, Wrote, Written, FileOk, FileBlock, Contents, FreeInode, ZeroAddrs, ZeroBlk;
      FileSizes(sb, Used(), blocks, dinodes, owner);
      ghost var inodes0, blocks0 := dinodes, blocks;
      var din := dinodes[inum];
      var off0 := din.size;
      WrittenNothing(inodes0, blocks0, inum, off0);
      assert dinodes[inum := din] == dinodes && xp[..0] == [];
      var n := 0;
      ok := true;
      while n < |xp|
        invariant 0 <= n <= |xp| && ok && dinodes == inodes0 && Building(inum, din) && din == inodes0[inum].(addrs := din.addrs)
        invariant Written(inodes0, blocks0, dinodes[inum := din], blocks, inum, off0, xp[..n])
      {
        var off := off0 + n;
        var fbn := off / BSIZE;
        if fbn >= MAXFILE { return false; }
        var n1 := if |xp| - n < (fbn + 1) * BSIZE - off then |xp| - n else (fbn + 1) * BSIZE - off;
        ghost var inodes1, blocks1 := dinodes[inum := din], blocks;
        din, ok := AppendBlock(inum, din, fbn, off % BSIZE, xp[n..n + n1]);
        if !ok { return; }
        WroteKeeps(inodes1, blocks1, dinodes[inum := din], blocks, inum, fbn, off % BSIZE, xp[n..n + n1]);
        WrittenStep(inodes0, blocks0, inodes1, blocks1, dinodes[inum := din], blocks, inum, off0, xp[..n], xp[n..n + n1]);
        assert xp[..n + n1] == xp[..n] + xp[n..n + n1];
        n := n + n1;
      }
      assert xp[..n] == xp;
      ghost var inodes1 := dinodes[inum := din];
      WrittenIsSplice(inodes0, blocks0, inodes1, blocks, inum, off0, xp);
      WrittenOthers(inodes0, blocks0, inodes1, blocks, inum, off0, xp);
      OwnedResize(sb, Used(), blocks, inodes1, owner, inum, off0 + |xp|, din.typ);
      din := din.(size := off0 + |xp|);
      assert inodes1[inum := inodes1[inum].(size := off0 + |xp|, typ := din.typ)] == dinodes[inum := din];
      dinodes := dinodes[inum := din];
      assert Splice(Contents(inodes0[inum], blocks0), off0, xp) == Contents(inodes0[inum], blocks0) + xp;
    }

    /** balloc: the bitmap of the finished image.  The assertion that the bitmap fits one
        block is the caller's to meet. */
    method Balloc() returns (ok: bool)
      requires Valid()
      modifies this`bits
      ensures ok == (freeblock < BPB)
      ensures ok ==> Consistent(sb, bits, blocks, dinodes, owner)
    {
      ok := freeblock < BPB;
      if ok {
        var buf := seq(sb.size, _ => false);
        var i := 0;
        while i < freeblock
          invariant 0 <= i <= freeblock <= sb.size && |buf| == sb.size
          invariant forall b | 0 <= b < sb.size :: buf[b] == (b < i)
        {
          buf := buf[i := true];
          i := i + 1;
        }
        bits := buf;
        assert bits == Used();
      }
    }
  }
}
