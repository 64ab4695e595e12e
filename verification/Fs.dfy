/**
 Block allocation, inode contents and file writes (kernel/fs.c, kernel/file.c), as the
 operations of one process that holds the inode's lock inside a transaction.
 */
module Fs {
  import opened FsSpec
  import opened FsSteps

  /** struct inode: the in-memory copy of inode inum. */
  class Inode {
    const inum: nat
    var d: Dinode

    constructor (inum: nat, d: Dinode)
      ensures this.inum == inum && this.d == d
    {
      this.inum := inum;
      this.d := d;
    }
  }

  class FileSystem {
    const sb: Super
    var bits: seq<bool>
    var blocks: seq<Blk>
    var dinodes: seq<Dinode>
    /** The blocks logged by the current operation, and whether some log_write found
        MAXOPBLOCKS of them already there. */
    var logged: set<nat>
    var over: bool
    ghost var owner: Owners

    constructor (sb: Super, bits: seq<bool>, blocks: seq<Blk>, dinodes: seq<Dinode>, ghost owner: Owners)
      ensures this.sb == sb && this.bits == bits && this.blocks == blocks && this.dinodes == dinodes
      ensures this.owner == owner && logged == {} && !over
    {
      this.sb, this.bits, this.blocks, this.dinodes, this.owner := sb, bits, blocks, dinodes, owner;
      logged, over := {}, false;
    }

    /** The inode table with ip's copy in place of the one on disk. */
    ghost function Inodes(ip: Inode): seq<Dinode>
      requires ip.inum < |dinodes|
      reads this, ip
    {
      dinodes[ip.inum := ip.d]
    }

    ghost predicate Valid(ip: Inode)
      reads this, ip
    {
      ip.inum < |dinodes| && Owned(sb, bits, blocks, Inodes(ip), owner)
    }

    method LogWrite(b: nat)
      modifies this`logged, this`over
      ensures logged == old(logged) + {b}
      ensures |old(logged)| <= |logged| <= |old(logged)| + (if b in old(logged) then 0 else 1)
      ensures over == (old(over) || |old(logged)| >= MAXOPBLOCKS)
    {
      over := over || |logged| >= MAXOPBLOCKS;
      if b in logged { assert logged + {b} == logged; }
      logged := logged + {b};
    }

    /** Allocates the lowest free block, zeroed.  ok is false when the bitmap is full. */
    method Balloc() returns (b: nat, ok: bool)
      requires |bits| == |blocks| == sb.size
      modifies this`bits, this`blocks, this`logged, this`over
      ensures ok <==> exists x :: 0 <= x < sb.size && !old(bits)[x]
      ensures !ok ==> bits == old(bits) && blocks == old(blocks) && logged == old(logged) && over == old(over)
      ensures ok ==> b < sb.size && !old(bits)[b] && (forall x | 0 <= x < b :: old(bits)[x])
      ensures ok ==> bits == old(bits)[b := true] && blocks == old(blocks)[b := ZeroBlk()]
      ensures ok ==> logged == old(logged) + {sb.BBlock(b), b} && |logged| <= |old(logged)| + 2
      ensures ok && |logged| <= MAXOPBLOCKS - 1 ==> over == old(over)
    {
      b := 0;
      var base := 0;
      while base < sb.size
        invariant 0 <= base && base % BPB == 0
        invariant bits == old(bits) && blocks == old(blocks) && logged == old(logged) && over == old(over)
        invariant forall x | 0 <= x < base && x < sb.size :: bits[x]
        decreases sb.size - base
      {
        var bi := 0;
        while bi < BPB && base + bi < sb.size
          invariant 0 <= bi <= BPB
          invariant bits == old(bits) && blocks == old(blocks) && logged == old(logged) && over == old(over)
          invariant forall x | 0 <= x < base + bi && x < sb.size :: bits[x]
        {
          if !bits[base + bi] {
            b, ok := base + bi, true;
            bits := bits[b := true];
            assert base / BPB == b / BPB;
            LogWrite(sb.BBlock(base));
            blocks := blocks[b := ZeroBlk()];
            LogWrite(b);
            assert logged == old(logged) + {sb.BBlock(b), b};
            return;
          }
          bi := bi + 1;
        }
        base := base + BPB;
      }
      ok := false;
    }

    /** Nothing changed. */
    twostate predicate Untouched(ip: Inode)
      reads this, ip
    {
      bits == old(bits) && blocks == old(blocks) && owner == old(owner) && logged == old(logged) && over == old(over) && ip.d == old(ip.d)
    }

    /** Allocates a block into slot k <= NDIRECT of ip. */
    method AllocInto(ip: Inode, k: nat) returns (addr: nat, ok: bool)
      requires Valid(ip) && k <= NDIRECT && ip.d.addrs[k] == 0
      modifies this`bits, this`blocks, this`logged, this`over, this`owner, ip`d
      ensures !ok ==> forall x | 0 <= x < |bits| :: bits[x]
      ensures ok ==> Valid(ip) && sb.nmeta <= addr < sb.size && ip.d == old(ip.d).(addrs := old(ip.d).addrs[k := addr])
      ensures ok ==> Allocated(old(Inodes(ip)), old(blocks), Inodes(ip), blocks, ip.inum, k, addr)
      ensures ok ==> logged == old(logged) + {sb.BBlock(addr), addr} && |logged| <= |old(logged)| + 2
      ensures ok ==> Covered(sb, old(bits), old(blocks), bits, blocks, logged)
      ensures ok && |logged| <= MAXOPBLOCKS - 1 ==> over == old(over)
    {
      hide Owned;
      OwnedSized(sb, bits, blocks, Inodes(ip), owner);
      ghost var bits0, blocks0, inodes0 := bits, blocks, Inodes(ip);
      addr, ok := Balloc();
      if ok {
        AllocSlot(sb, bits0, blocks0, inodes0, owner, ip.inum, k, addr);
        ip.d := ip.d.(addrs := ip.d.addrs[k := addr]);
        owner := owner[addr := (ip.inum, k)];
        assert Inodes(ip) == inodes0[ip.inum := inodes0[ip.inum].(addrs := inodes0[ip.inum].addrs[k := addr])];
      }
    }

    /** Allocates a block into the indirect-table entry that is slot k of ip. */
    method AllocEntryInto(ip: Inode, k: nat) returns (addr: nat, ok: bool)
      requires Valid(ip) && NDIRECT < k < NSLOT && ip.d.addrs[NDIRECT] != 0 && Slot(ip.d, blocks, k) == 0
      modifies this`bits, this`blocks, this`logged, this`over, this`owner
      ensures !ok ==> forall x | 0 <= x < |bits| :: bits[x]
      ensures ok ==> Valid(ip) && sb.nmeta <= addr < sb.size && Slot(ip.d, blocks, k) == addr
      ensures ok ==> Allocated(old(Inodes(ip)), old(blocks), Inodes(ip), blocks, ip.inum, k, addr)
      ensures ok ==> logged == old(logged) + {sb.BBlock(addr), addr, ip.d.addrs[NDIRECT]}
      ensures ok ==> |logged| <= |old(logged)| + 2 + (if ip.d.addrs[NDIRECT] in old(logged) then 0 else 1)
      ensures ok ==> Covered(sb, old(bits), old(blocks), bits, blocks, logged)
      ensures ok && |logged| <= MAXOPBLOCKS - 1 ==> over == old(over)
    {
      hide Owned, Word, PutWord;
      OwnedSized(sb, bits, blocks, Inodes(ip), owner);
      SlotInData(sb, bits, blocks, Inodes(ip), owner, ip.inum, NDIRECT);
      ghost var bits0, blocks0, inodes0 := bits, blocks, Inodes(ip);
      var t := ip.d.addrs[NDIRECT];
      addr, ok := Balloc();
      if ok {
        AllocEntry(sb, bits0, blocks0, inodes0, owner, ip.inum, k, addr);
        blocks := blocks[t := PutWord(blocks[t], k - NDIRECT - 1, addr)];
        LogWrite(t);
        owner := owner[addr := (ip.inum, k)];
      }
    }

    /** The part of bmap that finds or allocates an entry of an existing indirect table. */
    method BmapEntry(ip: Inode, bn: nat) returns (addr: nat, ok: bool)
      requires Valid(ip) && NDIRECT <= bn < MAXFILE && ip.d.addrs[NDIRECT] != 0
      modifies this`bits, this`blocks, this`logged, this`over, this`owner
      ensures bn < MAXFILE && old(Addr(ip.d, blocks, bn)) != 0 ==> ok && Untouched(ip)
      ensures !ok ==> forall x | 0 <= x < |bits| :: bits[x]
      ensures ok ==> Valid(ip) && addr == Addr(ip.d, blocks, bn) != 0
      ensures ok && Addr(ip.d, old(blocks), bn) != 0 ==> blocks == old(blocks) && logged == old(logged)
      ensures ok && Addr(ip.d, old(blocks), bn) == 0 ==>
        Allocated(old(Inodes(ip)), old(blocks), Inodes(ip), blocks, ip.inum, bn + 1, addr) &&
        logged == old(logged) + {sb.BBlock(addr), addr, ip.d.addrs[NDIRECT]}
      ensures ok ==> |logged| <= |old(logged)| + MapCost(ip.d, old(blocks), bn, old(logged))
      ensures ok ==> Covered(sb, old(bits), old(blocks), bits, blocks, logged)
      ensures ok && |logged| <= MAXOPBLOCKS - 1 ==> over == old(over)
    {
      hide Owned, Word, PutWord, Allocated, Covered;
      OwnedSized(sb, bits, blocks, Inodes(ip), owner);
      SlotInData(sb, bits, blocks, Inodes(ip), owner, ip.inum, NDIRECT);
      CoveredSame(sb, bits, blocks, logged);
      addr, ok := Word(blocks[ip.d.addrs[NDIRECT]], bn - NDIRECT), true;
      if addr == 0 {
        addr, ok := AllocEntryInto(ip, bn + 1);
      }
    }

    /** bmap: the disk address of block bn of ip, allocated if necessary.  ok is false for the
        panics: bn out of range, or no free block. */
    method Bmap(ip: Inode, bn: nat) returns (addr: nat, ok: bool)
      requires Valid(ip)
      modifies this`bits, this`blocks, this`logged, this`over, this`owner, ip`d
      ensures bn < MAXFILE && old(Addr(ip.d, blocks, bn)) != 0 ==> ok && Untouched(ip)
      ensures !ok ==> bn >= MAXFILE || forall x | 0 <= x < |bits| :: bits[x]
      ensures ok ==> Valid(ip) && bn < MAXFILE && addr == Addr(ip.d, blocks, bn)
      ensures ok ==> Mapped(old(Inodes(ip)), old(blocks), Inodes(ip), blocks, ip.inum, bn)
      ensures ok ==> logged == old(logged) + MapLogs(sb, old(ip.d), old(blocks), ip.d, blocks, bn)
      ensures ok ==> |logged| <= |old(logged)| + MapCost(old(ip.d), old(blocks), bn, old(logged))
      ensures ok ==> Covered(sb, old(bits), old(blocks), bits, blocks, logged)
      ensures ok && |logged| <= MAXOPBLOCKS - 1 ==> over == old(over)
    {
      hide Owned, Word, PutWord, Mapped, Slot, Covered;
      if bn < NDIRECT {
        addr, ok := BmapDirect(ip, bn);
      } else if bn - NDIRECT < NINDIRECT {
        NoTable(ip.d, blocks, bn);
        if ip.d.addrs[NDIRECT] == 0 {
          addr, ok := BmapNewTable(ip, bn);
        } else {
          addr, ok := BmapOldTable(ip, bn);
        }
      } else {
        addr, ok := 0, false;
      }
    }

    method BmapDirect(ip: Inode, bn: nat) returns (addr: nat, ok: bool)
      requires Valid(ip) && bn < NDIRECT
      modifies this`bits, this`blocks, this`logged, this`over, this`owner, ip`d
      ensures bn < MAXFILE && old(Addr(ip.d, blocks, bn)) != 0 ==> ok && Untouched(ip)
      ensures !ok ==> forall x | 0 <= x < |bits| :: bits[x]
      ensures ok ==> Valid(ip) && addr == Addr(ip.d, blocks, bn)
      ensures ok ==> Mapped(old(Inodes(ip)), old(blocks), Inodes(ip), blocks, ip.inum, bn)
      ensures ok ==> logged == old(logged) + MapLogs(sb, old(ip.d), old(blocks), ip.d, blocks, bn)
      ensures ok ==> |logged| <= |old(logged)| + MapCost(old(ip.d), old(blocks), bn, old(logged))
      ensures ok ==> Covered(sb, old(bits), old(blocks), bits, blocks, logged)
      ensures ok && |logged| <= MAXOPBLOCKS - 1 ==> over == old(over)
    {
      hide Owned, Word, PutWord, Mapped, Allocated, Covered;
      OwnedSized(sb, bits, blocks, Inodes(ip), owner);
      ghost var inodes0, blocks0 := Inodes(ip), blocks;
      CoveredSame(sb, bits, blocks, logged);
      addr, ok := ip.d.addrs[bn], true;
      if addr == 0 {
        addr, ok := AllocInto(ip, bn);
        if ok { MappedByOne(inodes0, blocks0, Inodes(ip), blocks, ip.inum, bn, addr); }
      } else {
        MappedAlready(inodes0, blocks0, ip.inum, bn);
      }
    }

    method BmapOldTable(ip: Inode, bn: nat) returns (addr: nat, ok: bool)
      requires Valid(ip) && NDIRECT <= bn < MAXFILE && ip.d.addrs[NDIRECT] != 0
      modifies this`bits, this`blocks, this`logged, this`over, this`owner
      ensures bn < MAXFILE && old(Addr(ip.d, blocks, bn)) != 0 ==> ok && Untouched(ip)
      ensures !ok ==> forall x | 0 <= x < |bits| :: bits[x]
      ensures ok ==> Valid(ip) && addr == Addr(ip.d, blocks, bn)
      ensures ok ==> Mapped(old(Inodes(ip)), old(blocks), Inodes(ip), blocks, ip.inum, bn)
      ensures ok ==> logged == old(logged) + MapLogs(sb, old(ip.d), old(blocks), ip.d, blocks, bn)
      ensures ok ==> |logged| <= |old(logged)| + MapCost(old(ip.d), old(blocks), bn, old(logged))
      ensures ok ==> Covered(sb, old(bits), old(blocks), bits, blocks, logged)
      ensures ok && |logged| <= MAXOPBLOCKS - 1 ==> over == old(over)
    {
      hide Owned, Word, PutWord, Mapped, Allocated, Covered;
      OwnedSized(sb, bits, blocks, Inodes(ip), owner);
      ghost var inodes0, blocks0 := Inodes(ip), blocks;
      addr, ok := BmapEntry(ip, bn);
      if ok && Addr(ip.d, blocks0, bn) == 0 {
        MappedByOne(inodes0, blocks0, Inodes(ip), blocks, ip.inum, bn, addr);
      } else if ok {
        MappedAlready(inodes0, blocks0, ip.inum, bn);
      }
    }

    /** The part of bmap that allocates the indirect table first. */
    method BmapNewTable(ip: Inode, bn: nat) returns (addr: nat, ok: bool)
      requires Valid(ip) && NDIRECT <= bn < MAXFILE && ip.d.addrs[NDIRECT] == 0
      modifies this`bits, this`blocks, this`logged, this`over, this`owner, ip`d
      ensures !ok ==> forall x | 0 <= x < |bits| :: bits[x]
      ensures ok ==> Valid(ip) && addr == Addr(ip.d, blocks, bn)
      ensures ok ==> Mapped(old(Inodes(ip)), old(blocks), Inodes(ip), blocks, ip.inum, bn)
      ensures ok ==> logged == old(logged) + MapLogs(sb, old(ip.d), old(blocks), ip.d, blocks, bn)
      ensures ok ==> |logged| <= |old(logged)| + MapCost(old(ip.d), old(blocks), bn, old(logged))
      ensures ok ==> Covered(sb, old(bits), old(blocks), bits, blocks, logged)
      ensures ok && |logged| <= MAXOPBLOCKS - 1 ==> over == old(over)
    {
      hide Owned, Word, PutWord, Mapped, Allocated, Covered;
      OwnedSized(sb, bits, blocks, Inodes(ip), owner);
      ghost var inodes0, blocks0 := Inodes(ip), blocks;
      var t;
      t, ok := AllocInto(ip, NDIRECT);
      if !ok { return 0, false; }
      ghost var inodes1, blocks1, bits1, logs1 := Inodes(ip), blocks, bits, logged;
      EmptyTable(inodes0, blocks0, inodes1, blocks1, ip.inum, t);
      assert Addr(ip.d, blocks, bn) == Slot(inodes1[ip.inum], blocks1, bn + 1) == 0;
      addr, ok := BmapEntry(ip, bn);
      if ok {
        SubCard(logs1, logged);
        CoveredTrans(sb, old(bits), blocks0, bits1, blocks1, bits, blocks, logs1, logged);
        MappedByTwo(inodes0, blocks0, inodes1, blocks1, Inodes(ip), blocks, ip.inum, bn, t, addr);
      }
    }

    /** One round of writei: bytes x into block bn of ip at offset bo. */
    method WriteBlock(ip: Inode, bn: nat, bo: nat, x: seq<byte>) returns (ok: bool)
      requires Valid(ip) && bo + |x| <= BSIZE
      modifies this`bits, this`blocks, this`logged, this`over, this`owner, ip`d
      ensures !ok ==> bn >= MAXFILE || forall y | 0 <= y < |bits| :: bits[y]
      ensures ok ==> Valid(ip) && bn < MAXFILE
      ensures ok ==> Wrote(old(Inodes(ip)), old(blocks), Inodes(ip), blocks, ip.inum, bn, bo, x)
      ensures ok ==> logged == old(logged) + MapLogs(sb, old(ip.d), old(blocks), ip.d, blocks, bn) + {Addr(ip.d, blocks, bn)}
      ensures ok ==> |logged| <= |old(logged)| + Max(1, MapCost(old(ip.d), old(blocks), bn, old(logged)))
      ensures ok ==> Covered(sb, old(bits), old(blocks), bits, blocks, logged)
      ensures ok && |logged| <= MAXOPBLOCKS - 1 ==> over == old(over)
    {
      hide Owned, Slot, Mapped, MapLogs, Patched, Wrote, Covered;
      ghost var inodes0, blocks0 := Inodes(ip), blocks;
      var a;
      a, ok := Bmap(ip, bn);
      if ok {
        ghost var blocks1 := blocks;
        MappedAddr(inodes0, blocks0, Inodes(ip), blocks1, ip.inum, bn);
        SlotInData(sb, bits, blocks, Inodes(ip), owner, ip.inum, SlotOf(bn));
        OwnedSized(sb, bits, blocks, Inodes(ip), owner);
        PatchBlock(sb, bits, blocks, Inodes(ip), owner, ip.inum, bn, bo, x);
        blocks := blocks[a := Patch(blocks[a], bo, x)];
        WroteAfterMap(inodes0, blocks0, Inodes(ip), blocks1, blocks, ip.inum, bn, bo, x);
        PatchedAddr(Inodes(ip), blocks1, blocks, ip.inum, bn, bo, x);
        SameLogs(sb, old(ip.d), blocks0, ip.d, blocks1, blocks, bn);
        FreshLogged(sb, old(ip.d), blocks0, ip.d, blocks, bn);
        ghost var logs1 := logged;
        LogWrite(a);
        CoveredOne(sb, bits, blocks1, blocks, logged, a);
        CoveredTrans(sb, old(bits), blocks0, bits, blocks1, bits, blocks, logs1, logged);
      }
    }

    /** Copies the in-memory inode to the disk. */
    method IUpdate(ip: Inode)
      requires Valid(ip)
      modifies this`dinodes, this`logged, this`over
      ensures Valid(ip) && dinodes == old(dinodes)[ip.inum := ip.d] && Inodes(ip) == old(Inodes(ip))
      ensures logged == old(logged) + {sb.IBlock(ip.inum)}
      ensures over == (old(over) || |old(logged)| >= MAXOPBLOCKS)
    {
      dinodes := dinodes[ip.inum := ip.d];
      assert Inodes(ip) == old(Inodes(ip));
      LogWrite(sb.IBlock(ip.inum));
    }

    /** The loop of writei. */
    method WriteLoop(ip: Inode, src: seq<byte>, off: nat) returns (ok: bool)
      requires Valid(ip) && FileOk(ip.d, blocks) && off <= ip.d.size && off + |src| <= MAXFILE * BSIZE
      modifies this`bits, this`blocks, this`logged, this`over, this`owner, ip`d
      ensures !ok ==> forall y | 0 <= y < |bits| :: bits[y]
      ensures ok ==> Valid(ip) && Written(old(Inodes(ip)), old(blocks), Inodes(ip), blocks, ip.inum, off, src)
      ensures ok && old(logged) == {} ==> LogsOk(old(ip.d), ip.d, logged, off, |src|)
      ensures ok ==> Covered(sb, old(bits), old(blocks), bits, blocks, logged)
      ensures ok && old(logged) == {} && |logged| <= MAXOPBLOCKS - 1 ==> over == old(over)
    {
      hide Owned, Slot, Wrote, Written, LogsOk, MapLogs, FileBlock, Covered;
      ghost var inodes0, blocks0, d0 := Inodes(ip), blocks, ip.d;
      WrittenNothing(inodes0, blocks0, ip.inum, off);
      CoveredSame(sb, bits, blocks, logged);
      LogsNothing(d0, off);
      assert src[..0] == [];
      var tot := 0;
      ok := true;
      while tot < |src|
        invariant 0 <= tot <= |src| && ok && Valid(ip)
        invariant Written(inodes0, blocks0, Inodes(ip), blocks, ip.inum, off, src[..tot])
        invariant Covered(sb, old(bits), old(blocks), bits, blocks, logged)
        invariant 0 < tot < |src| ==> (off + tot) % BSIZE == 0
        invariant old(logged) == {} ==> LogsOk(d0, ip.d, logged, off, tot)
        invariant old(logged) == {} && |logged| <= MAXOPBLOCKS - 1 ==> over == old(over)
      {
        var o := off + tot;
        var m := if |src| - tot < BSIZE - o % BSIZE then |src| - tot else BSIZE - o % BSIZE;
        ghost var inodes1, blocks1, bits1, d1, logs1 := Inodes(ip), blocks, bits, ip.d, logged;
        ok := WriteBlock(ip, o / BSIZE, o % BSIZE, src[tot..tot + m]);
        if !ok { return; }
        CoveredTrans(sb, old(bits), blocks0, bits1, blocks1, bits, blocks, logs1, logged);
        WrittenStep(inodes0, blocks0, inodes1, blocks1, Inodes(ip), blocks, ip.inum, off, src[..tot], src[tot..tot + m]);
        assert src[..tot + m] == src[..tot] + src[tot..tot + m];
        if old(logged) == {} {
          FreshLogged(sb, d1, blocks1, ip.d, blocks, o / BSIZE);
          LogsStep(inodes0, blocks0, inodes1, blocks1, Inodes(ip), blocks, ip.inum, logs1, logged, off, src[..tot], src[tot..tot + m]);
          SubCard(logs1, logged);
        }
        tot := tot + m;
      }
      assert src[..tot] == src;
    }

    ghost predicate Ok()
      reads this
    {
      Consistent(sb, bits, blocks, dinodes, owner)
    }

    /** writei.  `dev` is what the device's write routine would return. */
    method WriteI(ip: Inode, src: seq<byte>, off: nat, dev: int) returns (r: int, ok: bool)
      requires Ok() && ip.inum < |dinodes| && ip.d == dinodes[ip.inum] && ip.d.typ != 0 && off < UINT && |src| < UINT
      modifies this`bits, this`blocks, this`dinodes, this`logged, this`over, this`owner, ip`d
      ensures !ok ==> old(ip.d).typ != T_DEV && forall y | 0 <= y < |bits| :: bits[y]
      ensures ok ==> Ok() && |dinodes| == |old(dinodes)| && ip.d == dinodes[ip.inum]
      ensures ok ==> ip.d == old(ip.d).(size := ip.d.size, addrs := ip.d.addrs)
      ensures ok && old(ip.d).typ == T_DEV ==> r == dev && bits == old(bits) && blocks == old(blocks) && dinodes == old(dinodes)
      ensures ok && old(ip.d).typ != T_DEV ==>
        r == if off <= old(ip.d).size && off + |src| <= MAXFILE * BSIZE then |src| else -1
      ensures ok && old(ip.d).typ != T_DEV && r == -1 ==> bits == old(bits) && blocks == old(blocks) && dinodes == old(dinodes)
      ensures ok && old(ip.d).typ != T_DEV && r != -1 ==>
        Contents(ip.d, blocks) == Splice(old(Contents(ip.d, blocks)), off, src)
      ensures ok ==> forall j | 0 <= j < |dinodes| && j != ip.inum ::
        dinodes[j] == old(dinodes)[j] && Contents(dinodes[j], blocks) == Contents(old(dinodes)[j], old(blocks))
      ensures ok ==> forall j | 0 <= j < |dinodes| && j != ip.inum :: KeptFile(dinodes[j], old(blocks), blocks)
      ensures ok ==> Covered(sb, old(bits), old(blocks), bits, blocks, logged)
      ensures ok && dinodes != old(dinodes) ==> sb.IBlock(ip.inum) in logged
      ensures ok && old(logged) == {} && |src| <= CHUNK ==> |logged| <= MAXOPBLOCKS && over == old(over)
    {
      hide Owned, Slot, Written, LogsOk, KeptFile, Covered, FileOk, Contents;
      ghost var inodes0, blocks0 := dinodes, blocks;
      assert Inodes(ip) == dinodes;
      CoveredSame(sb, bits, blocks, logged);
      FileSizes(sb, bits, blocks, dinodes, owner);
      KeptSame(dinodes, blocks);
      if ip.d.typ == T_DEV { return dev, true; }
      var end := (off + |src|) % UINT;
      if off > ip.d.size || end < off { return -1, true; }
      if end > MAXFILE * BSIZE { return -1, true; }
      ok := WriteLoop(ip, src, off);
      if !ok { return -1, false; }
      ghost var inodes1 := Inodes(ip);
      WrittenIsSplice(inodes0, blocks0, inodes1, blocks, ip.inum, off, src);
      WrittenOthers(inodes0, blocks0, inodes1, blocks, ip.inum, off, src);
      if old(logged) == {} && |src| <= CHUNK { ChunkFits(old(ip.d), ip.d, logged, off, |src|); }
      if |src| > 0 && off + |src| > ip.d.size {
        OwnedResize(sb, bits, blocks, inodes1, owner, ip.inum, off + |src|, ip.d.typ);
        ip.d := ip.d.(size := off + |src|);
        assert Inodes(ip) == inodes1[ip.inum := inodes1[ip.inum].(size := off + |src|, typ := inodes1[ip.inum].typ)];
        ghost var logs := logged;
        IUpdate(ip);
        CoveredMore(sb, old(bits), blocks0, bits, blocks, logs, logged);
      }
      r := |src|;
    }

    /** readi.  Reads a slice of the contents; bmap never allocates on its behalf. */
    method ReadI(ip: Inode, off: nat, n: nat, dev: int) returns (dst: seq<byte>, r: int)
      requires Ok() && ip.inum < |dinodes| && ip.d == dinodes[ip.inum] && off < UINT && n < UINT
      modifies this`bits, this`blocks, this`logged, this`over, this`owner, ip`d
      ensures bits == old(bits) && blocks == old(blocks) && logged == old(logged) && ip.d == old(ip.d) && Ok()
      ensures ip.d.typ == T_DEV ==> r == dev
      ensures ip.d.typ != T_DEV && (off > ip.d.size || off + n >= UINT) ==> r == -1
      ensures ip.d.typ != T_DEV && off <= ip.d.size && off + n < UINT ==>
        r == (if off + n <= ip.d.size then n else ip.d.size - off) && dst == Contents(ip.d, blocks)[off..off + r]
    {
      hide Owned, Slot, Mapped, MapLogs, Covered, Contents, Dense;
      dst := [];
      FileSizes(sb, bits, blocks, dinodes, owner);
      if ip.d.typ == T_DEV { return dst, dev; }
      if off > ip.d.size || (off + n) % UINT < off { return dst, -1; }
      var n' := if off + n > ip.d.size then ip.d.size - off else n;
      var tot := 0;
      while tot < n'
        invariant 0 <= tot <= n' && |dst| == tot
        invariant bits == old(bits) && blocks == old(blocks) && logged == old(logged) && ip.d == old(ip.d) && Ok()
        invariant dst == Contents(ip.d, blocks)[off..off + tot]
      {
        var o := off + tot;
        assert Inodes(ip) == dinodes;
        PresentBlock(ip.d, blocks, o);
        SlotInData(sb, bits, blocks, dinodes, owner, ip.inum, SlotOf(o / BSIZE));
        var a, ok := Bmap(ip, o / BSIZE);
        var m := if n' - tot < BSIZE - o % BSIZE then n' - tot else BSIZE - o % BSIZE;
        ReadStep(ip.d, blocks, off, o, m);
        dst := dst + blocks[a][o % BSIZE..o % BSIZE + m];
        tot := tot + m;
      }
      r := n';
    }

    /** bfree.  ok is false for the panic "freeing free block". */
    method Bfree(b: nat) returns (ok: bool)
      requires b < |bits|
      modifies this`bits, this`logged, this`over
      ensures ok == old(bits)[b]
      ensures ok ==> bits == old(bits)[b := false] && logged == old(logged) + {sb.BBlock(b)}
      ensures ok ==> over == (old(over) || |old(logged)| >= MAXOPBLOCKS)
    {
      ok := bits[b];
      if ok {
        bits := bits[b := false];
        LogWrite(sb.BBlock(b));
      }
    }

    /** One round of itrunc's first loop. */
    method FreeDirect(ip: Inode, k: nat, ghost owner0: Owners, ghost keep: set<nat>) returns (ok: bool)
      requires Valid(ip) && k < NDIRECT && Cut(owner0, owner, ip.inum, keep)
      modifies this`bits, this`logged, this`over, this`owner, ip`d
      ensures ok && Valid(ip) && ip.d == old(ip.d).(addrs := old(ip.d).addrs[k := 0])
      ensures Cut(owner0, owner, ip.inum, keep - {k})
      ensures Freeing(sb, ip.inum, old(bits), old(logged), old(over), bits, logged, over)
    {
      hide Owned, Cut, Word, Freeing;
      ok := true;
      ghost var inodes0 := Inodes(ip);
      FreeingNone(sb, ip.inum, bits, logged, over);
      OwnedSized(sb, bits, blocks, inodes0, owner);
      CutStep(sb, bits, blocks, inodes0, owner0, owner, ip.inum, k, keep);
      if ip.d.addrs[k] != 0 {
        FreeSlot(sb, bits, blocks, inodes0, owner, ip.inum, k);
        owner := owner - {ip.d.addrs[k]};
        FreeingBit(sb, ip.inum, bits, logged, over, bits, logged, over, ip.d.addrs[k]);
        ok := Bfree(ip.d.addrs[k]);
        ip.d := ip.d.(addrs := ip.d.addrs[k := 0]);
        assert Inodes(ip) == inodes0[ip.inum := inodes0[ip.inum].(addrs := inodes0[ip.inum].addrs[k := 0])];
      } else {
        assert ip.d.addrs[k := 0] == ip.d.addrs;
      }
    }

    /** The loop over the entries of the indirect table t.  The table itself is not rewritten;
        `view` is the disk with the freed entries cleared. */
    method FreeEntries(ip: Inode, ghost owner0: Owners) returns (ok: bool, ghost view: seq<Blk>)
      requires Valid(ip) && ip.d.addrs[NDIRECT] != 0 && Cut(owner0, owner, ip.inum, SlotsFrom(NDIRECT))
      modifies this`bits, this`logged, this`over, this`owner
      ensures ok && ip.inum < |dinodes| && Owned(sb, bits, view, Inodes(ip), owner) && Cut(owner0, owner, ip.inum, {NDIRECT})
      ensures |view| == |blocks| && forall b | 0 <= b < |blocks| && b != ip.d.addrs[NDIRECT] :: view[b] == blocks[b]
      ensures forall k | NDIRECT < k < NSLOT :: Slot(ip.d, view, k) == 0
      ensures Freeing(sb, ip.inum, old(bits), old(logged), old(over), bits, logged, over)
    {
      hide Owned, Cut, Word, PutWord, SlotsFrom, Freeing;
      ok, view := true, blocks;
      FreeingNone(sb, ip.inum, bits, logged, over);
      var t := ip.d.addrs[NDIRECT];
      OwnedSized(sb, bits, blocks, Inodes(ip), owner);
      SlotInData(sb, bits, blocks, Inodes(ip), owner, ip.inum, NDIRECT);
      assert SlotsFrom(NDIRECT) == {NDIRECT} + SlotsFrom(NDIRECT + 1);
      var j := 0;
      while j < NINDIRECT
        invariant 0 <= j <= NINDIRECT && ok && |view| == |blocks| && Owned(sb, bits, view, Inodes(ip), owner)
        invariant Cut(owner0, owner, ip.inum, {NDIRECT} + SlotsFrom(NDIRECT + 1 + j))
        invariant forall b | 0 <= b < |blocks| && b != t :: view[b] == blocks[b]
        invariant forall k | 0 <= k < NINDIRECT :: Word(view[t], k) == if k < j then 0 else Word(blocks[t], k)
        invariant Freeing(sb, ip.inum, old(bits), old(logged), old(over), bits, logged, over)
      {
        ghost var s := NDIRECT + 1 + j;
        OwnedSized(sb, bits, view, Inodes(ip), owner);
        CutStep(sb, bits, view, Inodes(ip), owner0, owner, ip.inum, s, {NDIRECT} + SlotsFrom(s));
        assert {NDIRECT} + SlotsFrom(s) - {s} == {NDIRECT} + SlotsFrom(s + 1);
        var a := Word(blocks[t], j);
        assert a == Slot(ip.d, view, s);
        if a != 0 {
          FreeEntry(sb, bits, view, Inodes(ip), owner, ip.inum, s);
          PutWordIs(view[t], j, 0);
          view := view[t := PutWord(view[t], j, 0)];
          owner := owner - {a};
          FreeingBit(sb, ip.inum, old(bits), old(logged), old(over), bits, logged, over, a);
          ok := Bfree(a);
        }
        j := j + 1;
      }
      assert {NDIRECT} + SlotsFrom(NSLOT) == {NDIRECT};
    }

    /** The second half of itrunc. */
    method FreeTable(ip: Inode, ghost owner0: Owners) returns (ok: bool)
      requires Valid(ip) && Cut(owner0, owner, ip.inum, SlotsFrom(NDIRECT))
      modifies this`bits, this`logged, this`over, this`owner, ip`d
      ensures ok && Valid(ip) && ip.d == old(ip.d).(addrs := old(ip.d).addrs[NDIRECT := 0])
      ensures Cut(owner0, owner, ip.inum, {})
      ensures Freeing(sb, ip.inum, old(bits), old(logged), old(over), bits, logged, over)
    {
      hide Owned, Cut, Word, Freeing;
      ok := true;
      FreeingNone(sb, ip.inum, bits, logged, over);
      var t := ip.d.addrs[NDIRECT];
      if t != 0 {
        OwnedSized(sb, bits, blocks, Inodes(ip), owner);
        ghost var view;
        ok, view := FreeEntries(ip, owner0);
        ghost var inodes0 := Inodes(ip);
        FreeSlot(sb, bits, view, inodes0, owner, ip.inum, NDIRECT);
        OneTable(sb, bits, view, inodes0, owner, ip.inum, NDIRECT);
        CutStep(sb, bits, view, inodes0, owner0, owner, ip.inum, NDIRECT, {NDIRECT});
        assert {NDIRECT} - {NDIRECT} == {};
        OwnedSized(sb, bits, view, inodes0, owner);
        owner := owner - {t};
        FreeingBit(sb, ip.inum, old(bits), old(logged), old(over), bits, logged, over, t);
        ok := Bfree(t);
        ip.d := ip.d.(addrs := ip.d.addrs[NDIRECT := 0]);
        assert Inodes(ip) == inodes0[ip.inum := inodes0[ip.inum].(addrs := inodes0[ip.inum].addrs[NDIRECT := 0])];
        FreeTableIrrelevant(sb, bits, view, blocks, Inodes(ip), owner, t);
      } else {
        CutTable(sb, bits, blocks, Inodes(ip), owner0, owner, ip.inum);
        assert ip.d.addrs[NDIRECT := 0] == ip.d.addrs;
      }
    }

    /** itrunc: frees exactly the blocks of ip, and never finds one of them already free. */
    method ITrunc(ip: Inode) returns (ok: bool)
      requires Ok() && ip.inum < |dinodes| && ip.d == dinodes[ip.inum]
      modifies this`bits, this`dinodes, this`logged, this`over, this`owner, ip`d
      ensures ok && Ok()
      ensures ip.d == old(ip.d).(size := 0, addrs := ZeroAddrs()) && dinodes == old(dinodes)[ip.inum := ip.d]
      ensures |bits| == |old(bits)| == sb.size
      ensures forall b | sb.nmeta <= b < sb.size :: bits[b] <==> old(bits)[b] && !HeldBy(old(ip.d), blocks, b)
      ensures Covered(sb, old(bits), blocks, bits, blocks, logged) && old(logged) <= logged && sb.IBlock(ip.inum) in logged
      ensures Freeing(sb, ip.inum, old(bits), old(logged), old(over), bits, logged, over)
    {
      hide Owned, Slot, Cut, SlotsFrom, HeldBy, FileOk, Covered, Freeing;
      assert Inodes(ip) == dinodes;
      FreeingNone(sb, ip.inum, bits, logged, over);
      FileSizes(sb, bits, blocks, dinodes, owner);
      ghost var inodes0, bits0, owner0 := dinodes, bits, owner;
      CutNone(sb, bits, blocks, Inodes(ip), owner, ip.inum);
      var i := 0;
      while i < NDIRECT
        invariant 0 <= i <= NDIRECT && Valid(ip) && dinodes == old(dinodes)
        invariant ip.d == old(ip.d).(addrs := ip.d.addrs)
        invariant forall k | 0 <= k < i :: ip.d.addrs[k] == 0
        invariant Cut(owner0, owner, ip.inum, SlotsFrom(i))
        invariant Freeing(sb, ip.inum, old(bits), old(logged), old(over), bits, logged, over)
      {
        ghost var bits1, logs1, over1 := bits, logged, over;
        ok := FreeDirect(ip, i, owner0, SlotsFrom(i));
        FreeingTrans(sb, ip.inum, old(bits), old(logged), old(over), bits1, logs1, over1, bits, logged, over);
        assert SlotsFrom(i) - {i} == SlotsFrom(i + 1);
        i := i + 1;
      }
      ghost var bits1, logs1, over1 := bits, logged, over;
      ok := FreeTable(ip, owner0);
      FreeingTrans(sb, ip.inum, old(bits), old(logged), old(over), bits1, logs1, over1, bits, logged, over);
      CutEmpty(owner0, owner, ip.inum);
      OwnedResize(sb, bits, blocks, Inodes(ip), owner, ip.inum, 0, ip.d.typ);
      ghost var inodes1 := Inodes(ip);
      ip.d := ip.d.(size := 0);
      assert Inodes(ip) == inodes1[ip.inum := inodes1[ip.inum].(size := 0, typ := ip.d.typ)];
      assert ip.d.addrs == ZeroAddrs();
      EmptyFile(ip.d, blocks);
      FreeingInode(sb, ip.inum, old(bits), old(logged), old(over), bits, logged, over);
      IUpdate(ip);
      FreeingCovers(sb, ip.inum, old(bits), old(logged), old(over), bits, logged, over, blocks);
      assert Inodes(ip) == dinodes;
      OwnedSized(sb, bits, blocks, dinodes, owner);
      CutBits(sb, bits0, bits, blocks, inodes0, dinodes, owner0, owner, ip.inum);
    }

    /** The part of iput that frees an inode without links: truncate, type 0, write back. */
    method IFree(ip: Inode) returns (ok: bool)
      requires Ok() && ip.inum < |dinodes| && ip.d == dinodes[ip.inum]
      modifies this`bits, this`dinodes, this`logged, this`over, this`owner, ip`d
      ensures ok && Ok() && ip.d == old(ip.d).(typ := 0, size := 0, addrs := ZeroAddrs()) && dinodes == old(dinodes)[ip.inum := ip.d]
      ensures |bits| == |old(bits)| == sb.size
      ensures forall b | sb.nmeta <= b < sb.size :: bits[b] <==> old(bits)[b] && !HeldBy(old(ip.d), blocks, b)
      ensures Covered(sb, old(bits), blocks, bits, blocks, logged) && old(logged) <= logged && sb.IBlock(ip.inum) in logged
      ensures Freeing(sb, ip.inum, old(bits), old(logged), old(over), bits, logged, over)
    {
      hide Owned, Slot, HeldBy, FileOk, Covered, Freeing;
      ok := ITrunc(ip);
      ghost var inodes1 := dinodes;
      FileSizes(sb, bits, blocks, dinodes, owner);
      OwnedResize(sb, bits, blocks, inodes1, owner, ip.inum, 0, 0);
      ip.d := ip.d.(typ := 0);
      assert Inodes(ip) == inodes1[ip.inum := inodes1[ip.inum].(size := 0, typ := 0)];
      EmptyFile(ip.d, blocks);
      FreeingInode(sb, ip.inum, old(bits), old(logged), old(over), bits, logged, over);
      IUpdate(ip);
      FreeingCovers(sb, ip.inum, old(bits), old(logged), old(over), bits, logged, over, blocks);
      assert Inodes(ip) == dinodes;
    }

    /** ialloc: the lowest free inode, reinitialised.  ok is false when there is none. */
    method IAlloc(typ: int) returns (inum: nat, ok: bool)
      requires Ok() && typ != 0
      modifies this`dinodes, this`logged, this`over
      ensures Ok()
      ensures ok <==> exists i :: 1 <= i < |old(dinodes)| && old(dinodes)[i].typ == 0
      ensures !ok ==> dinodes == old(dinodes) && logged == old(logged)
      ensures ok ==> 1 <= inum < |old(dinodes)| && old(dinodes)[inum].typ == 0 && forall i | 1 <= i < inum :: old(dinodes)[i].typ != 0
      ensures ok ==> dinodes == old(dinodes)[inum := Dinode(typ, 0, 0, 0, 0, ZeroAddrs())] && logged == old(logged) + {sb.IBlock(inum)}
    {
      hide Owned, Slot, FileOk;
      FileSizes(sb, bits, blocks, dinodes, owner);
      inum := 1;
      while inum < sb.ninodes
        invariant dinodes == old(dinodes) && logged == old(logged) && 1 <= inum
        invariant forall i | 1 <= i < inum && i < |dinodes| :: dinodes[i].typ != 0
        decreases sb.ninodes - inum
      {
        if dinodes[inum].typ == 0 {
          FreeNoBlocks(dinodes[inum], blocks);
          OwnedFreshInode(sb, bits, blocks, dinodes, owner, inum, FreeInode().(typ := typ));
          EmptyFile(FreeInode().(typ := typ), blocks);
          dinodes := dinodes[inum := FreeInode().(typ := typ)];
          LogWrite(sb.IBlock(inum));
          return inum, true;
        }
        inum := inum + 1;
      }
      ok := false;
    }
  }
}
