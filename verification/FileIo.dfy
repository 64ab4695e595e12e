/**
 filewrite (kernel/file.c): a write cut into chunks, each its own log transaction.
 */
module FileIo {
  import opened FsSpec
  import opened FsSteps
  import opened Fs

  /** struct file of type FD_INODE. */
  class OpenFile {
    const writable: bool
    const ip: Inode
    var off: nat

    constructor (writable: bool, ip: Inode)
      ensures this.writable == writable && this.ip == ip && off == 0
    {
      this.writable, this.ip, off := writable, ip, 0;
    }
  }

  lemma SpliceMore(f: seq<byte>, off: nat, x: seq<byte>, y: seq<byte>)
    requires off <= |f|
    ensures off + |x| <= |Splice(f, off, x)| && Splice(Splice(f, off, x), off + |x|, y) == Splice(f, off, x + y)
  {
  }

  lemma SpliceNothing(f: seq<byte>, off: nat)
    requires off <= |f|
    ensures Splice(f, off, []) == f
  {
  }

  /** What is left of a file after the first bytes x of a write at off: f itself if none were
      written. */
  ghost function After(f: seq<byte>, off: nat, x: seq<byte>): seq<byte> {
    if off <= |f| then Splice(f, off, x) else f
  }

  /** Every file but number i has the inode and the contents it had. */
  ghost predicate OthersKept(inodes: seq<Dinode>, blocks: seq<Blk>, inodes': seq<Dinode>, blocks': seq<Blk>, i: nat) {
    && |inodes'| == |inodes|
    && forall j | 0 <= j < |inodes| && j != i && inodes[j].size <= MAXFILE * BSIZE ::
      inodes'[j] == inodes[j] && Contents(inodes[j], blocks') == Contents(inodes[j], blocks)
  }

  lemma OthersTrans(inodes: seq<Dinode>, blocks: seq<Blk>, inodes1: seq<Dinode>, blocks1: seq<Blk>, inodes2: seq<Dinode>, blocks2: seq<Blk>, i: nat)
    requires OthersKept(inodes, blocks, inodes1, blocks1, i) && OthersKept(inodes1, blocks1, inodes2, blocks2, i)
    ensures OthersKept(inodes, blocks, inodes2, blocks2, i)
  {
    hide Contents;
  }

  ghost predicate Ready(fs: FileSystem, ip: Inode)
    reads fs, ip
  {
    fs.Ok() && ip.inum < |fs.dinodes| && ip.d == fs.dinodes[ip.inum] && ip.d.typ != 0 && ip.d.size <= MAXFILE * BSIZE
  }

  /** The file system on disk, with the owners of its blocks. */
  datatype Files = Files(bits: seq<bool>, blocks: seq<Blk>, inodes: seq<Dinode>, owner: Owners)

  ghost function Snapshot(fs: FileSystem): Files
    reads fs
  {
    Files(fs.bits, fs.blocks, fs.dinodes, fs.owner)
  }

  ghost predicate Good(sb: Super, f: Files) {
    Consistent(sb, f.bits, f.blocks, f.inodes, f.owner)
  }

  /** All that differs between f and f' lies in the blocks of `logged`. */
  ghost predicate Within(sb: Super, f: Files, f': Files, logged: set<nat>) {
    && Covered(sb, f.bits, f.blocks, f'.bits, f'.blocks, logged) && |f'.inodes| == |f.inodes|
    && (forall j | 0 <= j < |f.inodes| && f'.inodes[j] != f.inodes[j] :: sb.IBlock(j) in logged)
  }

  /** What a file takes of a write: all of it or nothing. */
  ghost function Taken(c: seq<byte>, off: nat, x: seq<byte>): seq<byte> {
    if off <= |c| && off + |x| <= MAXFILE * BSIZE then Splice(c, off, x) else c
  }

  ghost predicate HasFile(f: Files, i: nat) {
    i < |f.inodes| && f.inodes[i].size <= MAXFILE * BSIZE
  }

  /** Transaction that writes x at offset off of file i. */
  ghost predicate ChunkDone(sb: Super, f: Files, f': Files, i: nat, off: nat, x: seq<byte>, logged: set<nat>) {
    && Good(sb, f') && Within(sb, f, f', logged) && |logged| <= MAXOPBLOCKS
    && OthersKept(f.inodes, f.blocks, f'.inodes, f'.blocks, i)
    && (forall j | 0 <= j < |f.inodes| && j != i :: f'.inodes[j] == f.inodes[j] && KeptFile(f.inodes[j], f.blocks, f'.blocks))
    && HasFile(f, i) && HasFile(f', i)
    && Contents(f'.inodes[i], f'.blocks) ==
         if f.inodes[i].typ == T_DEV then Contents(f.inodes[i], f.blocks) else Taken(Contents(f.inodes[i], f.blocks), off, x)
  }

  /** Transaction that frees inode i: its blocks, and no others, are free afterwards. */
  ghost predicate FreeDone(sb: Super, f: Files, f': Files, i: nat, logged: set<nat>) {
    && Good(sb, f') && Within(sb, f, f', logged) && |logged| <= sb.size / BPB + 2
    && f'.blocks == f.blocks && |f'.bits| == |f.bits| == sb.size
    && i < |f.inodes| && f'.inodes == f.inodes[i := f.inodes[i].(typ := 0, size := 0, addrs := ZeroAddrs())]
    && (forall b | sb.nmeta <= b < sb.size :: f'.bits[b] <==> f.bits[b] && !HeldBy(f.inodes[i], f.blocks, b))
  }

  /** From f to g the bytes x, and nothing else, have gone into file i from off on. */
  ghost predicate Progress(f: Files, g: Files, i: nat, off: nat, x: seq<byte>) {
    && HasFile(f, i) && HasFile(g, i) && g.inodes[i].typ == f.inodes[i].typ
    && OthersKept(f.inodes, f.blocks, g.inodes, g.blocks, i)
    && (f.inodes[i].typ == T_DEV ==> g.blocks == f.blocks && g.inodes == f.inodes)
    && (f.inodes[i].typ != T_DEV && x != [] ==> off <= f.inodes[i].size && off + |x| <= MAXFILE * BSIZE)
    && (f.inodes[i].typ != T_DEV ==> Contents(g.inodes[i], g.blocks) == After(Contents(f.inodes[i], f.blocks), off, x))
  }

  lemma NoProgress(f: Files, i: nat, off: nat)
    requires HasFile(f, i)
    ensures Progress(f, f, i, off, [])
  {
    if off <= f.inodes[i].size { SpliceNothing(Contents(f.inodes[i], f.blocks), off); }
  }

  /** A chunk y written behind the bytes x. */
  lemma MoreProgress(sb: Super, f: Files, g: Files, g': Files, i: nat, off: nat, x: seq<byte>, y: seq<byte>, logged: set<nat>)
    requires Progress(f, g, i, off, x) && ChunkDone(sb, g, g', i, off + |x|, y, logged) && g'.inodes[i].typ == g.inodes[i].typ != T_DEV
    ensures off + |x| <= g.inodes[i].size <==> off <= f.inodes[i].size
    ensures off <= f.inodes[i].size && off + |x| + |y| <= MAXFILE * BSIZE ==> Progress(f, g', i, off, x + y)
    ensures !(off <= f.inodes[i].size && off + |x| + |y| <= MAXFILE * BSIZE) ==> Progress(f, g', i, off, x)
  {
    hide Good, Within, OthersKept;
    OthersTrans(f.inodes, f.blocks, g.inodes, g.blocks, g'.inodes, g'.blocks, i);
    if off <= f.inodes[i].size { SpliceMore(Contents(f.inodes[i], f.blocks), off, x, y); }
  }

  lemma DeviceProgress(f: Files, g: Files, g': Files, i: nat, off: nat, x: seq<byte>, y: seq<byte>)
    requires Progress(f, g, i, off, x) && f.inodes[i].typ == T_DEV && g'.blocks == g.blocks && g'.inodes == g.inodes
    ensures Progress(f, g', i, off, y)
  {
    OthersSame(f.inodes, f.blocks, i);
  }

  /** The offset, a 32-bit unsigned integer, n bytes further. */
  function Wrap(off: nat, n: nat): nat {
    (off + n) % UINT
  }

  lemma WrapMore(off: nat, i: nat, n: nat)
    ensures Wrap(Wrap(off, i), n) == Wrap(off, i + n) < UINT && (off + i < UINT ==> Wrap(off, i) == off + i)
  {
  }

  /** The piece of addr that filewrite hands over at position i. */
  function Piece(addr: seq<byte>, i: nat): seq<byte>
    requires i <= |addr|
  {
    addr[i..if |addr| - i > CHUNK then i + CHUNK else |addr|]
  }

  /** A device has taken every piece before position i. */
  ghost predicate TookTo(addr: seq<byte>, dev: seq<byte> -> int, i: nat) {
    i <= |addr| && forall j: nat | j < i && j % CHUNK == 0 :: dev(Piece(addr, j)) == |Piece(addr, j)|
  }

  lemma TookNone(addr: seq<byte>, dev: seq<byte> -> int)
    ensures TookTo(addr, dev, 0)
  {
  }

  lemma PieceEnd(addr: seq<byte>, i: nat)
    requires i < |addr| && i % CHUNK == 0
    ensures i + |Piece(addr, i)| == |addr| || (i + |Piece(addr, i)|) % CHUNK == 0
  {
  }

  lemma TookMore(addr: seq<byte>, dev: seq<byte> -> int, i: nat, n: nat)
    requires TookTo(addr, dev, i) && i < |addr| && i % CHUNK == 0 && n == |Piece(addr, i)| && dev(Piece(addr, i)) == n
    ensures TookTo(addr, dev, i + n) && (i + n == |addr| || (i + n) % CHUNK == 0)
  {
  }

  /** One transaction of filewrite: begin_op, writei, end_op.  `dev` is what the device's write
      routine would return. */
  method WriteChunk(fs: FileSystem, f: OpenFile, x: seq<byte>, dev: int) returns (r: int, ok: bool)
    requires Ready(fs, f.ip) && f.off < UINT && |x| <= CHUNK
    modifies fs, f`off, f.ip
    ensures !ok ==> old(f.ip.d.typ) != T_DEV && forall y | 0 <= y < |fs.bits| :: fs.bits[y]
    ensures ok ==> Ready(fs, f.ip) && f.ip.d.typ == old(f.ip.d.typ)
    ensures ok ==> ChunkDone(fs.sb, old(Snapshot(fs)), Snapshot(fs), f.ip.inum, old(f.off), x, fs.logged)
    ensures ok && old(f.ip.d.typ) == T_DEV ==> r == dev && fs.blocks == old(fs.blocks) && fs.dinodes == old(fs.dinodes)
    ensures ok && old(f.ip.d.typ) != T_DEV ==>
      r == if old(f.off) <= old(f.ip.d.size) && old(f.off) + |x| <= MAXFILE * BSIZE then |x| else -1
    ensures ok ==> f.off == Wrap(old(f.off), if r > 0 then r else 0)
    ensures ok ==> fs.over == old(fs.over)
  {
    hide Consistent, Contents, Covered;
    SizesOk(fs);
    fs.logged := {};
    r, ok := fs.WriteI(f.ip, x, f.off, dev);
    if ok {
      SizesOk(fs);
      if r > 0 { f.off := Wrap(f.off, r); }
    }
  }

  /** begin_op, iput of the last reference to an inode without links, end_op. */
  method PutLast(fs: FileSystem, ip: Inode) returns (ok: bool)
    requires fs.Ok() && ip.inum < |fs.dinodes| && ip.d == fs.dinodes[ip.inum]
    modifies fs, ip
    ensures ok && fs.Ok() && ip.d == fs.dinodes[ip.inum]
    ensures FreeDone(fs.sb, old(Snapshot(fs)), Snapshot(fs), ip.inum, fs.logged)
    ensures fs.sb.size < 8 * BPB ==> fs.over == old(fs.over)
  {
    hide Consistent, Covered, HeldBy, Freeing;
    fs.logged := {};
    ok := fs.IFree(ip);
    FreeingFits(fs.sb, ip.inum, old(fs.bits), old(fs.over), fs.bits, fs.logged, fs.over);
  }

  /** A round of filewrite's loop, after the first i bytes of addr.  ok is false for a full disk
      and for the panic on a device that takes part of a chunk. */
  method WriteNext(fs: FileSystem, f: OpenFile, addr: seq<byte>, i: nat, dev: seq<byte> -> int, ghost was: Files, ghost off: nat)
    returns (r: int, ok: bool)
    requires Ready(fs, f.ip) && i < |addr| && off < UINT && f.off == Wrap(off, i) && Progress(was, Snapshot(fs), f.ip.inum, off, addr[..i])
    modifies fs, f`off, f.ip
    ensures !ok && was.inodes[f.ip.inum].typ != T_DEV ==> forall y | 0 <= y < |fs.bits| :: fs.bits[y]
    ensures was.inodes[f.ip.inum].typ == T_DEV ==>
      if ok then r == dev(Piece(addr, i)) else dev(Piece(addr, i)) >= 0 && dev(Piece(addr, i)) != |Piece(addr, i)|
    ensures ok ==> Ready(fs, f.ip) && fs.over == old(fs.over)
    ensures ok && r >= 0 ==> r == |Piece(addr, i)|
    ensures ok && r >= 0 ==>
      i < i + r <= |addr| && f.off == Wrap(off, i + r) && Progress(was, Snapshot(fs), f.ip.inum, off, addr[..i + r])
    ensures ok && r < 0 ==> f.off == Wrap(off, i) && Progress(was, Snapshot(fs), f.ip.inum, off, addr[..i])
    ensures ok && r < 0 && was.inodes[f.ip.inum].typ != T_DEV ==>
      !(off <= was.inodes[f.ip.inum].size && off + |addr| <= MAXFILE * BSIZE)
  {
    hide Consistent, Contents, ChunkDone, Progress, Wrap;
    var n1 := if |addr| - i > CHUNK then CHUNK else |addr| - i;
    var x := addr[i..i + n1];
    ghost var g := Snapshot(fs);
    assert addr[..i] + x == addr[..i + n1];
    ProgressMeans(was, g, f.ip.inum, off, addr[..i]);
    WrapMore(off, i, 0);
    WrapMore(off, i, n1);
    r, ok := WriteChunk(fs, f, x, dev(x));
    if !ok { return; }
    if f.ip.d.typ == T_DEV {
      DeviceProgress(was, g, Snapshot(fs), f.ip.inum, off, addr[..i], addr[..i]);
      DeviceProgress(was, g, Snapshot(fs), f.ip.inum, off, addr[..i], addr[..i + n1]);
    } else {
      MoreProgress(fs.sb, was, g, Snapshot(fs), f.ip.inum, off, addr[..i], x, fs.logged);
    }
    ok := r < 0 || r == n1;
  }

  /** filewrite.  `done` counts the bytes accepted, by which the offset advances; no chunk ever
      exceeds its log reservation. */
  method FileWrite(fs: FileSystem, f: OpenFile, addr: seq<byte>, dev: seq<byte> -> int) returns (r: int, ok: bool, ghost done: nat)
    requires Ready(fs, f.ip) && f.off < UINT && |addr| < 0x8000_0000
    modifies fs, f`off, f.ip
    ensures !f.writable ==> ok && r == -1 && fs.blocks == old(fs.blocks) && fs.dinodes == old(fs.dinodes) && f.off == old(f.off)
    ensures !ok && old(f.ip.d.typ) != T_DEV ==> forall y | 0 <= y < |fs.bits| :: fs.bits[y]
    ensures f.writable && old(f.ip.d.typ) == T_DEV ==> done <= |addr| && TookTo(addr, dev, done) && (done == |addr| || done % CHUNK == 0)
    ensures f.writable && old(f.ip.d.typ) == T_DEV ==>
      if ok then done < |addr| ==> dev(Piece(addr, done)) < 0
      else done < |addr| && dev(Piece(addr, done)) >= 0 && dev(Piece(addr, done)) != |Piece(addr, done)|
    ensures ok ==> Ready(fs, f.ip) && OthersKept(old(fs.dinodes), old(fs.blocks), fs.dinodes, fs.blocks, f.ip.inum)
    ensures ok && f.writable ==> done <= |addr| && f.off == Wrap(old(f.off), done) && r == if done == |addr| then |addr| else -1
    ensures ok && f.writable && old(f.ip.d.typ) == T_DEV ==> fs.blocks == old(fs.blocks) && fs.dinodes == old(fs.dinodes)
    ensures ok && f.writable && old(f.ip.d.typ) != T_DEV ==>
      (done == |addr| <==> addr == [] || (old(f.off) <= old(f.ip.d.size) && old(f.off) + |addr| <= MAXFILE * BSIZE))
    ensures ok && f.writable && old(f.ip.d.typ) != T_DEV ==>
      Contents(f.ip.d, fs.blocks) == After(old(Contents(f.ip.d, fs.blocks)), old(f.off), addr[..done])
    ensures ok ==> fs.over == old(fs.over)
  {
    hide Consistent, Contents, Progress, Wrap, Piece, TookTo;
    ghost var was := Snapshot(fs);
    done := 0;
    NoProgress(was, f.ip.inum, f.off);
    ProgressMeans(was, was, f.ip.inum, f.off, []);
    if !f.writable { return -1, true, 0; }
    var n, i := |addr|, 0;
    assert addr[..0] == [];
    TookNone(addr, dev);
    WrapMore(f.off, 0, 0);
    ok := true;
    while i < n
      invariant 0 <= i <= n && ok && f.off == Wrap(old(f.off), i) && Ready(fs, f.ip) && fs.over == old(fs.over)
      invariant Progress(was, Snapshot(fs), f.ip.inum, old(f.off), addr[..i])
      invariant i == n || i % CHUNK == 0
      invariant was.inodes[f.ip.inum].typ == T_DEV ==> TookTo(addr, dev, i)
    {
      done := i;
      r, ok := WriteNext(fs, f, addr, i, dev, was, old(f.off));
      if !ok { return; }
      if r < 0 { break; }
      if was.inodes[f.ip.inum].typ == T_DEV { TookMore(addr, dev, i, r); } else { PieceEnd(addr, i); }
      i := i + r;
    }
    done := i;
    ProgressMeans(was, Snapshot(fs), f.ip.inum, old(f.off), addr[..i]);
    r := if i == n then n else -1;
  }

  lemma ProgressMeans(f: Files, g: Files, i: nat, off: nat, x: seq<byte>)
    requires Progress(f, g, i, off, x)
    ensures HasFile(f, i) && HasFile(g, i) && g.inodes[i].typ == f.inodes[i].typ
    ensures OthersKept(f.inodes, f.blocks, g.inodes, g.blocks, i)
    ensures f.inodes[i].typ == T_DEV ==> g.blocks == f.blocks && g.inodes == f.inodes
    ensures f.inodes[i].typ != T_DEV && x != [] ==> off <= f.inodes[i].size && off + |x| <= MAXFILE * BSIZE
    ensures f.inodes[i].typ != T_DEV ==> Contents(g.inodes[i], g.blocks) == After(Contents(f.inodes[i], f.blocks), off, x)
  {
  }

  lemma OthersSame(inodes: seq<Dinode>, blocks: seq<Blk>, i: nat)
    ensures OthersKept(inodes, blocks, inodes, blocks, i)
  {
  }

  lemma SizesOk(fs: FileSystem)
    requires fs.Ok()
    ensures forall j | 0 <= j < |fs.dinodes| :: fs.dinodes[j].size <= MAXFILE * BSIZE
  {
    FileSizes(fs.sb, fs.bits, fs.blocks, fs.dinodes, fs.owner);
  }
}
