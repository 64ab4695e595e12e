/**
 The storage stack from filewrite down to the disk: whenever the machine stops, the file system
 that recovery finds is consistent, the one after a whole number of chunks written and inodes
 freed.
 */
module Storage {
  import opened LogMachine
  import opened LogSafety
  import opened LogBudget
  import opened LogTheorems
  import opened DiskFormat
  import FsSpec
  import FsSteps
  import FileIo

  // What a disk block says about the file system

  /** Contents x of block b agree with what f keeps there: data, bits or inodes. */
  ghost predicate Says(sb: FsSpec.Super, f: FileIo.Files, b: nat, x: Block) {
    && (sb.nmeta <= b < |f.blocks| ==> DataSays(f.blocks[b], x))
    && (forall i | 0 <= i < |f.bits| && sb.BBlock(i) == b :: BitIn(x, i % FsSpec.BPB) == f.bits[i])
    && (forall i | 0 <= i < |f.inodes| && sb.IBlock(i) == b :: DinodeIn(x, i % FsSpec.IPB) == f.inodes[i])
  }

  /** The disk image spells out the file system f. */
  ghost predicate Spells(sb: FsSpec.Super, img: seq<Block>, f: FileIo.Files) {
    forall b: nat | b < |img| :: Says(sb, f, b, img[b])
  }

  /** Every block has contents that say what f keeps there. */
  function Spelt(sb: FsSpec.Super, f: FileIo.Files, b: nat): Block {
    if sb.nmeta <= b < |f.blocks| then DataBlock(f.blocks[b])
    else if b >= sb.bmapstart then BitmapBlock(f.bits, (b - sb.bmapstart) * FsSpec.BPB, FsSpec.BPB)
    else if b >= sb.inodestart then InodeBlock(f.inodes, (b - sb.inodestart) * FsSpec.IPB, FsSpec.IPB)
    else seq(WORDS, _ => 0)
  }

  lemma SpeltSays(sb: FsSpec.Super, f: FileIo.Files, b: nat)
    requires sb.Valid() && |f.bits| == sb.size && |f.inodes| == sb.ninodes && forall i | 0 <= i < |f.inodes| :: Storable(f.inodes[i])
    ensures Says(sb, f, b, Spelt(sb, f, b))
  {
    hide BitIn, DinodeIn, Storable, BitmapBlock, InodeBlock;
    var x := Spelt(sb, f, b);
    forall i | 0 <= i < |f.bits| && sb.BBlock(i) == b
      ensures BitIn(x, i % FsSpec.BPB) == f.bits[i]
    {
      BitmapBlockIs(f.bits, (b - sb.bmapstart) * FsSpec.BPB, FsSpec.BPB, i % FsSpec.BPB);
    }
    forall i | 0 <= i < |f.inodes| && sb.IBlock(i) == b
      ensures DinodeIn(x, i % FsSpec.IPB) == f.inodes[i]
    {
      InodeBlockIs(f.inodes, (b - sb.inodestart) * FsSpec.IPB, FsSpec.IPB, i % FsSpec.IPB);
    }
  }

  /** Every consistent file system has an image. */
  lemma SpeltSpells(sb: FsSpec.Super, f: FileIo.Files, n: nat)
    requires FileIo.Good(sb, f) && forall i | 0 <= i < |f.inodes| :: Storable(f.inodes[i])
    ensures Spells(sb, seq(n, b requires 0 <= b < n => Spelt(sb, f, b)), f)
  {
    hide Says, Spelt, Storable;
    FsSteps.OwnedSized(sb, f.bits, f.blocks, f.inodes, f.owner);
    forall b: nat | b < n
      ensures Says(sb, f, b, Spelt(sb, f, b))
    {
      SpeltSays(sb, f, b);
    }
  }

  lemma LastDigit(x: FsSpec.byte, y: FsSpec.byte, m: int, n: int)
    requires x + 256 * m == y + 256 * n
    ensures x == y && m == n
  {
  }

  lemma SameWord(a: FsSpec.Blk, b: FsSpec.Blk, j: nat)
    requires j < FsSpec.NINDIRECT && FsSpec.Word(a, j) == FsSpec.Word(b, j)
    ensures a[4 * j] == b[4 * j] && a[4 * j + 1] == b[4 * j + 1] && a[4 * j + 2] == b[4 * j + 2] && a[4 * j + 3] == b[4 * j + 3]
  {
    var k := 4 * j;
    var a0: int, a1: int, a2: int, a3: int := a[k], a[k + 1], a[k + 2], a[k + 3];
    var b0: int, b1: int, b2: int, b3: int := b[k], b[k + 1], b[k + 2], b[k + 3];
    assert a0 + 256 * (a1 + 256 * (a2 + 256 * a3)) == b0 + 256 * (b1 + 256 * (b2 + 256 * b3));
    LastDigit(a0, b0, a1 + 256 * (a2 + 256 * a3), b1 + 256 * (b2 + 256 * b3));
    LastDigit(a1, b1, a2 + 256 * a3, b2 + 256 * b3);
    LastDigit(a2, b2, a3, b3);
  }

  lemma SameWords(a: FsSpec.Blk, b: FsSpec.Blk)
    requires forall j | 0 <= j < FsSpec.NINDIRECT :: FsSpec.Word(a, j) == FsSpec.Word(b, j)
    ensures a == b
  {
    forall k | 0 <= k < FsSpec.BSIZE
      ensures a[k] == b[k]
    {
      hide FsSpec.Word;
      var j := k / 4;
      assert k == 4 * j + k % 4;
      SameWord(a, b, j);
    }
  }

  /** An image is the image of one file system only. */
  lemma SpellsOne(sb: FsSpec.Super, img: seq<Block>, f: FileIo.Files, g: FileIo.Files)
    requires Spells(sb, img, f) && Spells(sb, img, g) && FileIo.Good(sb, f) && FileIo.Good(sb, g) && |img| == sb.size
    ensures f.bits == g.bits && f.inodes == g.inodes && forall b | sb.nmeta <= b < sb.size :: f.blocks[b] == g.blocks[b]
  {
    hide BitIn, DinodeIn, FsSpec.Owned, FsSpec.FileOk, FsSpec.Word;
    FsSteps.OwnedSized(sb, f.bits, f.blocks, f.inodes, f.owner);
    FsSteps.OwnedSized(sb, g.bits, g.blocks, g.inodes, g.owner);
    forall i | 0 <= i < sb.size
      ensures f.bits[i] == g.bits[i]
    {
      var b := sb.BBlock(i);
      assert Says(sb, f, b, img[b]) && Says(sb, g, b, img[b]);
    }
    forall i | 0 <= i < sb.ninodes
      ensures f.inodes[i] == g.inodes[i]
    {
      var b := sb.IBlock(i);
      assert Says(sb, f, b, img[b]) && Says(sb, g, b, img[b]);
    }
    forall b | sb.nmeta <= b < sb.size
      ensures f.blocks[b] == g.blocks[b]
    {
      assert Says(sb, f, b, img[b]) && Says(sb, g, b, img[b]);
      SameWords(f.blocks[b], g.blocks[b]);
    }
  }

  /** A block an operation does not log says the same afterwards. */
  lemma SaysStill(sb: FsSpec.Super, f: FileIo.Files, f': FileIo.Files, logged: set<nat>, b: nat, x: Block)
    requires FileIo.Within(sb, f, f', logged) && b !in logged && Says(sb, f, b, x)
    ensures Says(sb, f', b, x)
  {
    hide BitIn, DinodeIn, DataSays;
  }

  // Operations in the history

  /** Writing x at offset off of file i, or freeing inode i. */
  datatype Change = Chunk(i: nat, off: nat, x: seq<FsSpec.byte>) | Free(i: nat)

  /** One transaction of filewrite or iput in the history, the blocks it logs and the file system
      after it. */
  datatype Op = Op(events: seq<Event>, change: Change, logged: set<nat>, after: FileIo.Files)

  ghost predicate Changed(sb: FsSpec.Super, f: FileIo.Files, f': FileIo.Files, c: Change, logged: set<nat>) {
    match c
    case Chunk(i, off, x) => FileIo.ChunkDone(sb, f, f', i, off, x, logged)
    case Free(i) => FileIo.FreeDone(sb, f, f', i, logged)
  }

  lemma ChangedMeans(sb: FsSpec.Super, f: FileIo.Files, f': FileIo.Files, c: Change, logged: set<nat>)
    requires Changed(sb, f, f', c, logged)
    ensures FileIo.Good(sb, f') && FileIo.Within(sb, f, f', logged)
  {
    hide FileIo.Good, FileIo.Within;
  }

  datatype Data = None | Some(x: Block)

  /** What the last write to block b in h writes. */
  ghost function Final(h: seq<Event>, b: nat): Data {
    if h == [] then None
    else if h[|h| - 1].Write? && h[|h| - 1].b == b then Some(h[|h| - 1].data)
    else Final(h[..|h| - 1], b)
  }

  /** begin_op, log_writes, and perhaps end_op, of one process. */
  ghost predicate Bracket(h: seq<Event>, p: nat, ended: bool) {
    && |h| >= (if ended then 2 else 1) && h[0] == Begin(p) && (ended ==> h[|h| - 1] == End(p))
    && forall k | 1 <= k < (if ended then |h| - 1 else |h|) :: h[k].Write?
  }

  /** The transaction logs blocks of `logged` only, and leaves in each of them what the new file
      system has there. */
  ghost predicate Logs(sb: FsSpec.Super, op: Op) {
    && (forall k | 0 <= k < |op.events| && op.events[k].Write? :: op.events[k].b in op.logged)
    && (forall b | b in op.logged :: Final(op.events, b).Some? && Says(sb, op.after, b, Final(op.events, b).x))
  }

  ghost predicate OpOk(sb: FsSpec.Super, f: FileIo.Files, op: Op) {
    && (exists p: nat :: Bracket(op.events, p, true))
    && Changed(sb, f, op.after, op.change, op.logged) && Logs(sb, op)
  }

  ghost predicate OpsOk(sb: FsSpec.Super, f: FileIo.Files, ops: seq<Op>)
    decreases |ops|
  {
    ops == [] || (OpOk(sb, f, ops[0]) && OpsOk(sb, ops[0].after, ops[1..]))
  }

  ghost function EventsOf(ops: seq<Op>): seq<Event> {
    if ops == [] then [] else ops[0].events + EventsOf(ops[1..])
  }

  /** The file system after the first j operations. */
  ghost function After(f: FileIo.Files, ops: seq<Op>, j: nat): FileIo.Files
    requires j <= |ops|
    decreases j
  {
    if j == 0 then f else After(ops[0].after, ops[1..], j - 1)
  }

  ghost predicate Unfinished(h: seq<Event>) {
    h == [] || exists p: nat :: Bracket(h, p, false)
  }

  function Ends(h: seq<Event>): nat {
    if h == [] then 0 else (if h[|h| - 1].End? then 1 else 0) + Ends(h[..|h| - 1])
  }

  // Histories in pieces

  lemma {:induction false} Appended(init: seq<Block>, a: seq<Event>, b: seq<Event>)
    ensures Apply(init, a + b) == Apply(Apply(init, a), b)
    ensures Open(a) == {} ==> Open(a + b) == Open(b)
    ensures Ends(a + b) == Ends(a) + Ends(b)
    decreases |b|
  {
    if b == [] {
      assert a + b == a;
    } else {
      var n := |b| - 1;
      assert (a + b)[..|a + b| - 1] == a + b[..n] && (a + b)[|a + b| - 1] == b[n];
      Appended(init, a, b[..n]);
    }
  }

  lemma {:induction false} ApplyFinal(init: seq<Block>, h: seq<Event>, b: nat)
    requires b < |init|
    ensures Apply(init, h)[b] == if Final(h, b).Some? then Final(h, b).x else init[b]
  {
    if h != [] { ApplyFinal(init, h[..|h| - 1], b); }
  }

  lemma {:induction false} NotFinal(h: seq<Event>, b: nat)
    requires forall k | 0 <= k < |h| && h[k].Write? :: h[k].b != b
    ensures Final(h, b) == None
  {
    if h != [] { NotFinal(h[..|h| - 1], b); }
  }

  /** Inside a bracket the operation is open. */
  lemma {:induction false} OpenInside(h: seq<Event>, p: nat, ended: bool, k: nat)
    requires Bracket(h, p, ended) && 0 < k <= |h| && (ended ==> k < |h|)
    ensures Open(h[..k]) == {p} && Ends(h[..k]) == 0
  {
    assert h[..k][..k - 1] == h[..k - 1] && h[..k][k - 1] == h[k - 1];
    if k == 1 {
      assert h[..0] == [];
    } else {
      OpenInside(h, p, ended, k - 1);
    }
  }

  lemma OpenWhole(h: seq<Event>, p: nat)
    requires Bracket(h, p, true)
    ensures Open(h) == {} && Ends(h) == 1
  {
    OpenInside(h, p, true, |h| - 1);
  }

  // Every stop is between two operations

  /** An operation turns an image of the old file system into one of the new. */
  lemma OpSpells(sb: FsSpec.Super, init: seq<Block>, f: FileIo.Files, op: Op)
    requires OpOk(sb, f, op) && Spells(sb, init, f)
    ensures Spells(sb, Apply(init, op.events), op.after)
  {
    hide Says, FileIo.Good, Changed;
    ChangedMeans(sb, f, op.after, op.change, op.logged);
    var img := Apply(init, op.events);
    forall b: nat | b < |img|
      ensures Says(sb, op.after, b, img[b])
    {
      ApplyFinal(init, op.events, b);
      if b !in op.logged {
        NotFinal(op.events, b);
        SaysStill(sb, f, op.after, op.logged, b, init[b]);
      }
    }
  }

  /** Cut anywhere between operations, the history gives the image of the file system after the
      operations that ended before the cut. */
  lemma {:induction false} CutSpells(sb: FsSpec.Super, init: seq<Block>, f: FileIo.Files, ops: seq<Op>, tail: seq<Event>, k: nat)
    requires Spells(sb, init, f) && FileIo.Good(sb, f) && OpsOk(sb, f, ops) && Unfinished(tail)
    requires k <= |EventsOf(ops) + tail| && Open((EventsOf(ops) + tail)[..k]) == {}
    ensures var h := (EventsOf(ops) + tail)[..k]; var j := Ends(h);
      j <= |ops| && Spells(sb, Apply(init, h), After(f, ops, j)) && FileIo.Good(sb, After(f, ops, j))
    decreases |ops|
  {
    hide Spells, FileIo.Good, OpOk;
    var h := EventsOf(ops) + tail;
    if k == 0 {
      assert h[..k] == [];
    } else if ops == [] {
      assert h == tail;
      var p: nat :| Bracket(tail, p, false);
      OpenInside(tail, p, false, k);
    } else {
      var e, rest := ops[0].events, EventsOf(ops[1..]) + tail;
      var p := Bracketed(sb, f, ops[0]);
      assert h == e + rest;
      if k < |e| {
        assert h[..k] == e[..k];
        OpenInside(e, p, true, k);
      } else {
        OpenWhole(e, p);
        assert h[..k] == e + rest[..k - |e|];
        Appended(init, e, rest[..k - |e|]);
        OpSpells(sb, init, f, ops[0]);
        CutSpells(sb, Apply(init, e), ops[0].after, ops[1..], tail, k - |e|);
      }
    }
  }

  lemma Bracketed(sb: FsSpec.Super, f: FileIo.Files, op: Op) returns (p: nat)
    requires OpOk(sb, f, op)
    ensures Bracket(op.events, p, true) && FileIo.Good(sb, op.after)
  {
    hide FileIo.Good, Changed;
    ChangedMeans(sb, f, op.after, op.change, op.logged);
    p :| Bracket(op.events, p, true);
  }

  // Runs

  /** The log lies before the inodes, bitmap and data, as mkfs lays the disk out. */
  ghost predicate Layout(pm: Params, sb: FsSpec.Super) {
    pm.Valid() && sb.Valid() && pm.nblocks == sb.size && pm.start + pm.size <= sb.inodestart
  }

  /** Blocks before the inodes say nothing about the file system. */
  lemma SaysNothing(sb: FsSpec.Super, f: FileIo.Files, b: nat, x: Block)
    requires sb.Valid() && b < sb.inodestart
    ensures Says(sb, f, b, x)
  {
    hide BitIn, DinodeIn, DataSays;
  }

  lemma HomeSpells(pm: Params, sb: FsSpec.Super, d: seq<Block>, e: seq<Block>, f: FileIo.Files)
    requires Layout(pm, sb) && |d| == |e| == pm.nblocks && SameHome(pm, d, e) && Spells(sb, e, f)
    ensures Spells(sb, d, f)
  {
    hide Says;
    forall b: nat | b < |d|
      ensures Says(sb, f, b, d[b])
    {
      if b < sb.inodestart {
        SaysNothing(sb, f, b, d[b]);
      } else {
        assert pm.Home(b) && Says(sb, f, b, e[b]);
      }
    }
  }

  lemma {:induction false} EndsGrow(h: seq<Event>, j: nat, k: nat)
    requires j <= k <= |h|
    ensures Ends(h[..j]) <= Ends(h[..k])
  {
    if j < k {
      assert h[..k][..k - 1] == h[..k - 1];
      EndsGrow(h, j, k - 1);
    }
  }

  /** Wherever a run of such transactions stops, also inside a commit or a recovery, the disk
      recovers to an image that spells out a consistent file system: the one after a whole
      number of them, which include every one whose commit was acknowledged. */
  lemma ChangesSurvive(pm: Params, sb: FsSpec.Super, init: seq<Block>, boot: State, steps: seq<Step>,
                      f: FileIo.Files, ops: seq<Op>, tail: seq<Event>)
    requires Layout(pm, sb) && Boot(pm, init, boot) && CanRun(pm, boot, steps) && FittingRun(pm, boot, steps)
    requires Spells(sb, init, f) && FileIo.Good(sb, f) && OpsOk(sb, f, ops) && Unfinished(tail)
    requires Run(pm, boot, steps).hist == EventsOf(ops) + tail
    ensures var s := Run(pm, boot, steps);
      && s.acked <= s.durable <= |s.hist| && |s.disk| == pm.nblocks
      && var j := Ends(s.hist[..s.durable]);
      && Ends(s.hist[..s.acked]) <= j <= |ops|
      && FileIo.Good(sb, After(f, ops, j)) && Spells(sb, Recovered(pm, s.disk), After(f, ops, j))
  {
    assert |init| == pm.nblocks;
    hide Boot, CanRun, FittingRun, Run, Spells, FileIo.Good, OpsOk, Unfinished, Apply, Recovered, EventsOf, Ends, Open, SameHome, After;
    CrashAtomicity(pm, init, boot, steps);
    var s := Run(pm, boot, steps);
    CutSpells(sb, init, f, ops, tail, s.durable);
    EndsGrow(s.hist, s.acked, s.durable);
    HomeSpells(pm, sb, Recovered(pm, s.disk), Apply(init, s.hist[..s.durable]), After(f, ops, Ends(s.hist[..s.durable])));
  }

  /** The file system after j + 1 operations is what the operation made of the one after j. */
  lemma {:induction false} AfterNext(sb: FsSpec.Super, f: FileIo.Files, ops: seq<Op>, j: nat)
    requires OpsOk(sb, f, ops) && j < |ops|
    ensures Changed(sb, After(f, ops, j), After(f, ops, j + 1), ops[j].change, ops[j].logged)
    decreases j
  {
    hide Changed;
    if j == 0 {
      assert After(ops[0].after, ops[1..], 0) == ops[0].after;
    } else {
      AfterNext(sb, ops[0].after, ops[1..], j - 1);
    }
  }
}
