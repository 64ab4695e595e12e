/**
 The bytes of a bitmap block (kernel/fs.c, tools/mkfs.c): bit b is bit b % 8 of byte b / 8.
 */
module Bitmap {
  const BSIZE := 512

  type Bytes = d: seq<bv8> | |d| == BSIZE witness seq(BSIZE, _ => 0)

  /** 1 << i */
  function Mask(i: nat): bv8
    requires i < 8
  {
    if i == 0 then 1 else if i == 1 then 2 else if i == 2 then 4 else if i == 3 then 8
    else if i == 4 then 16 else if i == 5 then 32 else if i == 6 then 64 else 128
  }

  lemma MaskIs(i: nat)
    requires i < 8
    ensures Mask(i) == (1 as bv8) << i
  {
  }

  predicate Marked(d: Bytes, b: nat)
    requires b < 8 * BSIZE
  {
    d[b / 8] & Mask(b % 8) != 0
  }

  function Mark(d: Bytes, b: nat): Bytes
    requires b < 8 * BSIZE
  {
    d[b / 8 := d[b / 8] | Mask(b % 8)]
  }

  function Clear(d: Bytes, b: nat): Bytes
    requires b < 8 * BSIZE
  {
    d[b / 8 := d[b / 8] & !Mask(b % 8)]
  }

  lemma MaskSame(x: bv8, i: nat)
    requires i < 8
    ensures (x | Mask(i)) & Mask(i) != 0 && (x & !Mask(i)) & Mask(i) == 0
  {
  }

  lemma MaskApart(x: bv8, i: nat, j: nat)
    requires i < 8 && j < 8 && i != j
    ensures (x | Mask(i)) & Mask(j) == x & Mask(j) && (x & !Mask(i)) & Mask(j) == x & Mask(j)
  {
  }

  /** Setting a bit sets that bit and no other. */
  lemma MarkIs(d: Bytes, b: nat, c: nat)
    requires b < 8 * BSIZE && c < 8 * BSIZE
    ensures Marked(Mark(d, b), c) == (c == b || Marked(d, c))
  {
    if c == b {
      MaskSame(d[b / 8], b % 8);
    } else if c / 8 == b / 8 {
      assert c % 8 != b % 8;
      MaskApart(d[b / 8], b % 8, c % 8);
    }
  }

  /** Clearing a bit clears that bit and no other. */
  lemma ClearIs(d: Bytes, b: nat, c: nat)
    requires b < 8 * BSIZE && c < 8 * BSIZE
    ensures Marked(Clear(d, b), c) == (c != b && Marked(d, c))
  {
    if c == b {
      MaskSame(d[b / 8], b % 8);
    } else if c / 8 == b / 8 {
      assert c % 8 != b % 8;
      MaskApart(d[b / 8], b % 8, c % 8);
    }
  }

  /** A bitmap block stands for a sequence of truth values. */
  ghost predicate Shows(d: Bytes, bits: seq<bool>) {
    |bits| <= 8 * BSIZE && forall b | 0 <= b < |bits| :: Marked(d, b) == bits[b]
  }

  lemma MarkShows(d: Bytes, bits: seq<bool>, b: nat)
    requires Shows(d, bits) && b < |bits|
    ensures Shows(Mark(d, b), bits[b := true])
  {
    forall c | 0 <= c < |bits|
      ensures Marked(Mark(d, b), c) == bits[b := true][c]
    {
      MarkIs(d, b, c);
    }
  }

  lemma ClearShows(d: Bytes, bits: seq<bool>, b: nat)
    requires Shows(d, bits) && b < |bits|
    ensures Shows(Clear(d, b), bits[b := false])
  {
    forall c | 0 <= c < |bits|
      ensures Marked(Clear(d, b), c) == bits[b := false][c]
    {
      ClearIs(d, b, c);
    }
  }

  /** The scan of balloc within one bitmap block: the first clear bit is set. */
  method TakeBit(buf: array<bv8>, n: nat, ghost bits: seq<bool>) returns (b: nat)
    requires buf.Length == BSIZE && |bits| == n <= 8 * BSIZE && Shows(buf[..], bits)
    modifies buf
    ensures b <= n && forall c | 0 <= c < b :: bits[c]
    ensures b == n ==> buf[..] == old(buf[..])
    ensures b < n ==> !bits[b] && Shows(buf[..], bits[b := true])
  {
    hide Mask;
    ghost var d: Bytes := buf[..];
    b := 0;
    while b < n
      invariant 0 <= b <= n && buf[..] == d && forall c | 0 <= c < b :: bits[c]
    {
      assert Marked(d, b) == bits[b];
      if buf[b / 8] & Mask(b % 8) == 0 {
        buf[b / 8] := buf[b / 8] | Mask(b % 8);
        assert buf[..] == Mark(d, b);
        MarkShows(d, bits, b);
        return;
      }
      b := b + 1;
    }
  }

  /** bfree within one bitmap block; ok is false for the panic. */
  method DropBit(buf: array<bv8>, b: nat, ghost bits: seq<bool>) returns (ok: bool)
    requires buf.Length == BSIZE && b < |bits| && Shows(buf[..], bits)
    modifies buf
    ensures ok == bits[b]
    ensures ok ==> Shows(buf[..], bits[b := false])
    ensures !ok ==> buf[..] == old(buf[..])
  {
    hide Mask;
    ghost var d: Bytes := buf[..];
    assert Marked(d, b) == bits[b];
    ok := buf[b / 8] & Mask(b % 8) != 0;
    if ok {
      ClearShows(d, bits, b);
      ClearBit(buf, b);
    }
  }

  method ClearBit(buf: array<bv8>, b: nat)
    requires buf.Length == BSIZE && b < 8 * BSIZE
    modifies buf
    ensures buf[..] == Clear(old(buf[..]), b)
  {
    hide Mask;
    buf[b / 8] := buf[b / 8] & !Mask(b % 8);
  }

  /** mkfs's balloc: the first `used` bits. */
  method FirstBits(used: nat) returns (buf: array<bv8>)
    requires used < 8 * BSIZE
    ensures fresh(buf) && buf.Length == BSIZE
    ensures forall c | 0 <= c < 8 * BSIZE :: Marked(buf[..], c) == (c < used)
  {
    buf := new bv8[BSIZE](_ => 0);
    var i := 0;
    while i < used
      invariant 0 <= i <= used && buf.Length == BSIZE
      invariant forall c | 0 <= c < 8 * BSIZE :: Marked(buf[..], c) == (c < i)
    {
      ghost var d: Bytes := buf[..];
      buf[i / 8] := buf[i / 8] | Mask(i % 8);
      assert buf[..] == Mark(d, i);
      forall c | 0 <= c < 8 * BSIZE
        ensures Marked(buf[..], c) == (c < i + 1)
      {
        MarkIs(d, i, c);
      }
      i := i + 1;
    }
  }
}
