/**
 The ring buffer of a pipe (kernel/pipe.c), with 32-bit counters that wrap.
 */
module Pipe {

  const PIPESIZE := 512
  const UINT := 0x1_0000_0000

  type byte = x: int | 0 <= x < 256

  /** How many of n bytes a pipe with `used` bytes in it takes. */
  function Fits(used: nat, n: nat): (r: nat)
    requires used <= PIPESIZE
    ensures r <= n && used + r <= PIPESIZE && (r == n || used + r == PIPESIZE)
  {
    if n <= PIPESIZE - used then n else PIPESIZE - used
  }

  /** How many bytes a request for n gets out of a pipe that holds `have`. */
  function Least(n: int, have: nat): (r: nat)
    ensures r <= have && (n <= 0 ==> r == 0) && (n > 0 ==> r <= n && (r == n || r == have))
  {
    if n <= 0 then 0 else if n < have then n else have
  }

  /** Two places less than PIPESIZE apart are different places of the buffer. */
  lemma Apart(start: nat, i: nat, j: nat)
    requires i < j < i + PIPESIZE
    ensures (start + i) % PIPESIZE != (start + j) % PIPESIZE
  {
  }

  class Ring {
    const data: array<byte>
    var nread: nat
    var nwrite: nat

    constructor ()
      ensures Valid() && Queue() == [] && fresh(data)
    {
      data := new byte[PIPESIZE];
      nread, nwrite := 0, 0;
    }

    /** Bytes in the pipe, across wrap-around of the counters. */
    ghost function Count(): int
      reads this
    {
      if nwrite >= nread then nwrite - nread else nwrite - nread + UINT
    }

    ghost predicate Valid()
      reads this
    {
      data.Length == PIPESIZE && nread < UINT && nwrite < UINT && 0 <= Count() <= PIPESIZE
    }

    /** The bytes written and not yet read, oldest first. */
    ghost function Queue(): (q: seq<byte>)
      reads this, data
      requires Valid()
      ensures |q| == Count()
    {
      seq(Count(), i requires 0 <= i < Count() && data.Length == PIPESIZE reads this, data => data[(nread + i) % PIPESIZE])
    }

    /** The test of pipewrite, with unsigned addition. */
    predicate Full()
      reads this
    {
      nwrite == (nread + PIPESIZE) % UINT
    }

    predicate Empty()
      reads this
    {
      nread == nwrite
    }

    lemma Tests()
      requires Valid()
      ensures Full() <==> |Queue()| == PIPESIZE
      ensures Empty() <==> Queue() == []
    {
    }

    method Put(x: byte)
      requires Valid() && !Full()
      modifies this`nwrite, data
      ensures Valid() && Queue() == old(Queue()) + [x]
    {
      Tests();
      ghost var q := Queue();
      assert nwrite % PIPESIZE == (nread + |q|) % PIPESIZE;
      data[nwrite % PIPESIZE] := x;
      nwrite := (nwrite + 1) % UINT;
      assert Count() == |q| + 1;
      forall i | 0 <= i < |q|
        ensures Queue()[i] == q[i]
      {
        Apart(nread, i, |q|);
      }
      assert Queue() == q + [x];
    }

    method Get() returns (x: byte)
      requires Valid() && !Empty()
      modifies this`nread
      ensures Valid() && old(Queue()) == [x] + Queue()
    {
      Tests();
      x := data[nread % PIPESIZE];
      nread := (nread + 1) % UINT;
      assert old(Queue()) == [x] + Queue();
    }

    /** pipewrite between two sleeps: bytes addr[i..] go in until they are done or the pipe is
        full. */
    method Fill(addr: seq<byte>, i: nat) returns (j: nat)
      requires Valid() && i <= |addr|
      modifies this`nwrite, data
      ensures Valid() && i <= j <= |addr| && Queue() == old(Queue()) + addr[i..j]
      ensures j == |addr| || |Queue()| == PIPESIZE
      ensures j - i == Fits(|old(Queue())|, |addr| - i)
    {
      j := i;
      assert addr[i..i] == [];
      Tests();
      while j < |addr| && !Full()
        invariant Valid() && i <= j <= |addr| && Queue() == old(Queue()) + addr[i..j]
      {
        Put(addr[j]);
        assert addr[i..j + 1] == addr[i..j] + [addr[j]];
        j := j + 1;
      }
      Tests();
    }

    /** The copy loop of piperead. */
    method Drain(n: int) returns (addr: seq<byte>)
      requires Valid()
      modifies this`nread
      ensures Valid() && old(Queue()) == addr + Queue()
      ensures (n <= 0 ==> addr == []) && (n > 0 ==> |addr| <= n && (|addr| == n || Queue() == []))
      ensures |addr| == Least(n, |old(Queue())|)
    {
      addr := [];
      var i := 0;
      Tests();
      while i < n
        invariant Valid() && old(Queue()) == addr + Queue() && |addr| == i && (i <= n || i == 0)
      {
        Tests();
        if Empty() { break; }
        var x := Get();
        addr := addr + [x];
        i := i + 1;
      }
      Tests();
    }
  }
}
