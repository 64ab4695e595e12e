/**
 The disk driver's request queue (kernel/ide.c): buffers linked through qnext, the first one
 being the request the device is working on.
 */
module Ide {
  const FSSIZE := 1000

  /** What the controller was last told to do; `data` is what was sent along with a write. */
  datatype Device = NoRequest | Request(dev: nat, blockno: nat, write: bool, data: int)

  class Buf {
    var valid: bool
    var dirty: bool
    var dev: nat
    var blockno: nat
    var data: int
    var qnext: Buf?

    constructor (dev: nat, blockno: nat)
      ensures !valid && !dirty && this.dev == dev && this.blockno == blockno && qnext == null
    {
      valid, dirty, this.dev, this.blockno, data, qnext := false, false, dev, blockno, 0, null;
    }
  }

  ghost function AfterOf(queue: seq<Buf>, i: int): Buf? {
    if 0 <= i + 1 < |queue| then queue[i + 1] else null
  }

  ghost predicate ChainAt(queue: seq<Buf>, i: int)
    requires 0 <= i < |queue|
    reads queue`qnext
  {
    queue[i].qnext == AfterOf(queue, i)
  }

  ghost predicate Chain(first: Buf?, queue: seq<Buf>)
    reads queue`qnext
  {
    && first == AfterOf(queue, -1)
    && (forall i | 0 <= i < |queue| :: ChainAt(queue, i))
    && (forall i, j | 0 <= i < j < |queue| :: queue[i] != queue[j])
  }

  ghost function RequestFor(b: Buf): Device
    reads b`dev, b`blockno, b`dirty, b`data
  {
    Request(b.dev, b.blockno, b.dirty, if b.dirty then b.data else 0)
  }

  /** A buffer iderw has something to do for. */
  ghost predicate Waiting(b: Buf)
    reads b`valid, b`dirty, b`blockno
  {
    b.blockno < FSSIZE && !(b.valid && !b.dirty)
  }

  class Driver {
    var idequeue: Buf?
    var device: Device
    ghost var queue: seq<Buf>

    /** The request the device works on is the first in the queue. */
    ghost predicate Valid()
      reads this, queue
    {
      && Chain(idequeue, queue)
      && (forall i | 0 <= i < |queue| :: Waiting(queue[i]))
      && device == (if queue == [] then NoRequest else RequestFor(queue[0]))
    }

    constructor ()
      ensures Valid() && queue == []
    {
      idequeue, device, queue := null, NoRequest, [];
    }

    method IdeStart(b: Buf)
      requires b.blockno < FSSIZE
      modifies this`device
      ensures device == RequestFor(b)
    {
      device := Request(b.dev, b.blockno, b.dirty, if b.dirty then b.data else 0);
    }

    /** iderw up to its wait loop: b goes to the end of the queue, and the device starts on it
        if it was idle. */
    method Enqueue(b: Buf)
      requires Valid() && b !in queue && Waiting(b)
      modifies this, b`qnext, queue`qnext
      ensures Valid() && queue == old(queue) + [b]
      ensures old(queue) != [] ==> device == old(device)
    {
      b.qnext := null;
      ghost var q := queue + [b];
      if idequeue == null {
        idequeue := b;
      } else {
        var pp := idequeue;
        ghost var i := 0;
        assert ChainAt(queue, 0);
        while pp.qnext != null
          invariant 0 <= i < |queue| && pp == queue[i] && ChainAt(queue, i)
          invariant forall k | 0 <= k < |queue| :: ChainAt(queue, k)
          modifies {}
          decreases |queue| - i
        {
          pp := pp.qnext;
          i := i + 1;
          assert ChainAt(queue, i);
        }
        pp.qnext := b;
      }
      assert forall k | 0 <= k < |queue| :: old(Waiting(queue[k])) && Waiting(queue[k]);
      queue := q;
      if idequeue == b {
        IdeStart(b);
      }
      forall k | 0 <= k < |q|
        ensures ChainAt(q, k)
      {
        assert k < |q| - 1 ==> old(ChainAt(queue, k));
      }
    }

    /** ideintr: the first request is complete, `got` being what a read brought in; the device
        goes on with the next.  Returns the buffer to wake, null for none. */
    method IdeIntr(got: int) returns (done: Buf?)
      requires Valid()
      modifies this, queue`data, queue`valid, queue`dirty
      ensures Valid() && queue == if old(queue) == [] then [] else old(queue)[1..]
      ensures done == old(AfterOf(queue, -1))
      ensures done != null ==> done.valid && !done.dirty && done.data == if old(done.dirty) then old(done.data) else got
      ensures forall b | b in queue :: b.data == old(b.data) && b.valid == old(b.valid) && b.dirty == old(b.dirty)
    {
      if idequeue == null {
        return null;
      }
      var b: Buf := idequeue;
      done := b;
      assert ChainAt(queue, 0);
      idequeue := b.qnext;
      ghost var rest := queue[1..];
      queue := rest;
      if !b.dirty {
        b.data := got;
      }
      b.valid := true;
      b.dirty := false;
      assert forall k | 0 <= k < |rest| :: rest[k] != b && Waiting(rest[k]) by {
        assert forall k | 0 <= k < |rest| :: rest[k] == old(queue)[k + 1];
      }
      if idequeue != null {
        IdeStart(idequeue);
      } else {
        device := NoRequest;
      }
      forall k | 0 <= k < |rest|
        ensures ChainAt(rest, k)
      {
        assert old(ChainAt(queue, k + 1));
      }
    }
  }
}
