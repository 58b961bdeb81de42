/** pipe.c: the ring buffer, its 32-bit counters, and who sleeps on it. Each method is one stretch of code run under
    the pipe's lock, from acquire or from waking up to release or to sleep. */
module Pipe {
  import opened Blocks

  const PIPESIZE: int := 512
  const U32: int := 0x1_0000_0000

  datatype Outcome = Done | Failed | Slept

  function Wrap(n: int): int { n % U32 }

  /** The ring does not notice the counters wrapping, because 512 divides 2^32. */
  lemma WrapIndex(n: nat)
    ensures Wrap(n) % PIPESIZE == n % PIPESIZE
    ensures Wrap(Wrap(n) + 1) == Wrap(n + 1)
    ensures Wrap(Wrap(n) + PIPESIZE) == Wrap(n + PIPESIZE)
  {
    var q := n / U32;
    assert n == q * U32 + Wrap(n);
    assert n == 8388608 * q * PIPESIZE + Wrap(n);
  }

  /** Counters at most a ring apart compare as the unbounded counts do. */
  lemma WrapCompare(r: nat, w: nat)
    requires r <= w <= r + PIPESIZE
    ensures Wrap(w) == Wrap(r) <==> w == r
    ensures Wrap(w) == Wrap(r + PIPESIZE) <==> w == r + PIPESIZE
  {
  }

  class Pipe {
    const data: array<Byte>
    var nread: int
    var nwrite: int
    var readopen: bool
    var writeopen: bool
    var readers: set<int>           // processes asleep on &nread
    var writers: set<int>           // processes asleep on &nwrite
    ghost var stored: seq<Byte>     // every byte ever stored
    ghost var got: seq<Byte>        // every byte ever handed to a reader

    /** What readers got is what writers stored, in order, and the ring holds the rest. */
    ghost predicate Valid()
      reads this, data
    {
      && data.Length == PIPESIZE
      && nread == Wrap(|got|) && nwrite == Wrap(|stored|)
      && |got| <= |stored| <= |got| + PIPESIZE
      && got == stored[..|got|]
      && (forall k | |got| <= k < |stored| :: data[k % PIPESIZE] == stored[k])
    }

    /** Nobody sleeps without cause. */
    ghost predicate Awake()
      reads this
    {
      && (readers != {} ==> |stored| == |got| && writeopen && readopen)
      && (writers != {} ==> |stored| == |got| + PIPESIZE && readopen)
    }

    /** pipealloc */
    constructor ()
      ensures Valid() && Awake() && fresh(data)
      ensures stored == [] && got == [] && readopen && writeopen && readers == {} && writers == {}
    {
      data := new Byte[PIPESIZE];
      nread, nwrite, readopen, writeopen := 0, 0, true, true;
      readers, writers, stored, got := {}, {}, [], [];
    }

    /** p->nwrite == p->nread + PIPESIZE, in 32 bits */
    method IsFull() returns (r: bool)
      requires Valid()
      ensures |got| <= |stored| <= |got| + PIPESIZE && (r <==> |stored| == |got| + PIPESIZE)
    {
      WrapCompare(|got|, |stored|);
      WrapIndex(|got|);
      r := nwrite == Wrap(nread + PIPESIZE);
    }

    /** One byte goes into the ring. */
    method Put(c: Byte)
      requires Valid() && |stored| < |got| + PIPESIZE
      modifies this`nwrite, this`stored, data
      ensures Valid() && stored == old(stored) + [c]
    {
      WrapIndex(|stored|);
      RingSlots(|got|, |stored|);
      data[nwrite % PIPESIZE] := c;
      nwrite := Wrap(nwrite + 1);
      stored := stored + [c];
    }

    /** pipewrite, from its i0-th byte on; a process that runs this sleeps no more. */
    method Write(pid: int, addr: seq<Byte>, i0: nat, killed: bool) returns (i: nat, o: Outcome)
      requires Valid() && i0 <= |addr| && writeopen
      modifies this`nwrite, this`readers, this`writers, this`stored, data
      ensures Valid() && i0 <= i <= |addr| && stored == old(stored) + addr[i0..i]
      ensures o == Done ==> i == |addr| && readers == {} && writers == old(writers) - {pid}
      ensures o == Slept ==> readopen && !killed && readers == {} && writers == old(writers) + {pid}
      ensures o == Failed ==> (!readopen || killed) && readers == old(readers) && writers == old(writers) - {pid}
      ensures o != Done ==> i < |addr| && |stored| == |got| + PIPESIZE
      ensures old(Awake()) ==> (Awake() <==> !Forgets(old(readers), killed, |addr| - i0))
    {
      i := i0;
      writers := writers - {pid};
      while i < |addr|
        invariant Valid() && i0 <= i <= |addr| && stored == old(stored) + addr[i0..i]
        invariant writers == old(writers) - {pid} && readers == old(readers)
        invariant |stored| - |old(stored)| == i - i0
        invariant old(Awake()) && writers != {} ==> i == i0
      {
        var full := IsFull();
        if full {
          if !readopen || killed {
            return i, Failed;
          }
          readers := {};
          writers := writers + {pid};
          return i, Slept;
        }
        Put(addr[i]);
        i := i + 1;
      }
      readers := {};
      return i, Done;
    }

    /** piperead of at most n bytes; a process that runs this sleeps no more. */
    method Read(pid: int, n: nat, killed: bool) returns (addr: seq<Byte>, o: Outcome)
      requires Valid() && readopen
      modifies this`nread, this`readers, this`writers, this`got
      ensures Valid() && got == old(got) + addr
      ensures o == Done ==> |addr| == (if |stored| - |old(got)| < n then |stored| - |old(got)| else n)
      ensures o == Done ==> writers == {} && readers == old(readers) - {pid} && (addr == [] ==> n == 0 || !writeopen)
      ensures o == Slept ==> !killed && readers == old(readers) + {pid}
      ensures o == Failed ==> killed && readers == old(readers) - {pid}
      ensures o != Done ==> addr == [] && writers == old(writers) && |stored| == |got| && writeopen
      ensures old(Awake()) ==> Awake()
    {
      addr := [];
      readers := readers - {pid};
      WrapCompare(|got|, |stored|);
      if nread == nwrite && writeopen {
        if killed {
          return addr, Failed;
        }
        readers := readers + {pid};
        return addr, Slept;
      }
      var i := 0;
      while i < n
        invariant Valid() && i == |addr| <= n && got == old(got) + addr
        invariant readers == old(readers) - {pid} && writers == old(writers)
      {
        WrapCompare(|got|, |stored|);
        if nread == nwrite {
          break;
        }
        WrapIndex(|got|);
        addr := addr + [data[nread % PIPESIZE]];
        nread := Wrap(nread + 1);
        got := got + [stored[|got|]];
        i := i + 1;
      }
      writers := {};
      return addr, Done;
    }

    /** pipeclose: an end is closed when no process is inside a call on it; the pipe is freed once both are. */
    method Close(writable: bool) returns (freed: bool)
      requires Valid() && (!writable ==> readers == {}) && (writable ==> writers == {})
      modifies this`readopen, this`writeopen, this`readers, this`writers
      ensures Valid() && (old(Awake()) ==> Awake())
      ensures freed <==> !readopen && !writeopen
      ensures if writable then !writeopen && readopen == old(readopen) && readers == {} && writers == old(writers)
              else !readopen && writeopen == old(writeopen) && writers == {} && readers == old(readers)
    {
      if writable {
        writeopen := false;
        readers := {};
      } else {
        readopen := false;
        writers := {};
      }
      freed := !readopen && !writeopen;
    }
  }

  /** Counts less than a ring apart have slots of their own. */
  lemma RingSlots(r: nat, w: nat)
    requires r <= w < r + PIPESIZE
    ensures forall k | r <= k < w :: k % PIPESIZE != w % PIPESIZE
  {
  }

  /** When a call of pipewrite leaves a reader asleep beside bytes to read: a killed writer with more than a ring of
      bytes to go, and somebody already asleep, so on an empty ring. */
  predicate Forgets(readers: set<int>, killed: bool, n: int) {
    killed && readers != {} && n > PIPESIZE
  }

  /** It does happen. */
  method KilledWriterForgetsReader() returns (p: Pipe)
    ensures fresh(p) && p.Valid() && p.readers == {1} && |p.stored| == |p.got| + PIPESIZE
  {
    p := new Pipe();
    var none, o := p.Read(1, 1, false);
    var i;
    i, o := p.Write(2, seq(PIPESIZE + 1, _ => 0), 0, true);
  }
}
