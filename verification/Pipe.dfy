/** The pipe ring buffer with its 32-bit counters. Each method is what one process does
    while it holds the pipe's lock, up to a release or a sleep, so a run of readers and
    writers is any sequence of calls. */
module Pipe {
  const PIPESIZE := 512

  newtype byte = x: int | 0 <= x < 256

  datatype Outcome = Sleeps | Fails | Returns

  // ---------- counters ----------

  /** A count as an unsigned 32-bit number. */
  function Low32(k: nat): (n: nat)
    ensures n < 0x1_0000_0000
  {
    k % 0x1_0000_0000
  }

  function Place(k: nat): (i: nat)
    ensures i < PIPESIZE
  {
    k % PIPESIZE
  }

  lemma WholeRounds(a: nat, k: nat)
    ensures Place(PIPESIZE * a + k) == Place(k)
  {
  }

  /** PIPESIZE divides the range of the counters, so wrapping keeps ring places. */
  lemma PlaceAfterWrap(k: nat, n: nat)
    ensures Place(Low32(k) + n) == Place(k + n)
  {
    hide Place;
    WholeRounds(8388608 * (k / 0x1_0000_0000), Low32(k) + n);
  }

  lemma CountAfterWrap(k: nat)
    ensures Low32(Low32(k) + 1) == Low32(k + 1)
  {
  }

  /** The tests for full and empty, and the difference, are about the counts themselves. */
  lemma TestsExact(nread: nat, nwrite: nat)
    requires nread <= nwrite <= nread + PIPESIZE
    ensures Low32(nread) == Low32(nwrite) <==> nread == nwrite
    ensures Low32(nwrite) == Low32(Low32(nread) + PIPESIZE) <==> nwrite == nread + PIPESIZE
    ensures Low32(Low32(nwrite) + 0x1_0000_0000 - Low32(nread)) == nwrite - nread
  {
  }

  lemma PlacesDiffer(a: nat, b: nat)
    requires a < b < a + PIPESIZE
    ensures Place(a) != Place(b)
  {
  }

  /** The bytes of `all` from count `from` on lie at their places in the ring. */
  ghost predicate Holds(ring: seq<byte>, all: seq<byte>, from: nat) {
    |ring| == PIPESIZE && forall k :: from <= k < |all| ==> ring[Place(k)] == all[k]
  }

  lemma HoldsMore(ring: seq<byte>, all: seq<byte>, from: nat, ch: byte)
    requires Holds(ring, all, from) && from <= |all| < from + PIPESIZE
    ensures |ring| == PIPESIZE && Holds(ring[Place(Low32(|all|)) := ch], all + [ch], from)
    ensures Low32(Low32(|all|) + 1) == Low32(|all| + 1)
  {
    hide Place, Low32;
    PlaceAfterWrap(|all|, 0);
    CountAfterWrap(|all|);
    var ring', all' := ring[Place(|all|) := ch], all + [ch];
    forall k | from <= k < |all'| ensures ring'[Place(k)] == all'[k] {
      if k < |all| {
        PlacesDiffer(k, |all|);
      }
    }
  }

  lemma HoldsLess(ring: seq<byte>, all: seq<byte>, from: nat)
    requires Holds(ring, all, from) && from < |all|
    ensures |ring| == PIPESIZE && ring[Place(Low32(from))] == all[from] && Holds(ring, all, from + 1)
    ensures Low32(Low32(from) + 1) == Low32(from + 1)
  {
    hide Place, Low32;
    PlaceAfterWrap(from, 0);
    CountAfterWrap(from);
  }

  /** What is in the ring by its counters. */
  function Contents(ring: seq<byte>, nread: nat, nwrite: nat): seq<byte>
    requires |ring| == PIPESIZE && nread < 0x1_0000_0000
  {
    seq(Low32(nwrite + 0x1_0000_0000 - nread), k requires 0 <= k => ring[Place(nread + k)])
  }

  lemma ContentsAre(ring: seq<byte>, taken: seq<byte>, written: seq<byte>)
    requires Holds(ring, written, |taken|) && taken <= written && |written| <= |taken| + PIPESIZE
    ensures taken + Contents(ring, Low32(|taken|), Low32(|written|)) == written
  {
    hide Place, Low32;
    TestsExact(|taken|, |written|);
    var c := Contents(ring, Low32(|taken|), Low32(|written|));
    forall k | 0 <= k < |c| ensures c[k] == written[|taken| + k] {
      PlaceAfterWrap(|taken|, k);
    }
    assert written == taken + written[|taken|..];
    assert c == written[|taken|..];
  }

  lemma SliceMore(src: seq<byte>, i: nat, j: nat)
    requires i <= j < |src|
    ensures src[i..j + 1] == src[i..j] + [src[j]]
  {
  }

  /** The writer is seen to be killed before its last byte, before it sleeps for room
      and before the fault. */
  predicate CutShort(end: nat, i: nat, killedAt: nat, fault: nat, free: int) {
    killedAt < end && killedAt - i <= free && !(i <= fault < killedAt)
  }

  class Pipe {
    const data: array<byte>
    var nread: nat
    var nwrite: nat
    var readopen: bool
    var writeopen: bool
    ghost var written: seq<byte>  // all bytes ever put in
    ghost var taken: seq<byte>    // all bytes ever taken out
    ghost var readers: nat        // processes asleep on nread
    ghost var writers: nat        // processes asleep on nwrite
    ghost var stranded: bool      // since readers were last woken, a writer left bytes without waking them

    /** The ring holds the bytes written and not taken yet. */
    ghost predicate Ring()
      reads this, data
    {
      && data.Length == PIPESIZE && taken <= written && |written| <= |taken| + PIPESIZE
      && nread == Low32(|taken|) && nwrite == Low32(|written|) && Holds(data[..], written, |taken|)
    }

    ghost predicate Valid()
      reads this, data
    {
      && Ring()
      && (readers > 0 ==> writeopen && (taken == written || stranded))
      && (writers > 0 ==> readopen && |written| == |taken| + PIPESIZE)
    }

    ghost function Free(): int
      reads this
    {
      |taken| + PIPESIZE - |written|
    }

    /** First in, first out: what was taken, and then what is buffered, is what was
        written, in order. */
    lemma Fifo()
      requires Valid()
      ensures taken + Contents(data[..], nread, nwrite) == written
    {
      ContentsAre(data[..], taken, written);
    }

    constructor ()
      ensures Valid() && fresh(data) && written == [] && taken == [] && readopen && writeopen
      ensures readers == 0 && writers == 0 && !stranded
    {
      data := new byte[PIPESIZE](_ => 0);
      nread, nwrite, readopen, writeopen := 0, 0, true, true;
      written, taken, readers, writers, stranded := [], [], 0, 0, false;
    }

    /** pipewrite from byte i of src on. `killedAt` is the byte before which the writer is
        seen to be killed, `fault` the byte that copyin cannot fetch. The bytes from i to j
        have gone in. A return wakes the readers, a failure does not. So readers asleep at
        an empty pipe are left asleep beside bytes exactly when the writer is killed after
        its first byte and before its last, before a fault and before it has to sleep. */
    method Write(src: seq<byte>, i: nat, killedAt: nat, fault: nat) returns (r: Outcome, j: nat)
      requires Valid() && i <= |src|
      modifies this`nwrite, this`written, this`readers, this`writers, this`stranded, data
      ensures Valid() && taken == old(taken) && i <= j <= |src| && written == old(written) + src[i..j]
      ensures j > i ==> readopen && j <= killedAt && !(i <= fault < j)
      ensures r == Fails <==> j < |src| && (!readopen || j >= killedAt)
      ensures r == Sleeps <==> |written| == |taken| + PIPESIZE && j < |src| && readopen && j < killedAt
      ensures r == Returns ==> j == |src| || j == fault
      ensures writers == old(writers) + if r == Sleeps then 1 else 0
      ensures readers == if r == Fails then old(readers) else 0
      ensures stranded <==> r == Fails && (old(stranded) || (j > i && old(readers) > 0))
      ensures r == Fails <==> i < |src| && (!readopen || CutShort(|src|, i, killedAt, fault, old(Free())))
      ensures readers > 0 && taken != written <==>
                && old(readers) > 0 && i < |src| && (!readopen || CutShort(|src|, i, killedAt, fault, old(Free())))
                && (old(taken) != old(written) || (readopen && i < killedAt))
    {
      hide Holds, Low32, Place;
      r, j := PutBytes(src, i, killedAt, fault);
      if r == Fails {
        stranded := stranded || (j > i && readers > 0);
      } else {
        readers, stranded := 0, false;
      }
      if r == Sleeps {
        writers := writers + 1;
      }
    }

    /** pipewrite's loop, up to the point where it fails, finds the pipe full or is done. */
    method PutBytes(src: seq<byte>, i: nat, killedAt: nat, fault: nat) returns (r: Outcome, j: nat)
      requires Ring() && i <= |src|
      modifies this`nwrite, this`written, data
      ensures Ring() && i <= j <= |src| && written == old(written) + src[i..j]
      ensures j > i ==> readopen && j <= killedAt && !(i <= fault < j) && old(Free()) > 0
      ensures r == Fails <==> j < |src| && (!readopen || j >= killedAt)
      ensures r == Sleeps <==> |written| == |taken| + PIPESIZE && j < |src| && readopen && j < killedAt
      ensures r == Returns ==> j == |src| || j == fault
    {
      hide Holds, Low32, Place;
      j := i;
      while j < |src|
        invariant i <= j <= |src| && Ring() && written == old(written) + src[i..j]
        invariant j > i ==> readopen && j <= killedAt && !(i <= fault < j) && old(Free()) > 0
      {
        if !readopen || j >= killedAt {
          return Fails, j;
        }
        TestsExact(|taken|, |written|);
        if nwrite == Low32(nread + PIPESIZE) {
          return Sleeps, j;
        }
        if j == fault {
          break;
        }
        PutByte(src[j]);
        SliceMore(src, i, j);
        j := j + 1;
      }
      return Returns, j;
    }

    method PutByte(ch: byte)
      requires Ring() && |written| < |taken| + PIPESIZE
      modifies this`nwrite, this`written, data
      ensures Ring() && written == old(written) + [ch]
    {
      hide Holds, Low32, Place;
      HoldsMore(data[..], written, |taken|, ch);
      ghost var ring := data[..];
      data[Place(nwrite)] := ch;
      assert data[..] == ring[Place(nwrite) := ch];
      nwrite := Low32(nwrite + 1);
      written := written + [ch];
    }

    /** piperead of up to n bytes; `fault` is the place in the destination where copyout
        fails. `out` has arrived; a byte that copyout could not deliver is gone. */
    method Read(n: nat, killed: bool, fault: nat) returns (r: Outcome, out: seq<byte>, ghost lost: seq<byte>)
      requires Valid()
      modifies this`nread, this`taken, this`readers, this`writers, this`stranded
      ensures Valid() && written == old(written) && taken == old(taken) + out + lost
      ensures |lost| <= 1 && (lost != [] ==> |out| == fault < n)
      ensures r == Sleeps <==> old(taken) == written && writeopen && !killed
      ensures r == Fails <==> old(taken) == written && writeopen && killed
      ensures stranded == old(stranded) && (r != Returns ==> out == [] && lost == [] && writers == old(writers))
      ensures r == Returns ==> writers == 0 && (|out| == n || taken == written || lost != [])
      ensures r == Returns ==> |out| + |lost| <= n && |out| <= fault
      ensures r == Returns ==> (lost != [] <==> fault < n && fault < |old(written)| - |old(taken)|)
      ensures readers == old(readers) + if r == Sleeps then 1 else 0
    {
      hide Holds, Low32, Place;
      out, lost := [], [];
      TestsExact(|taken|, |written|);
      if nread == nwrite && writeopen {
        if killed {
          return Fails, [], [];
        }
        readers := readers + 1;
        return Sleeps, [], [];
      }
      while |out| < n
        invariant Ring() && written == old(written) && taken == old(taken) + out && |out| <= n && |out| <= fault
        invariant readers == old(readers) && (readers > 0 ==> stranded) && stranded == old(stranded)
      {
        TestsExact(|taken|, |written|);
        if nread == nwrite {
          break;
        }
        var ch := TakeByte();
        if |out| == fault {
          lost := [ch];
          break;
        }
        out := out + [ch];
      }
      writers := 0;
      return Returns, out, lost;
    }

    method TakeByte() returns (ch: byte)
      requires Ring() && taken != written
      modifies this`nread, this`taken
      ensures Ring() && taken == old(taken) + [ch]
    {
      hide Holds, Low32, Place;
      HoldsLess(data[..], written, |taken|);
      ch := data[Place(nread)];
      nread := Low32(nread + 1);
      taken := taken + [ch];
    }

    /** pipeclose wakes the other side; the second one to close frees the pipe, and then
        nobody is asleep in it. */
    method Close(writable: bool) returns (freed: bool)
      requires Valid()
      modifies this`readopen, this`writeopen, this`readers, this`writers, this`stranded
      ensures Valid() && readopen == (old(readopen) && writable) && writeopen == (old(writeopen) && !writable)
      ensures if writable then readers == 0 && writers == old(writers) && !stranded
              else writers == 0 && readers == old(readers) && stranded == old(stranded)
      ensures freed == (!readopen && !writeopen) && (freed ==> readers == 0 && writers == 0)
    {
      if writable {
        writeopen := false;
        readers, stranded := 0, false;
      } else {
        readopen := false;
        writers := 0;
      }
      return !readopen && !writeopen;
    }
  }

  /** A reader sleeps on the empty pipe; a writer puts in a byte and is killed before the
      next one. The reader sleeps on, with a byte in the pipe. */
  method LostWakeup() returns (p: Pipe)
    ensures p.Valid() && p.readers == 1 && p.stranded && p.taken == [] && p.written == [7]
  {
    p := new Pipe();
    var r, out;
    ghost var lost;
    r, out, lost := p.Read(1, false, 1);
    var r2, j := p.Write([7, 8], 0, 1, 2);
  }
}
