/** The buffer cache as a machine: any number of processes get, lock, fill, change,
    log, write and release buffers, in any order their locks allow. Which idle
    buffer is recycled is left open here. */
module CacheMachine {
  import opened LogDisk
  import opened Wrappers

  const NBUF := 30
  const ROOTDEV := 1

  /** `owner` is the process holding the buffer's sleep lock. */
  datatype Buf = Buf(valid: bool, dev: nat, blockno: nat, owner: Option<nat>, refcnt: nat, data: Block) {
    predicate Is(dev: nat, blockno: nat) {
      this.dev == dev && this.blockno == blockno
    }
  }

  /** The cache and the disk below it, with bookkeeping:
      `logical` holds each block as of the last log_write or bwrite of it,
      `dirty` the buffers changed since then by the process that has them locked,
      `pinned` the buffers pinned by the log, and `waiting[i]` the processes that
      have got buffer i but not yet its lock. */
  datatype Cached = Cached(
    disk: Disk, logical: Disk, buf: seq<Buf>,
    dirty: set<nat>, pinned: set<nat>, waiting: seq<set<nat>>)

  datatype Action =
    | Get(p: nat, i: nat, blockno: nat)
    | Lock(p: nat, i: nat)
    | Fill(p: nat, i: nat)
    | Change(p: nat, i: nat, data: Block)
    | LogWrite(p: nat, i: nat)
    | Write(p: nat, i: nat)
    | Unpin(p: nat, i: nat)
    | Release(p: nat, i: nat)

  ghost predicate Shape(s: Cached) {
    |s.buf| == |s.waiting| == NBUF && |s.disk| == |s.logical|
  }

  ghost predicate Holder(s: Cached, p: nat, i: nat)
    requires Shape(s)
  {
    i < NBUF && s.buf[i].owner == Some(p)
  }

  /** When a step may happen: the code's own guards, and the callers' side of the
      bargain (change only what you have locked, log or write it before releasing). */
  ghost predicate Enabled(s: Cached, a: Action)
    requires Shape(s)
  {
    match a
    case Get(p, i, blockno) =>
      && i < NBUF && blockno < |s.disk|
      && (forall k :: 0 <= k < NBUF ==> p !in s.waiting[k])
      && (s.buf[i].Is(ROOTDEV, blockno)
          || (s.buf[i].refcnt == 0 && forall k :: 0 <= k < NBUF ==> !s.buf[k].Is(ROOTDEV, blockno)))
    case Lock(p, i) => i < NBUF && p in s.waiting[i] && s.buf[i].owner == None
    case Fill(p, i) => Holder(s, p, i) && !s.buf[i].valid && s.buf[i].blockno < |s.disk|
    case Change(p, i, _) => Holder(s, p, i) && s.buf[i].valid
    case LogWrite(p, i) => Holder(s, p, i) && s.buf[i].valid && s.buf[i].blockno < |s.disk|
    case Write(p, i) => Holder(s, p, i) && s.buf[i].blockno < |s.disk|
    case Unpin(p, i) =>
      && Holder(s, p, i) && i in s.pinned && s.buf[i].refcnt > 0
      && s.buf[i].blockno < |s.disk| && s.logical[s.buf[i].blockno] == s.disk[s.buf[i].blockno]
    case Release(p, i) => Holder(s, p, i) && i !in s.dirty && s.buf[i].refcnt > 0
  }

  ghost function Step(s: Cached, a: Action): (s': Cached)
    requires Shape(s) && Enabled(s, a)
    ensures Shape(s')
  {
    var b := s.buf[a.i];
    match a
    case Get(p, i, blockno) =>
      var b' := if b.Is(ROOTDEV, blockno) then b.(refcnt := b.refcnt + 1)
                else b.(valid := false, dev := ROOTDEV, blockno := blockno, refcnt := 1);
      s.(buf := s.buf[i := b'], waiting := s.waiting[i := s.waiting[i] + {p}])
    case Lock(p, i) =>
      s.(buf := s.buf[i := b.(owner := Some(p))], waiting := s.waiting[i := s.waiting[i] - {p}])
    case Fill(_, i) => s.(buf := s.buf[i := b.(data := s.disk[b.blockno], valid := true)])
    case Change(_, i, data) => s.(buf := s.buf[i := b.(data := data)], dirty := s.dirty + {i})
    case LogWrite(_, i) =>
      s.(logical := s.logical[b.blockno := b.data], dirty := s.dirty - {i}, pinned := s.pinned + {i},
         buf := if i in s.pinned then s.buf else s.buf[i := b.(refcnt := b.refcnt + 1)])
    case Write(_, i) =>
      s.(disk := s.disk[b.blockno := b.data], logical := s.logical[b.blockno := b.data], dirty := s.dirty - {i})
    case Unpin(_, i) =>
      s.(buf := s.buf[i := b.(refcnt := b.refcnt - 1)], pinned := s.pinned - {i})
    case Release(_, i) => s.(buf := s.buf[i := b.(owner := None, refcnt := b.refcnt - 1)])
  }

  // ---------- invariant ----------

  /** refcnt counts the processes in line, the lock holder and the pin. */
  ghost predicate Counted(s: Cached, i: nat)
    requires Shape(s) && i < NBUF
  {
    s.buf[i].refcnt ==
      |s.waiting[i]| + (if s.buf[i].owner.Some? then 1 else 0) + (if i in s.pinned then 1 else 0)
  }

  /** A buffer in use belongs to a block of the disk and, unless its owner is busy
      changing it, agrees with the last logged or written contents. */
  ghost predicate Coherent(s: Cached, i: nat)
    requires Shape(s) && i < NBUF
  {
    var b := s.buf[i];
    b.dev != 0 || b.refcnt > 0 || b.valid ==>
      && b.dev == ROOTDEV && b.blockno < |s.disk|
      && (b.valid && i !in s.dirty ==> b.data == s.logical[b.blockno])
  }

  /** At most one buffer per assigned block. */
  ghost predicate Unique(s: Cached)
    requires Shape(s)
  {
    forall i, j :: 0 <= i < j < NBUF && s.buf[i].dev != 0 ==> !s.buf[j].Is(s.buf[i].dev, s.buf[i].blockno)
  }

  /** Only a pinned block may differ from its disk copy. */
  ghost predicate Backed(s: Cached)
    requires Shape(s)
  {
    && (forall i :: i in s.pinned ==> i < NBUF && s.buf[i].valid)
    && forall b :: 0 <= b < |s.disk| && s.logical[b] != s.disk[b]
                   ==> exists i :: i in s.pinned && s.buf[i].blockno == b
  }

  ghost predicate Inv(s: Cached) {
    && Shape(s)
    && (forall i :: 0 <= i < NBUF ==> Counted(s, i) && Coherent(s, i))
    && Unique(s)
    && Backed(s)
    && (forall i :: i in s.dirty ==> i < NBUF && s.buf[i].owner.Some? && s.buf[i].valid)
  }

  lemma StepKeepsCounts(s: Cached, a: Action, i: nat)
    requires Inv(s) && Enabled(s, a) && i < NBUF
    ensures Counted(Step(s, a), i)
  {
    assert Counted(s, i);
    if i == a.i {
      assert s.waiting[i] == {} <==> |s.waiting[i]| == 0;
    }
  }

  lemma StepKeepsCoherent(s: Cached, a: Action, i: nat)
    requires Inv(s) && Enabled(s, a) && i < NBUF
    ensures Coherent(Step(s, a), i)
  {
    assert Coherent(s, i) && Coherent(s, a.i) && Counted(s, i) && Counted(s, a.i);
    if i != a.i {
      // no other buffer holds the same block
      assert i < a.i && s.buf[i].dev != 0 ==> !s.buf[a.i].Is(s.buf[i].dev, s.buf[i].blockno);
      assert a.i < i && s.buf[a.i].dev != 0 ==> !s.buf[i].Is(s.buf[a.i].dev, s.buf[a.i].blockno);
    }
    if a.Fill? && s.logical[s.buf[a.i].blockno] != s.disk[s.buf[a.i].blockno] {
      PinnedIsValid(s, a.i);
      assert false;
    }
  }

  /** A block whose newest contents are not on the disk sits in a valid buffer. */
  lemma PinnedIsValid(s: Cached, i: nat)
    requires Inv(s) && i < NBUF && s.buf[i].dev == ROOTDEV && s.buf[i].blockno < |s.disk|
    requires s.logical[s.buf[i].blockno] != s.disk[s.buf[i].blockno]
    ensures s.buf[i].valid && i in s.pinned
  {
    var j :| j in s.pinned && s.buf[j].blockno == s.buf[i].blockno;
    assert Coherent(s, j);
  }

  lemma StepKeepsUnique(s: Cached, a: Action)
    requires Inv(s) && Enabled(s, a)
    ensures Unique(Step(s, a))
  {
  }

  lemma StepKeepsBacked(s: Cached, a: Action)
    requires Inv(s) && Enabled(s, a)
    ensures Backed(Step(s, a))
  {
    var s' := Step(s, a);
    assert Counted(s, a.i);
    forall b | 0 <= b < |s'.disk| && s'.logical[b] != s'.disk[b]
      ensures exists i :: i in s'.pinned && s'.buf[i].blockno == b
    {
      if a.LogWrite? && b == s.buf[a.i].blockno {
        assert a.i in s'.pinned && s'.buf[a.i].blockno == b;
      } else {
        var i :| i in s.pinned && s.buf[i].blockno == b;
        assert Counted(s, i);
        assert i in s'.pinned && s'.buf[i].blockno == b;
      }
    }
  }

  lemma StepKeepsInv(s: Cached, a: Action)
    requires Inv(s) && Enabled(s, a)
    ensures Inv(Step(s, a))
  {
    forall i | 0 <= i < NBUF ensures Counted(Step(s, a), i) && Coherent(Step(s, a), i) {
      StepKeepsCounts(s, a, i);
      StepKeepsCoherent(s, a, i);
    }
    StepKeepsUnique(s, a);
    StepKeepsBacked(s, a);
    assert Counted(s, a.i);
  }

  // ---------- whole runs ----------

  /** After binit: every buffer blank, on device 0. */
  ghost predicate Fresh(s: Cached) {
    && Shape(s) && s.logical == s.disk && s.dirty == {} && s.pinned == {}
    && forall i :: 0 <= i < NBUF ==>
         s.waiting[i] == {} && !s.buf[i].valid && s.buf[i].dev == 0 && s.buf[i].refcnt == 0 && s.buf[i].owner == None
  }

  lemma FreshInv(s: Cached)
    requires Fresh(s)
    ensures Inv(s)
  {
  }

  ghost predicate Reaches(s: Cached, acts: seq<Action>, s': Cached)
    decreases |acts|
  {
    if acts == [] then s' == s
    else Shape(s) && Enabled(s, acts[0]) && Reaches(Step(s, acts[0]), acts[1..], s')
  }

  lemma {:induction false} RunKeepsInv(s: Cached, acts: seq<Action>, s': Cached)
    requires Inv(s) && Reaches(s, acts, s')
    ensures Inv(s')
    decreases |acts|
  {
    if acts != [] {
      StepKeepsInv(s, acts[0]);
      RunKeepsInv(Step(s, acts[0]), acts[1..], s');
    }
  }

  /** In every run from binit: a process that has a filled buffer locked and
      unchanged sees the last logged or written contents of its block; no other
      buffer is assigned to that block; and a block whose contents have not reached
      the disk stays in a valid, pinned buffer. */
  lemma CacheAgreesWithLogicalDisk(s0: Cached, acts: seq<Action>, s: Cached)
    requires Fresh(s0) && Reaches(s0, acts, s)
    ensures Shape(s)
    ensures forall p: nat, i: nat :: Holder(s, p, i) && s.buf[i].valid && i !in s.dirty ==>
              s.buf[i].blockno < |s.logical| && s.buf[i].data == s.logical[s.buf[i].blockno]
    ensures forall i, j :: 0 <= i < j < NBUF && s.buf[i].dev != 0 ==> !s.buf[j].Is(s.buf[i].dev, s.buf[i].blockno)
    ensures forall b :: 0 <= b < |s.disk| && s.logical[b] != s.disk[b] ==>
              exists i :: i in s.pinned && i < NBUF && s.buf[i].Is(ROOTDEV, b) && s.buf[i].valid
    ensures forall i :: i in s.pinned ==> i < NBUF && s.buf[i].refcnt > 0
  {
    RunKeepsInv(s0, acts, s);
    forall b | 0 <= b < |s.disk| && s.logical[b] != s.disk[b]
      ensures exists i :: i in s.pinned && i < NBUF && s.buf[i].Is(ROOTDEV, b) && s.buf[i].valid
    {
      var i :| i in s.pinned && s.buf[i].blockno == b;
      assert Coherent(s, i);
    }
    forall i | i in s.pinned ensures s.buf[i].refcnt > 0 {
      assert Counted(s, i);
    }
    forall p: nat, i: nat | Holder(s, p, i) ensures Coherent(s, i) && Counted(s, i) {
    }
  }
}

/** The code of the cache: NBUF buffers on a circular doubly linked list kept in
    order of last use. Pointers are buffer indices; index NBUF is the list head. */
module BufferCache {
  import opened LogDisk
  import opened Wrappers
  import opened CacheMachine

  // ---------- the list ----------

  /** The list as a cycle: the head, then the buffers from most to least recent. */
  function Cycle(order: seq<nat>): seq<nat> {
    [NBUF] + order
  }

  function After(order: seq<nat>, j: nat): nat
    requires j <= |order|
  {
    if j == |order| then NBUF else order[j]
  }

  ghost predicate Ring(next: seq<nat>, prev: seq<nat>, order: seq<nat>) {
    && |next| == |prev| == NBUF + 1
    && |order| <= NBUF
    && (forall j :: 0 <= j < |order| ==> order[j] < NBUF)
    && (forall j, k :: 0 <= j < k < |order| ==> order[j] != order[k])
    && (forall j :: 0 <= j <= |order| ==> next[Cycle(order)[j]] == After(order, j))
    && (forall j :: 0 <= j <= |order| ==> prev[After(order, j)] == Cycle(order)[j])
  }

  /** Every buffer is on the list. */
  ghost predicate Full(order: seq<nat>) {
    |order| == NBUF && forall i :: 0 <= i < NBUF ==> i in order
  }

  /** Removing a buffer and linking it in front of all others. */
  function Remove(order: seq<nat>, j: nat): seq<nat>
    requires j < |order|
  {
    order[..j] + order[j + 1..]
  }

  function Front(order: seq<nat>, j: nat): seq<nat>
    requires j < |order|
  {
    [order[j]] + Remove(order, j)
  }

  lemma LinkFront(next: seq<nat>, prev: seq<nat>, order: seq<nat>, b: nat)
    requires Ring(next, prev, order) && b < NBUF && b !in order && |order| < NBUF
    ensures next[NBUF] <= NBUF
    ensures
      var next1, prev1 := next[b := next[NBUF]], prev[b := NBUF];
      Ring(next1[NBUF := b], prev1[next1[NBUF] := b], [b] + order)
  {
    var o := [b] + order;
    assert next[Cycle(order)[0]] == After(order, 0);
    var next1, prev1 := next[b := next[NBUF]], prev[b := NBUF];
    var n, p := next1[NBUF := b], prev1[next1[NBUF] := b];
    forall j | 0 <= j <= |o| ensures n[Cycle(o)[j]] == After(o, j) {
      if j >= 2 { assert Cycle(o)[j] == Cycle(order)[j - 1] && After(o, j) == After(order, j - 1); }
      if j == 1 { assert Cycle(o)[1] == b && After(o, 1) == After(order, 0); }
    }
    forall j | 0 <= j <= |o| ensures p[After(o, j)] == Cycle(o)[j] {
      if j >= 2 {
        assert Cycle(o)[j] == Cycle(order)[j - 1] && After(o, j) == After(order, j - 1);
        assert j - 1 < |order| ==> After(order, j - 1) != After(order, 0);
      }
    }
  }

  lemma Unlink(next: seq<nat>, prev: seq<nat>, order: seq<nat>, j: nat)
    requires Ring(next, prev, order) && j < |order|
    ensures
      var b := order[j];
      && next[b] <= NBUF && prev[b] <= NBUF
      && Ring(next[prev[b] := next[b]], prev[next[b] := prev[b]], Remove(order, j))
      && b !in Remove(order, j)
  {
    var b := order[j];
    var o := Remove(order, j);
    assert Cycle(order)[j + 1] == b && After(order, j) == b;
    assert next[b] == After(order, j + 1) && prev[b] == Cycle(order)[j];
    var n, p := next[prev[b] := next[b]], prev[next[b] := prev[b]];
    forall i | 0 <= i <= |o| ensures n[Cycle(o)[i]] == After(o, i) && p[After(o, i)] == Cycle(o)[i] {
      var i' := if i <= j then i else i + 1;
      assert Cycle(o)[i] == Cycle(order)[i'];
      assert i < j ==> After(o, i) == After(order, i);
      assert i >= j ==> After(o, i) == After(order, i + 1);
      assert next[Cycle(order)[i']] == After(order, i') && prev[After(order, i')] == Cycle(order)[i'];
      assert prev[After(order, i + 1)] == Cycle(order)[i + 1];
    }
  }

  /** brelse's six pointer writes, in order, move buffer order[j] to the front. */
  lemma MoveFront(next: seq<nat>, prev: seq<nat>, order: seq<nat>, j: nat)
    requires Ring(next, prev, order) && j < |order|
    ensures
      var b := order[j];
      && next[b] <= NBUF && prev[b] <= NBUF
      && var n, p := next[prev[b] := next[b]], prev[next[b] := prev[b]];
      && n[NBUF] <= NBUF
      && var n1, p1 := n[b := n[NBUF]], p[b := NBUF];
      && Ring(n1[NBUF := b], p1[n1[NBUF] := b], Front(order, j))
  {
    Unlink(next, prev, order, j);
    var b := order[j];
    LinkFront(next[prev[b] := next[b]], prev[next[b] := prev[b]], Remove(order, j), b);
  }

  lemma FrontFull(order: seq<nat>, j: nat)
    requires Full(order) && j < |order|
    ensures Full(Front(order, j))
  {
    forall i | 0 <= i < NBUF ensures i in Front(order, j) {
      assert i in order;
      var k :| 0 <= k < |order| && order[k] == i;
      assert k < j ==> Front(order, j)[k + 1] == i;
      assert k > j ==> Front(order, j)[k] == i;
      assert k == j ==> Front(order, j)[0] == i;
    }
  }

  /** Buffer i is idle and every buffer used less recently is in use. */
  ghost predicate LastIdle(buf: seq<Buf>, order: seq<nat>, i: nat)
    requires |buf| == NBUF && forall j :: 0 <= j < |order| ==> order[j] < NBUF
  {
    exists j :: 0 <= j < |order| && order[j] == i && buf[i].refcnt == 0
                && forall k :: j < k < |order| ==> buf[order[k]].refcnt > 0
  }

  /** Buffer i is the block's own, or it is idle and the block has none. */
  ghost predicate Usable(buf: seq<Buf>, i: nat, blockno: nat)
    requires |buf| == NBUF
  {
    && i < NBUF
    && (buf[i].Is(ROOTDEV, blockno)
        || (buf[i].refcnt == 0 && forall k :: 0 <= k < NBUF ==> !buf[k].Is(ROOTDEV, blockno)))
  }

  lemma NoneOnList(buf: seq<Buf>, order: seq<nat>, dev: nat, blockno: nat)
    requires |buf| == NBUF && Full(order) && forall j :: 0 <= j < |order| ==> order[j] < NBUF
    requires forall k :: 0 <= k < NBUF ==> !buf[order[k]].Is(dev, blockno)
    ensures forall i :: 0 <= i < NBUF ==> !buf[i].Is(dev, blockno)
  {
    forall i | 0 <= i < NBUF ensures !buf[i].Is(dev, blockno) {
      assert i in order;
    }
  }

  lemma PinsAreUsed(v: Cached)
    requires Inv(v)
    ensures forall i :: i in v.pinned ==> i < |v.buf| == NBUF && v.buf[i].refcnt > 0
  {
    forall i | i in v.pinned ensures v.buf[i].refcnt > 0 {
      assert Counted(v, i);
    }
  }

  /** Getting a buffer and, as nobody has it, locking it. */
  lemma GetAndLock(v: Cached, p: nat, i: nat, b: nat)
    requires Inv(v) && Enabled(v, Get(p, i, b)) && (v.buf[i].Is(ROOTDEV, b) ==> v.buf[i].owner == None)
    ensures Usable(v.buf, i, b) && |v.buf| == NBUF && i !in v.dirty
    ensures
      var v1 := Step(v, Get(p, i, b));
      && Enabled(v1, Lock(p, i))
      && var v2 := Step(v1, Lock(p, i));
      && v2.disk == v.disk && v2.logical == v.logical && v2.dirty == v.dirty && v2.pinned == v.pinned
      && v2.waiting == v.waiting
      && v2.buf == v.buf[i := v2.buf[i]] && v2.buf[i].Is(ROOTDEV, b)
      && v2.buf[i].owner == Some(p) && v2.buf[i].refcnt == v.buf[i].refcnt + 1
  {
    assert Counted(v, i);
    var v2 := Step(Step(v, Get(p, i, b)), Lock(p, i));
    assert v2.waiting[i] == v.waiting[i];
  }

  class Cache {
    var disk: Disk
    var buf: seq<Buf>
    var next: seq<nat>
    var prev: seq<nat>

    ghost var trace: seq<Disk>         // every state the disk has been in
    ghost var order: seq<nat>          // the list, most recently used first
    ghost var logical: Disk
    ghost var dirty: set<nat>
    ghost var pinned: set<nat>
    ghost var waiting: seq<set<nat>>

    ghost function View(): Cached
      reads this
    {
      Cached(disk, logical, buf, dirty, pinned, waiting)
    }

    ghost predicate Valid()
      reads this
    {
      && Ring(next, prev, order) && Full(order)
      && Inv(View())
      && trace != [] && trace[|trace| - 1] == disk
    }

    /** binit, over the disk found at boot. */
    constructor (d: Disk)
      ensures Valid() && Fresh(View()) && disk == d && trace == [d]
    {
      var blank := Buf(false, 0, 0, None, 0, seq(WORDS, _ => 0));
      disk, logical, trace := d, d, [d];
      dirty, pinned := {}, {};
      buf := seq(NBUF, _ => blank);
      waiting := seq(NBUF, _ => {});
      next := seq(NBUF + 1, _ => NBUF);
      prev := seq(NBUF + 1, _ => NBUF);
      order := [];
      new;
      hide Inv;
      ghost var v := View();
      FreshInv(v);
      for b := 0 to NBUF
        invariant Ring(next, prev, order) && |order| == b
        invariant forall j :: 0 <= j < b ==> order[j] == b - 1 - j
        invariant View() == v && disk == d && trace == [d]
      {
        LinkFront(next, prev, order, b);
        next, prev := next[b := next[NBUF]], prev[b := NBUF];
        next, prev := next[NBUF := b], prev[next[NBUF] := b];
        order := [b] + order;
      }
      forall i | 0 <= i < NBUF ensures i in order {
        assert order[NBUF - 1 - i] == i;
      }
    }

    /** bget's first loop, from the most recently used buffer on. */
    method FindCached(dev: nat, blockno: nat) returns (b: nat)
      requires Valid()
      ensures b <= NBUF
      ensures b < NBUF ==> buf[b].Is(dev, blockno)
      ensures b == NBUF ==> forall i :: 0 <= i < NBUF ==> !buf[i].Is(dev, blockno)
    {
      b := next[NBUF];
      ghost var j := 0;
      assert next[Cycle(order)[0]] == After(order, 0);
      while b != NBUF
        invariant j <= NBUF && b == After(order, j)
        invariant forall k :: 0 <= k < j ==> !buf[order[k]].Is(dev, blockno)
        decreases NBUF - j
      {
        if buf[b].Is(dev, blockno) {
          return;
        }
        assert Cycle(order)[j + 1] == b;
        b, j := next[b], j + 1;
      }
      NoneOnList(buf, order, dev, blockno);
    }

    /** bget's second loop, from the least recently used buffer on. */
    method FindIdle() returns (b: nat)
      requires Valid()
      ensures b <= NBUF
      ensures b < NBUF ==> LastIdle(buf, order, b)
      ensures b == NBUF ==> forall i :: 0 <= i < NBUF ==> buf[i].refcnt > 0
    {
      b := prev[NBUF];
      ghost var j := NBUF;
      assert prev[After(order, NBUF)] == Cycle(order)[NBUF];
      while b != NBUF
        invariant 0 <= j <= NBUF && b == Cycle(order)[j]
        invariant forall k :: j <= k < NBUF ==> buf[order[k]].refcnt > 0
        decreases j
      {
        assert b == order[j - 1];
        if buf[b].refcnt == 0 {
          return;
        }
        assert After(order, j - 1) == b;
        b, j := prev[b], j - 1;
      }
      forall i | 0 <= i < NBUF ensures buf[i].refcnt > 0 {
        assert i in order;
      }
    }

    /** bget up to the sleep lock: process p gets in line for the block's buffer, or
        for the least recently used idle one. None is the "no buffers" panic: the block
        is not cached and every buffer is in use. */
    method Bget(p: nat, dev: nat, blockno: nat) returns (r: Option<nat>)
      requires Valid() && dev == ROOTDEV && blockno < |disk|
      requires forall i :: 0 <= i < NBUF ==> p !in waiting[i]
      modifies this`buf, this`waiting
      ensures Valid()
      ensures r.None? <==> forall i :: 0 <= i < NBUF ==> !old(buf)[i].Is(dev, blockno) && old(buf)[i].refcnt > 0
      ensures r.None? ==> View() == old(View())
      ensures r.Some? ==>
                && Enabled(old(View()), Get(p, r.value, blockno))
                && View() == Step(old(View()), Get(p, r.value, blockno))
                && (old(buf)[r.value].Is(dev, blockno) || LastIdle(old(buf), order, r.value))
    {
      var b := FindCached(dev, blockno);
      if b < NBUF {
        StepKeepsInv(View(), Get(p, b, blockno));
        buf := buf[b := buf[b].(refcnt := buf[b].refcnt + 1)];
        waiting := waiting[b := waiting[b] + {p}];
        return Some(b);
      }
      b := FindIdle();
      if b < NBUF {
        StepKeepsInv(View(), Get(p, b, blockno));
        buf := buf[b := buf[b].(valid := false, dev := dev, blockno := blockno, refcnt := 1)];
        waiting := waiting[b := waiting[b] + {p}];
        return Some(b);
      }
      return None;
    }

    /** acquiresleep, at the moment the lock is free. */
    method Acquire(p: nat, i: nat)
      requires Valid() && Enabled(View(), Lock(p, i))
      modifies this`buf, this`waiting
      ensures Valid() && View() == Step(old(View()), Lock(p, i))
    {
      StepKeepsInv(View(), Lock(p, i));
      buf := buf[i := buf[i].(owner := Some(p))];
      waiting := waiting[i := waiting[i] - {p}];
    }

    /** The rest of bread: read the block from the disk unless it is already here. */
    method ReadIn(p: nat, i: nat)
      requires Valid() && i < NBUF && buf[i].owner == Some(p)
      modifies this`buf
      ensures Valid()
      ensures if old(buf)[i].valid then View() == old(View())
              else Enabled(old(View()), Fill(p, i)) && View() == Step(old(View()), Fill(p, i))
      ensures buf[i].valid && buf[i].blockno < |disk|
      ensures buf == old(buf)[i := old(buf)[i].(valid := true, data := buf[i].data)]
      ensures i !in dirty ==> buf[i].data == logical[buf[i].blockno]
    {
      assert Counted(View(), i) && Coherent(View(), i);
      if !buf[i].valid {
        StepKeepsInv(View(), Fill(p, i));
        buf := buf[i := buf[i].(data := disk[buf[i].blockno], valid := true)];
        assert Coherent(View(), i);
      }
    }

    /** bread, when nobody else has the block locked. */
    method Bread(p: nat, dev: nat, blockno: nat) returns (r: Option<nat>)
      requires Valid() && dev == ROOTDEV && blockno < |disk|
      requires forall i :: 0 <= i < NBUF ==> p !in waiting[i]
      requires forall i :: 0 <= i < NBUF && buf[i].Is(dev, blockno) ==> buf[i].owner == None
      modifies this`buf, this`waiting
      ensures Valid() && waiting == old(waiting)
      ensures r.None? <==> forall i :: 0 <= i < NBUF ==> !old(buf)[i].Is(dev, blockno) && old(buf)[i].refcnt > 0
      ensures r.None? ==> buf == old(buf)
      ensures r.Some? ==>
                && Usable(old(buf), r.value, blockno)
                && buf == old(buf)[r.value :=
                            Buf(true, dev, blockno, Some(p), old(buf)[r.value].refcnt + 1, logical[blockno])]
      ensures forall i :: i in pinned ==> i < NBUF && buf[i].blockno == old(buf)[i].blockno
    {
      hide Ring, Full, Inv, Step, Enabled;
      PinsAreUsed(View());
      r := Bget(p, dev, blockno);
      if r.Some? {
        var i := r.value;
        GetAndLock(old(View()), p, i, blockno);
        Acquire(p, i);
        ReadIn(p, i);
      }
    }

    /** memmove into a locked buffer. */
    method Store(p: nat, i: nat, data: Block)
      requires Valid() && Enabled(View(), Change(p, i, data))
      modifies this`buf, this`dirty
      ensures Valid() && View() == Step(old(View()), Change(p, i, data))
    {
      StepKeepsInv(View(), Change(p, i, data));
      buf := buf[i := buf[i].(data := data)];
      dirty := dirty + {i};
    }

    /** bwrite; false is the panic for a buffer the caller has not locked. */
    method Bwrite(p: nat, i: nat) returns (ok: bool)
      requires Valid() && i < NBUF
      modifies this`disk, this`trace, this`logical, this`dirty
      ensures Valid() && ok == (buf[i].owner == Some(p))
      ensures !ok ==> View() == old(View()) && trace == old(trace)
      ensures ok ==> Enabled(old(View()), Write(p, i)) && View() == Step(old(View()), Write(p, i))
      ensures ok ==> trace == old(trace) + [disk]
    {
      if buf[i].owner != Some(p) {
        return false;
      }
      assert Counted(View(), i) && Coherent(View(), i);
      StepKeepsInv(View(), Write(p, i));
      disk := disk[buf[i].blockno := buf[i].data];
      logical := logical[buf[i].blockno := buf[i].data];
      dirty := dirty - {i};
      trace := trace + [disk];
      return true;
    }

    /** brelse's relinking: take buffer i out of the list and put it behind the head. */
    method MoveToFront(i: nat)
      requires Ring(next, prev, order) && Full(order) && i < NBUF
      modifies this`next, this`prev, this`order
      ensures Ring(next, prev, order) && Full(order)
      ensures exists j :: 0 <= j < |old(order)| && old(order)[j] == i && order == Front(old(order), j)
    {
      assert i in order;
      ghost var j :| 0 <= j < |order| && order[j] == i;
      MoveFront(next, prev, order, j);
      FrontFull(order, j);
      prev := prev[next[i] := prev[i]];
      next := next[prev[i] := next[i]];
      next := next[i := next[NBUF]];
      prev := prev[i := NBUF];
      prev := prev[next[NBUF] := i];
      next := next[NBUF := i];
      order := Front(order, j);
    }

    /** brelse; false is the panic for a buffer the caller has not locked. The last
        user's release moves the buffer to the front of the list. */
    method Brelse(p: nat, i: nat) returns (ok: bool)
      requires Valid() && i < NBUF && i !in dirty
      modifies this`buf, this`next, this`prev, this`order
      ensures Valid() && ok == (old(buf)[i].owner == Some(p))
      ensures !ok ==> View() == old(View()) && order == old(order)
      ensures ok ==> Enabled(old(View()), Release(p, i)) && View() == Step(old(View()), Release(p, i))
      ensures ok && buf[i].refcnt > 0 ==> order == old(order)
      ensures ok && buf[i].refcnt == 0 ==>
                exists j :: 0 <= j < |old(order)| && old(order)[j] == i && order == Front(old(order), j)
    {
      if buf[i].owner != Some(p) {
        return false;
      }
      assert Counted(View(), i);
      StepKeepsInv(View(), Release(p, i));
      buf := buf[i := buf[i].(owner := None, refcnt := buf[i].refcnt - 1)];
      if buf[i].refcnt == 0 {
        MoveToFront(i);
      }
      return true;
    }

    /** bpin, called by log_write for a block that is new to the log. */
    method Bpin(p: nat, i: nat)
      requires Valid() && Enabled(View(), LogWrite(p, i)) && i !in pinned
      modifies this`buf, this`logical, this`dirty, this`pinned
      ensures Valid() && View() == Step(old(View()), LogWrite(p, i))
    {
      StepKeepsInv(View(), LogWrite(p, i));
      logical := logical[buf[i].blockno := buf[i].data];
      dirty, pinned := dirty - {i}, pinned + {i};
      buf := buf[i := buf[i].(refcnt := buf[i].refcnt + 1)];
    }

    /** The same for a block that the log already holds: nothing to count. */
    ghost method Absorb(p: nat, i: nat)
      requires Valid() && Enabled(View(), LogWrite(p, i)) && i in pinned
      modifies this`logical, this`dirty, this`pinned
      ensures Valid() && View() == Step(old(View()), LogWrite(p, i))
    {
      StepKeepsInv(View(), LogWrite(p, i));
      logical := logical[buf[i].blockno := buf[i].data];
      dirty, pinned := dirty - {i}, pinned + {i};
    }

    /** bunpin, called by install_trans once the block is on the disk. */
    method Bunpin(p: nat, i: nat)
      requires Valid() && Enabled(View(), Unpin(p, i))
      modifies this`buf, this`pinned
      ensures Valid() && View() == Step(old(View()), Unpin(p, i))
    {
      StepKeepsInv(View(), Unpin(p, i));
      buf := buf[i := buf[i].(refcnt := buf[i].refcnt - 1)];
      pinned := pinned - {i};
    }
  }
}
