/** The code of the log over the buffer cache. Each piece is proved to be the
    corresponding step of LogMachine, so what holds of that machine holds here. */
module Log {
  import opened LogDisk
  import opened Wrappers
  import LM = LogMachine
  import CM = CacheMachine
  import opened BufferCache

  /** Exactly the listed blocks are pinned, one buffer each. */
  ghost predicate PinsFor(v: CM.Cached, blocks: seq<Word>) {
    && |v.buf| == CM.NBUF && |v.pinned| == |blocks|
    && (forall i :: i in v.pinned ==> i < CM.NBUF && v.buf[i].blockno in blocks)
    && forall t :: 0 <= t < |blocks| ==> PinnedFor(v, blocks[t])
  }

  ghost predicate PinnedFor(v: CM.Cached, b: Word) {
    |v.buf| == CM.NBUF && exists i :: i in v.pinned && i < CM.NBUF && v.buf[i].blockno == b
  }

  /** No process has or wants a buffer. */
  ghost predicate Quiet(v: CM.Cached) {
    && |v.buf| == |v.waiting| == CM.NBUF && v.dirty == {}
    && forall i :: 0 <= i < CM.NBUF ==> v.buf[i].owner == None && v.waiting[i] == {}
  }

  /** Process p is in line for no buffer, and nobody has block b locked. */
  ghost predicate Unlocked(v: CM.Cached, p: nat, b: nat) {
    && |v.buf| == |v.waiting| == CM.NBUF
    && (forall i :: 0 <= i < CM.NBUF ==> p !in v.waiting[i])
    && forall i :: 0 <= i < CM.NBUF && v.buf[i].Is(CM.ROOTDEV, b) ==> v.buf[i].owner == None
  }

  /** Nobody has the log's header, one of its first |lh| slots or a logged block locked.
      All other buffers may be in anybody's hands. */
  ghost predicate Ready(v: CM.Cached, p: nat, g: Geometry, lh: seq<Word>) {
    && (forall b: nat :: g.start <= b <= g.start + |lh| ==> Unlocked(v, p, b))
    && forall t :: 0 <= t < |lh| ==> Unlocked(v, p, lh[t])
  }

  lemma ReadyAt(v: CM.Cached, p: nat, g: Geometry, lh: seq<Word>, t: nat)
    requires Ready(v, p, g, lh) && t < |lh|
    ensures Unlocked(v, p, lh[t]) && Unlocked(v, p, g.Slot(t))
  {
  }

  lemma QuietReady(v: CM.Cached, p: nat, g: Geometry, lh: seq<Word>)
    requires Quiet(v)
    ensures Ready(v, p, g, lh)
  {
  }

  // ---------- when a block can be read ----------

  /** The block is cached or some buffer is idle: otherwise bget panics. */
  ghost predicate CanRead(buf: seq<CM.Buf>, b: nat)
    requires |buf| == CM.NBUF
  {
    exists i: nat :: i < CM.NBUF && (buf[i].Is(CM.ROOTDEV, b) || buf[i].refcnt == 0)
  }

  ghost predicate InUse(buf: seq<CM.Buf>, b: nat)
    requires |buf| == CM.NBUF
  {
    exists i: nat :: i < CM.NBUF && buf[i].Is(CM.ROOTDEV, b) && buf[i].refcnt > 0
  }

  ghost predicate TwoIdle(buf: seq<CM.Buf>)
    requires |buf| == CM.NBUF
  {
    exists i: nat, j: nat :: i < j < CM.NBUF && buf[i].refcnt == 0 && buf[j].refcnt == 0
  }

  /** Header and slots can be read, each by itself: what a commit of n blocks needs. */
  ghost predicate Room(buf: seq<CM.Buf>, g: Geometry, n: nat)
    requires |buf| == CM.NBUF
  {
    CanRead(buf, g.start) && SlotRoom(buf, g, n)
  }

  ghost predicate SlotRoom(buf: seq<CM.Buf>, g: Geometry, n: nat)
    requires |buf| == CM.NBUF
  {
    forall t: nat :: t < n ==> CanRead(buf, g.Slot(t))
  }

  lemma PinnedInUse(v: CM.Cached, b: Word)
    requires CM.Inv(v) && PinnedFor(v, b)
    ensures InUse(v.buf, b)
  {
    var i: nat :| i in v.pinned && i < CM.NBUF && v.buf[i].blockno == b;
    assert CM.Coherent(v, i) && CM.Counted(v, i);
  }

  /** What other processes notice of a buffer: it keeps its owner, an owned buffer is as
      it was, and one still in use keeps its block. */
  predicate KeptAt(b: CM.Buf, b': CM.Buf) {
    && b'.owner == b.owner && (b.owner.Some? ==> b' == b)
    && b'.refcnt <= b.refcnt && (b'.refcnt > 0 ==> b'.Is(b.dev, b.blockno))
  }

  ghost predicate Kept(v: CM.Cached, v': CM.Cached) {
    && |v.buf| == |v'.buf| == CM.NBUF && v'.waiting == v.waiting && v'.dirty == v.dirty
    && forall i :: 0 <= i < CM.NBUF ==> KeptAt(v.buf[i], v'.buf[i])
  }

  lemma KeptOn(v: CM.Cached, v': CM.Cached, v'': CM.Cached)
    requires Kept(v, v') && Kept(v', v'')
    ensures Kept(v, v'')
  {
    forall i | 0 <= i < CM.NBUF ensures KeptAt(v.buf[i], v''.buf[i]) {
      assert KeptAt(v.buf[i], v'.buf[i]) && KeptAt(v'.buf[i], v''.buf[i]);
    }
  }

  lemma KeptReady(v: CM.Cached, v': CM.Cached, p: nat, g: Geometry, lh: seq<Word>)
    requires Kept(v, v') && Ready(v, p, g, lh)
    ensures Ready(v', p, g, lh)
  {
    forall b: nat | Unlocked(v, p, b) ensures Unlocked(v', p, b) {
      forall i | 0 <= i < CM.NBUF && v'.buf[i].Is(CM.ROOTDEV, b) ensures v'.buf[i].owner == None {
        assert KeptAt(v.buf[i], v'.buf[i]);
      }
    }
  }

  /** A block that could be read still can. */
  lemma KeptCanRead(v: CM.Cached, v': CM.Cached, b: nat)
    requires Kept(v, v') && CanRead(v.buf, b)
    ensures CanRead(v'.buf, b)
  {
    var i: nat :| i < CM.NBUF && (v.buf[i].Is(CM.ROOTDEV, b) || v.buf[i].refcnt == 0);
    assert KeptAt(v.buf[i], v'.buf[i]);
  }

  lemma KeptTwoIdle(v: CM.Cached, v': CM.Cached)
    requires Kept(v, v') && TwoIdle(v.buf)
    ensures TwoIdle(v'.buf)
  {
    var i: nat, j: nat :| i < j < CM.NBUF && v.buf[i].refcnt == 0 && v.buf[j].refcnt == 0;
    assert KeptAt(v.buf[i], v'.buf[i]) && KeptAt(v.buf[j], v'.buf[j]);
  }

  /** While the pins stay, a block that could not be read still cannot. */
  lemma KeptCannotRead(v: CM.Cached, v': CM.Cached, b: nat)
    requires CM.Inv(v) && CM.Inv(v') && Kept(v, v') && v'.pinned == v.pinned && CanRead(v'.buf, b)
    ensures CanRead(v.buf, b)
  {
    var i: nat :| i < CM.NBUF && (v'.buf[i].Is(CM.ROOTDEV, b) || v'.buf[i].refcnt == 0);
    assert KeptAt(v.buf[i], v'.buf[i]) && CM.Counted(v, i) && CM.Counted(v', i);
  }

  lemma SameCanRead(v: CM.Cached, v': CM.Cached, b: nat)
    requires CM.Inv(v) && CM.Inv(v') && Kept(v, v') && v'.pinned == v.pinned
    ensures CanRead(v.buf, b) <==> CanRead(v'.buf, b)
  {
    hide CanRead;
    if CanRead(v.buf, b) {
      KeptCanRead(v, v', b);
    }
    if CanRead(v'.buf, b) {
      KeptCannotRead(v, v', b);
    }
  }

  lemma KeptSlotRoom(v: CM.Cached, v': CM.Cached, g: Geometry, n: nat)
    requires Kept(v, v') && SlotRoom(v.buf, g, n)
    ensures SlotRoom(v'.buf, g, n)
  {
    hide CanRead;
    forall t: nat | t < n ensures CanRead(v'.buf, g.Slot(t)) {
      KeptCanRead(v, v', g.Slot(t));
    }
  }

  lemma KeptSelf(v: CM.Cached)
    requires CM.Inv(v)
    ensures Kept(v, v)
  {
  }

  lemma KeptQuiet(v: CM.Cached, v': CM.Cached)
    requires Kept(v, v') && Quiet(v)
    ensures Quiet(v')
  {
    forall i | 0 <= i < CM.NBUF ensures v'.buf[i].owner == None {
      assert KeptAt(v.buf[i], v'.buf[i]);
    }
  }

  // ---------- a cache that nobody else uses ----------

  lemma QuietRefcnt(v: CM.Cached, i: nat)
    requires CM.Inv(v) && Quiet(v) && i < CM.NBUF
    ensures v.buf[i].refcnt == if i in v.pinned then 1 else 0
  {
    assert CM.Counted(v, i);
  }

  lemma {:induction false} AllIn(a: set<nat>, n: nat)
    requires forall i: nat :: i < n ==> i in a
    ensures |a| >= n
  {
    if n > 0 {
      AllIn(a - {n - 1}, n - 1);
      assert a == (a - {n - 1}) + {n - 1};
    }
  }

  lemma {:induction false} Pigeonhole(a: set<nat>, n: nat)
    requires forall i :: i in a ==> i < n
    ensures |a| <= n
    ensures |a| == n ==> forall i: nat :: i < n ==> i in a
  {
    if n > 0 {
      Pigeonhole(a - {n - 1}, n - 1);
      assert n - 1 in a ==> a == (a - {n - 1}) + {n - 1};
      assert n - 1 !in a ==> a == a - {n - 1};
    }
  }

  /** While fewer than NBUF blocks are pinned, any block can be read. */
  lemma QuietCanRead(v: CM.Cached, b: nat)
    requires CM.Inv(v) && Quiet(v) && |v.pinned| < CM.NBUF
    ensures CanRead(v.buf, b)
  {
    if forall i: nat :: i < CM.NBUF ==> i in v.pinned {
      AllIn(v.pinned, CM.NBUF);
    }
    var i: nat :| i < CM.NBUF && i !in v.pinned;
    QuietRefcnt(v, i);
  }

  /** With nobody else in the cache, a commit finds room exactly when the logged blocks
      do not fill the cache. */
  lemma QuietRoom(g: Geometry, v: CM.Cached, lh: seq<Word>)
    requires CM.Inv(v) && Quiet(v) && g.Fits(lh) && PinsFor(v, lh) && lh != []
    ensures Room(v.buf, g, |lh|) <==> |lh| < CM.NBUF
  {
    if |lh| < CM.NBUF {
      forall b: nat ensures CanRead(v.buf, b) {
        QuietCanRead(v, b);
      }
    } else {
      Pigeonhole(v.pinned, CM.NBUF);
      forall i: nat | i < CM.NBUF ensures v.buf[i].refcnt == 1 && v.buf[i].blockno in lh {
        QuietRefcnt(v, i);
      }
      assert !CanRead(v.buf, g.Slot(0));
    }
  }

  /** With nothing pinned either, there is room for everything. */
  lemma QuietIdle(v: CM.Cached, b: nat)
    requires CM.Inv(v) && Quiet(v) && v.pinned == {}
    ensures TwoIdle(v.buf) && CanRead(v.buf, b)
  {
    QuietRefcnt(v, 0);
    QuietRefcnt(v, 1);
  }

  // ---------- copying a block ----------

  /** Before block b was read into buffer i, the buffer was b's own or idle. */
  predicate Taken(buf: seq<CM.Buf>, i: nat, b: nat) {
    i < |buf| && (buf[i].Is(CM.ROOTDEV, b) || buf[i].refcnt == 0)
  }

  lemma TakenIsFree(v: CM.Cached, p: nat, i: nat, b: nat)
    requires CM.Inv(v) && Unlocked(v, p, b) && Taken(v.buf, i, b)
    ensures v.buf[i].owner == None && i !in v.dirty
  {
    assert CM.Counted(v, i);
  }

  function Held(p: nat, b: nat, refcnt: nat, data: Block): CM.Buf {
    CM.Buf(true, CM.ROOTDEV, b, Some(p), refcnt, data)
  }

  predicate ElseSame(a: seq<CM.Buf>, b: seq<CM.Buf>, s: nat, d: nat) {
    |a| == |b| && s < |a| && d < |a| && forall i :: 0 <= i < |a| && i != s && i != d ==> a[i] == b[i]
  }

  /** Reading the slot into buffer s leaves room for the home block. */
  lemma SecondRead(buf: seq<CM.Buf>, s: nat, h: CM.Buf, slot: nat, home: nat)
    requires |buf| == CM.NBUF && Usable(buf, s, slot) && slot != home
    ensures InUse(buf, home) || TwoIdle(buf) ==> CanRead(buf[s := h], home)
  {
    if InUse(buf, home) {
      var i: nat :| i < CM.NBUF && buf[i].Is(CM.ROOTDEV, home) && buf[i].refcnt > 0;
      assert buf[s := h][i] == buf[i];
    } else if TwoIdle(buf) {
      var i: nat, j: nat :| i < j < CM.NBUF && buf[i].refcnt == 0 && buf[j].refcnt == 0;
      assert buf[s := h][if s == i then j else i].refcnt == 0;
    }
  }

  /** Two blocks read one after the other. */
  method ReadTwo(c: Cache, p: nat, slot: nat, home: nat) returns (ok: bool, s: nat, d: nat)
    requires c.Valid() && slot < |c.disk| && home < |c.disk| && slot != home
    requires Unlocked(c.View(), p, slot) && Unlocked(c.View(), p, home)
    modifies c`buf, c`waiting
    ensures c.Valid() && c.waiting == old(c.waiting)
    ensures ok ==>
              && s != d && Taken(old(c.buf), s, slot) && Taken(old(c.buf), d, home)
              && ElseSame(old(c.buf), c.buf, s, d)
              && c.buf[s] == Held(p, slot, old(c.buf)[s].refcnt + 1, c.logical[slot])
              && c.buf[d] == Held(p, home, old(c.buf)[d].refcnt + 1, c.logical[home])
    ensures forall i :: i in c.pinned ==> i < CM.NBUF && c.buf[i].blockno == old(c.buf)[i].blockno
    ensures InUse(old(c.buf), home) ==> (ok <==> CanRead(old(c.buf), slot))
    ensures TwoIdle(old(c.buf)) ==> ok
  {
    hide Ring, Full, CM.Inv;
    ok, s, d := false, 0, 0;
    HasShape(c.View());
    assert TwoIdle(c.buf) ==> CanRead(c.buf, slot);
    var rs := c.Bread(p, CM.ROOTDEV, slot);
    if rs.None? {
      return;
    }
    s := rs.value;
    SecondRead(old(c.buf), s, c.buf[s], slot, home);
    var rd := c.Bread(p, CM.ROOTDEV, home);
    if rd.None? {
      return;
    }
    ok, d := true, rd.value;
  }

  method StoreAndWrite(c: Cache, p: nat, d: nat, data: Block)
    requires c.Valid() && d < CM.NBUF && c.buf[d].owner == Some(p) && c.buf[d].valid && c.buf[d].blockno < |c.disk|
    modifies c`buf, c`dirty, c`disk, c`logical, c`trace
    ensures c.Valid() && c.dirty == old(c.dirty) - {d}
    ensures c.buf == old(c.buf)[d := old(c.buf)[d].(data := data)]
    ensures c.disk == old(c.disk)[c.buf[d].blockno := data] && c.trace == old(c.trace) + [c.disk]
    ensures c.logical == old(c.logical)[c.buf[d].blockno := data]
  {
    c.Store(p, d, data);
    var w := c.Bwrite(p, d);
  }

  function Freed(b: CM.Buf): CM.Buf
    requires b.refcnt > 0
  {
    b.(owner := None, refcnt := b.refcnt - 1)
  }

  method ReleaseTwo(c: Cache, p: nat, s: nat, d: nat)
    requires c.Valid() && s < CM.NBUF && d < CM.NBUF && s != d && s !in c.dirty && d !in c.dirty
    requires c.buf[s].owner == c.buf[d].owner == Some(p)
    modifies c`buf, c`next, c`prev, c`order
    ensures c.Valid()
    ensures old(c.buf)[s].refcnt > 0 && old(c.buf)[d].refcnt > 0
    ensures ElseSame(old(c.buf), c.buf, s, d)
    ensures c.buf[s] == Freed(old(c.buf)[s]) && c.buf[d] == Freed(old(c.buf)[d])
  {
    assert CM.Counted(c.View(), s) && CM.Counted(c.View(), d);
    var r1 := c.Brelse(p, s);
    var r2 := c.Brelse(p, d);
  }

  /** The first half of a block copy: read slot and home block, copy, write the one
      that is the destination. */
  method CopyHeld(c: Cache, p: nat, slot: nat, home: nat, toLog: bool) returns (ok: bool, s: nat, d: nat)
    requires c.Valid() && slot < |c.disk| && home < |c.disk| && slot != home
    requires Unlocked(c.View(), p, slot) && Unlocked(c.View(), p, home)
    modifies c`buf, c`waiting, c`dirty, c`disk, c`logical, c`trace
    ensures c.Valid() && c.waiting == old(c.waiting) && c.dirty == old(c.dirty)
    ensures ok ==>
              && s != d && ElseSame(old(c.buf), c.buf, s, d) && s !in c.dirty && d !in c.dirty
              && GotFrom(old(c.buf), c.buf, p, s, slot) && GotFrom(old(c.buf), c.buf, p, d, home)
    ensures ok ==> Copied(old(c.View()), c.View(), old(c.trace), c.trace, slot, home, toLog)
    ensures forall i :: i in c.pinned ==> i < CM.NBUF && c.buf[i].blockno == old(c.buf)[i].blockno
    ensures InUse(old(c.buf), home) ==> (ok <==> CanRead(old(c.buf), slot))
    ensures TwoIdle(old(c.buf)) ==> ok
  {
    hide Ring, Full, CM.Inv, InUse, CanRead, TwoIdle;
    HasShape(c.View());
    ok, s, d := ReadTwo(c, p, slot, home);
    if ok {
      TakenIsFree(old(c.View()), p, s, slot);
      TakenIsFree(old(c.View()), p, d, home);
      if toLog {
        StoreAndWrite(c, p, s, c.buf[d].data);
      } else {
        StoreAndWrite(c, p, d, c.buf[s].data);
      }
    }
  }

  /** Buffer i, free before, now holds block b and is locked by p. */
  predicate GotFrom(was: seq<CM.Buf>, buf: seq<CM.Buf>, p: nat, i: nat, b: nat) {
    && |buf| == |was| && Taken(was, i, b) && was[i].owner == None
    && buf[i].Is(CM.ROOTDEV, b) && buf[i].owner == Some(p) && buf[i].refcnt == was[i].refcnt + 1
  }

  /** One disk write: a home block to its slot, or back. */
  ghost predicate Copied(v: CM.Cached, v': CM.Cached, t: seq<Disk>, t': seq<Disk>, slot: nat, home: nat, toLog: bool) {
    && slot < |v.disk| == |v.logical| && home < |v.disk|
    && (var src, dst := if toLog then home else slot, if toLog then slot else home;
        && v'.disk == v.disk[dst := v.logical[src]]
        && v'.logical == v.logical[dst := v.logical[src]])
    && t' == t + [v'.disk]
  }

  /** One block copied through the cache, as in write_log (toLog) and install_trans: read
      slot and home block, copy, write the destination (dropping its pin), release both,
      the source first. False is the "no buffers" panic. */
  method CopyThrough(c: Cache, p: nat, slot: nat, home: nat, toLog: bool, unpin: bool) returns (ok: bool)
    requires c.Valid() && slot < |c.disk| && home < |c.disk| && slot != home
    requires Unlocked(c.View(), p, slot) && Unlocked(c.View(), p, home)
    requires unpin ==> !toLog && home <= 0xffff_ffff && PinnedFor(c.View(), home)
    modifies c
    ensures c.Valid()
    ensures ok ==> Copied(old(c.View()), c.View(), old(c.trace), c.trace, slot, home, toLog)
    ensures ok ==> UnpinnedBy(old(c.View()), c.pinned, home, unpin)
    ensures ok ==> SameBlocks(old(c.View()), c.View()) && Kept(old(c.View()), c.View())
    ensures InUse(old(c.buf), home) ==> (ok <==> CanRead(old(c.buf), slot))
    ensures TwoIdle(old(c.buf)) ==> ok
  {
    hide Ring, Full, CM.Inv, InUse, CanRead, TwoIdle, Unlocked;
    HasShape(c.View());
    var s, d;
    ok, s, d := CopyHeld(c, p, slot, home, toLog);
    if ok {
      if unpin {
        PinnedOnce(old(c.View()), c.View(), home, d);
        c.Bunpin(p, d);
      }
      ReleaseTwo(c, p, if toLog then d else s, if toLog then s else d);
    }
  }

  /** Buffers that are still pinned hold the same blocks as before. */
  ghost predicate SameBlocks(v: CM.Cached, v': CM.Cached) {
    && |v.buf| == |v'.buf| == CM.NBUF
    && forall i :: i in v'.pinned ==> i < CM.NBUF && v'.buf[i].blockno == v.buf[i].blockno
  }

  /** The pins that are left: all of them, or all but that of block dst. */
  ghost predicate UnpinnedBy(v: CM.Cached, pins: set<nat>, dst: nat, unpin: bool) {
    if unpin
    then
      && |v.buf| == CM.NBUF
      && exists i :: i in v.pinned && i < CM.NBUF && v.buf[i].blockno == dst && pins == v.pinned - {i}
    else pins == v.pinned
  }

  /** The buffer found for a pinned block is the pinned one. */
  lemma PinnedOnce(v: CM.Cached, v': CM.Cached, b: nat, d: nat)
    requires CM.Inv(v) && CM.Inv(v') && b <= 0xffff_ffff && PinnedFor(v, b) && v'.pinned == v.pinned
    requires d < CM.NBUF && Taken(v.buf, d, b) && v'.buf[d].Is(CM.ROOTDEV, b)
    requires forall i :: i in v.pinned && i != d ==> v'.buf[i].blockno == v.buf[i].blockno
    ensures d in v.pinned && v.buf[d].blockno == b && v'.buf[d].refcnt > 0
  {
    var i :| i in v.pinned && i < CM.NBUF && v.buf[i].blockno == b;
    assert CM.Coherent(v, i) && CM.Coherent(v', i) && CM.Counted(v', i);
  }

  lemma FreshIsQuiet(v: CM.Cached)
    requires CM.Fresh(v)
    ensures Quiet(v)
  {
  }

  /** bread followed at once by brelse. */
  method ReadBlock(c: Cache, p: nat, b: nat) returns (data: Block)
    requires c.Valid() && Unlocked(c.View(), p, b) && b < |c.disk| && CanRead(c.buf, b)
    modifies c
    ensures c.Valid() && Kept(old(c.View()), c.View()) && SameBlocks(old(c.View()), c.View())
    ensures |c.logical| == |c.disk| == old(|c.disk|) && data == c.logical[b]
    ensures c.disk == old(c.disk) && c.logical == old(c.logical) && c.trace == old(c.trace) && c.pinned == old(c.pinned)
  {
    hide Ring, Full;
    var r := c.Bread(p, CM.ROOTDEV, b);
    TakenIsFree(old(c.View()), p, r.value, b);
    data := c.buf[r.value].data;
    var ok := c.Brelse(p, r.value);
  }

  lemma KeepPins(v: CM.Cached, v': CM.Cached, blocks: seq<Word>)
    requires PinsFor(v, blocks) && v'.pinned == v.pinned && SameBlocks(v, v')
    ensures PinsFor(v', blocks)
  {
    forall t | 0 <= t < |blocks| ensures PinnedFor(v', blocks[t]) {
      assert PinnedFor(v, blocks[t]);
    }
  }

  lemma PinsInRange(v: CM.Cached, blocks: seq<Word>)
    requires PinsFor(v, blocks)
    ensures |v.buf| == CM.NBUF && |v.pinned| == |blocks| && forall i :: i in v.pinned ==> i < CM.NBUF
  {
  }

  /** A logged block is pinned, and it is not a slot. */
  lemma Logged(g: Geometry, v: CM.Cached, blocks: seq<Word>, t: nat)
    requires CM.Inv(v) && g.Valid() && g.Fits(blocks) && PinsFor(v, blocks) && t < |blocks|
    ensures PinnedFor(v, blocks[t]) && InUse(v.buf, blocks[t])
    ensures g.Home(blocks[t]) && !g.Home(g.Slot(t)) && g.Slot(t) < g.size
  {
    assert PinnedFor(v, blocks[t]);
    PinnedInUse(v, blocks[t]);
  }

  lemma OnePinEach(v: CM.Cached, i: nat, j: nat)
    requires CM.Inv(v) && i in v.pinned && j in v.pinned && i != j
    ensures i < CM.NBUF && j < CM.NBUF && v.buf[i].blockno != v.buf[j].blockno
  {
    assert CM.Coherent(v, i) && CM.Coherent(v, j);
  }

  lemma DropPinLeaves(v: CM.Cached, v': CM.Cached, lh: seq<Word>, k: nat, i: nat)
    requires CM.Inv(v) && k < |lh| && PinsFor(v, lh[k..]) && SameBlocks(v, v')
    requires i in v.pinned && v.buf[i].blockno == lh[k] && v'.pinned == v.pinned - {i}
    ensures forall j :: j in v'.pinned ==> v'.buf[j].blockno in lh[k + 1..]
    ensures |v'.pinned| == |lh[k + 1..]|
  {
    hide CM.Inv;
    assert lh[k..] == [lh[k]] + lh[k + 1..];
    assert v.pinned == v'.pinned + {i};
    forall j | j in v'.pinned ensures v'.buf[j].blockno in lh[k + 1..] {
      OnePinEach(v, i, j);
    }
  }

  /** Installing entry k drops its pin and no other. */
  lemma DropPin(v: CM.Cached, v': CM.Cached, lh: seq<Word>, k: nat)
    requires CM.Inv(v) && k < |lh| && LM.NoRepeats(lh) && PinsFor(v, lh[k..])
    requires UnpinnedBy(v, v'.pinned, lh[k], true) && SameBlocks(v, v')
    ensures PinsFor(v', lh[k + 1..])
  {
    hide CM.Inv;
    var i :| i in v.pinned && i < CM.NBUF && v.buf[i].blockno == lh[k] && v'.pinned == v.pinned - {i};
    DropPinLeaves(v, v', lh, k, i);
    var rest := lh[k + 1..];
    forall t | 0 <= t < |rest| ensures PinnedFor(v', rest[t]) {
      assert rest[t] == lh[k..][t + 1] == lh[k + 1 + t];
      assert PinnedFor(v, lh[k..][t + 1]);
      var j :| j in v.pinned && j < CM.NBUF && v.buf[j].blockno == rest[t];
      assert j in v'.pinned;
    }
  }

  /** write_head on a given block: only the words of the header change. False is the
      "no buffers" panic. */
  method WriteHeadBlock(c: Cache, p: nat, start: nat, n: nat, block: seq<Word>) returns (ok: bool)
    requires c.Valid() && Unlocked(c.View(), p, start) && start < |c.disk| == |c.logical|
    requires n <= |block| == LOGSIZE
    modifies c
    ensures ok <==> CanRead(old(c.buf), start)
    ensures ok ==> c.Valid() && Kept(old(c.View()), c.View())
    ensures ok ==> c.pinned == old(c.pinned) && SameBlocks(old(c.View()), c.View())
    ensures ok ==> c.disk == old(c.disk)[start := PutHead(old(c.logical)[start], block[..n])]
    ensures ok ==> c.logical == old(c.logical)[start := PutHead(old(c.logical)[start], block[..n])]
    ensures ok ==> c.trace == old(c.trace) + [c.disk]
  {
    hide Ring, Full;
    var r := c.Bread(p, CM.ROOTDEV, start);
    if r.None? {
      return false;
    }
    TakenIsFree(old(c.View()), p, r.value, start);
    var h := c.buf[r.value].data;
    h := FillHead(h, n, block);
    WriteBack(c, p, r.value, h);
    return true;
  }

  /** Store into a locked buffer, write it to the disk and release it. */
  method WriteBack(c: Cache, p: nat, i: nat, data: Block)
    requires c.Valid() && i < CM.NBUF && c.buf[i].owner == Some(p) && c.buf[i].valid && c.buf[i].blockno < |c.disk|
    requires i !in c.dirty
    modifies c`buf, c`dirty, c`disk, c`logical, c`trace, c`next, c`prev, c`order
    ensures c.Valid() && c.dirty == old(c.dirty) && old(c.buf)[i].refcnt > 0
    ensures c.buf == old(c.buf)[i := Freed(old(c.buf)[i].(data := data))]
    ensures c.disk == old(c.disk)[c.buf[i].blockno := data] && c.trace == old(c.trace) + [c.disk]
    ensures c.logical == old(c.logical)[c.buf[i].blockno := data]
  {
    hide Ring, Full;
    assert CM.Counted(c.View(), i);
    StoreAndWrite(c, p, i, data);
    var ok := c.Brelse(p, i);
  }

  method FillHead(h: Block, n: nat, block: seq<Word>) returns (h': Block)
    requires n <= |block| == LOGSIZE
    ensures h' == PutHead(h, block[..n])
  {
    h' := h[0 := n];
    var i := 0;
    while i < n
      invariant 0 <= i <= n
      invariant h' == [n] + block[..i] + h[1 + i..]
    {
      h' := h'[1 + i := block[i]];
      i := i + 1;
    }
  }

  /** read_head's loop over the header block. */
  method CopyHead(h: Block) returns (blocks: seq<Word>)
    requires h[0] <= LOGSIZE
    ensures |blocks| == LOGSIZE && blocks[..h[0]] == HeadBlocks(h)
  {
    blocks := seq(LOGSIZE, _ => 0);
    var i := 0;
    while i < h[0]
      invariant i <= h[0] && |blocks| == LOGSIZE
      invariant blocks[..i] == HeadBlocks(h)[..i]
    {
      blocks := blocks[i := h[1 + i]];
      i := i + 1;
    }
  }

  ghost predicate AllShow(g: Geometry, disks: seq<Disk>, c: Disk) {
    forall k :: 0 <= k < |disks| ==> Shows(g, disks[k], c)
  }

  /** Entries whose home block is still pinned. */
  ghost function StillPinned(m: LM.State): seq<Word> {
    match m.phase
    case Installing(k) => if k <= |m.lh| then m.lh[k..] else []
    case Recovering(_) => []
    case _ => m.lh
  }

  lemma PinnedNow(m: LM.State)
    ensures m.phase.Copying? || m.phase.Running? || m.phase == LM.Installing(0) ==> StillPinned(m) == m.lh
    ensures m.phase == LM.Installing(|m.lh|) || m.phase.Recovering? ==> StillPinned(m) == []
  {
  }

  lemma InstallHasRoom(g: Geometry, v: CM.Cached, m: LM.State, tail: nat)
    requires CM.Inv(v) && g.Valid() && g.Fits(m.lh) && tail < |m.lh|
    requires PinsFor(v, StillPinned(m)) && (m.phase == LM.Recovering(tail) || m.phase == LM.Installing(tail))
    ensures m.phase.Installing? ==> PinnedFor(v, m.lh[tail]) && InUse(v.buf, m.lh[tail])
    ensures g.Home(m.lh[tail]) && !g.Home(g.Slot(tail)) && g.Slot(tail) < g.size
  {
    if m.phase.Installing? {
      assert PinnedFor(v, m.lh[tail..][0]);
      PinnedInUse(v, m.lh[tail]);
    }
  }

  lemma InstallPins(v: CM.Cached, v': CM.Cached, m: LM.State, m': LM.State, tail: nat)
    requires CM.Inv(v) && tail < |m.lh| && m'.lh == m.lh && PinsFor(v, StillPinned(m))
    requires SameBlocks(v, v') && UnpinnedBy(v, v'.pinned, m.lh[tail], m.phase.Installing?)
    requires || (m.phase == LM.Recovering(tail) && m'.phase == LM.Recovering(tail + 1))
             || (m.phase == LM.Installing(tail) && m'.phase == LM.Installing(tail + 1) && LM.NoRepeats(m.lh))
    ensures PinsFor(v', StillPinned(m')) && |v'.pinned| <= |v.pinned|
  {
    if m.phase.Installing? {
      DropPin(v, v', m.lh, tail);
    } else {
      KeepPins(v, v', []);
    }
  }

  /** What the disk shows: the effect of the committed writes. */
  ghost function Replayed(init: Disk, hist: seq<LM.LoggedWrite>, done: nat): Disk {
    if done <= |hist| then LM.Replay(init, hist[..done]) else init
  }

  lemma CopyMoves(g: Geometry, init: Disk, s: LM.State, s': LM.State)
    requires LM.Takes(g, s, LM.CopyBlock, s') && LM.Inv(g, init, s')
    ensures s'.hist == s.hist && s'.open == s.open && s'.nextOp == s.nextOp && s'.lh == s.lh && s'.done == s.done
    ensures s'.phase == LM.Copying(s.phase.tail + 1)
    ensures Shows(g, s'.disk, Replayed(init, s.hist, s.done))
  {
  }

  lemma InstallMoves(g: Geometry, init: Disk, s: LM.State, s': LM.State)
    requires LM.Takes(g, s, LM.InstallBlock, s') && LM.Inv(g, init, s')
    ensures s'.hist == s.hist && s'.open == s.open && s'.nextOp == s.nextOp && s'.lh == s.lh && s'.done == s.done
    ensures s'.phase == if s.phase.Installing? then LM.Installing(s.phase.tail + 1) else LM.Recovering(s.phase.tail + 1)
    ensures Shows(g, s'.disk, Replayed(init, s.hist, s.done))
  {
  }

  lemma HeadMoves(g: Geometry, init: Disk, s: LM.State, s': LM.State)
    requires LM.Takes(g, s, LM.WriteHead, s') && LM.Inv(g, init, s')
    ensures s'.hist == s.hist && s'.open == s.open && s'.lh == s.lh && s'.done == |s.hist|
    ensures s'.phase == LM.Installing(0)
    ensures Shows(g, s'.disk, Replayed(init, s.hist, |s.hist|))
  {
  }

  lemma ClearMoves(g: Geometry, init: Disk, s: LM.State, s': LM.State)
    requires LM.Takes(g, s, LM.ClearHead, s') && LM.Inv(g, init, s) && LM.Inv(g, init, s')
    ensures s'.hist == s.hist && s'.open == s.open == [] && s'.lh == [] && s'.done == s.done == |s.hist|
    ensures s'.phase == LM.Running
    ensures Shows(g, s'.disk, Replayed(init, s.hist, |s.hist|))
    ensures |s'.disk| == g.size && forall b :: g.Home(b) ==> s'.disk[b] == Replayed(init, s.hist, |s.hist|)[b]
  {
    assert s.hist[..|s.hist|] == s.hist;
  }

  lemma IdleCommitted(g: Geometry, init: Disk, s: LM.State)
    requires LM.Inv(g, init, s) && s.phase == LM.Running && s.lh == []
    ensures s.done == |s.hist|
  {
    if s.done < |s.hist| {
      LM.PendingIsLogged(s);
      assert false;
    }
  }

  lemma PinCount(v: CM.Cached, m: LM.State)
    requires PinsFor(v, StillPinned(m))
    ensures m.phase.Copying? ==> |v.pinned| == |m.lh|
    ensures m.phase.Recovering? ==> |v.pinned| == 0
  {
  }

  /** One write, some more, and one write. */
  lemma AllOfThem(g: Geometry, t1: seq<Disk>, t2: seq<Disk>, t3: seq<Disk>, t4: seq<Disk>, c: Disk)
    requires |t2| == |t1| + 1 && |t4| == |t3| + 1 && t1 <= t2 <= t3 <= t4
    requires Shows(g, t2[|t1|], c) && AllShow(g, t3[|t2|..], c) && Shows(g, t4[|t3|], c)
    ensures AllShow(g, t4[|t1|..], c)
  {
    hide Shows;
    assert t4[|t1|..] == [t2[|t1|]] + t3[|t2|..] + [t4[|t3|]];
  }

  /** A first part that shows c0, then a second that shows c1. */
  ghost predicate SwitchesOnce(g: Geometry, disks: seq<Disk>, c0: Disk, c1: Disk) {
    exists j :: 0 <= j <= |disks| && AllShow(g, disks[..j], c0) && AllShow(g, disks[j..], c1)
  }

  lemma SwitchMade(g: Geometry, a: seq<Disk>, b: seq<Disk>, c0: Disk, c1: Disk)
    requires AllShow(g, a, c0) && AllShow(g, b, c1)
    ensures SwitchesOnce(g, a + b, c0, c1)
  {
    assert (a + b)[..|a|] == a && (a + b)[|a|..] == b;
  }

  /** log_write's search for an entry to absorb into. */
  method FindBlock(block: seq<Word>, n: nat, blockno: Word) returns (k: nat)
    requires n < |block|
    ensures k <= n && (k == n <==> blockno !in block[..n])
    ensures k < n ==> block[k] == blockno
  {
    k := 0;
    while k < n
      invariant 0 <= k <= n && blockno !in block[..k]
    {
      if block[k] == blockno {
        assert block[..n][k] == blockno;
        return;
      }
      k := k + 1;
    }
  }

  /** Logging a new block pins its buffer. */
  lemma NewPin(v: CM.Cached, p: nat, i: nat, lh: seq<Word>)
    requires CM.Shape(v) && CM.Enabled(v, CM.LogWrite(p, i)) && PinsFor(v, lh)
    requires v.buf[i].blockno < 0x1_0000_0000 && v.buf[i].blockno !in lh
    ensures i !in v.pinned && PinsFor(CM.Step(v, CM.LogWrite(p, i)), lh + [v.buf[i].blockno])
  {
    var v' := CM.Step(v, CM.LogWrite(p, i));
    var lh' := lh + [v.buf[i].blockno];
    forall t | 0 <= t < |lh'| ensures PinnedFor(v', lh'[t]) {
      if t < |lh| {
        assert PinnedFor(v, lh[t]);
      } else {
        assert i in v'.pinned;
      }
    }
  }

  lemma PinnedBuffer(v: CM.Cached, i: nat, j: nat)
    requires CM.Inv(v) && i < CM.NBUF && v.buf[i].valid && j in v.pinned
    requires j < CM.NBUF && v.buf[j].blockno == v.buf[i].blockno
    ensures j == i
  {
    assert CM.Coherent(v, i) && CM.Coherent(v, j);
  }

  /** A block that is logged already has its buffer pinned. */
  lemma OldPin(v: CM.Cached, p: nat, i: nat, lh: seq<Word>)
    requires CM.Inv(v) && CM.Enabled(v, CM.LogWrite(p, i)) && PinsFor(v, lh)
    requires v.buf[i].blockno in lh
    ensures i in v.pinned && PinsFor(CM.Step(v, CM.LogWrite(p, i)), lh)
  {
    hide CM.Inv;
    HasShape(v);
    var t :| 0 <= t < |lh| && lh[t] == v.buf[i].blockno;
    assert PinnedFor(v, lh[t]);
    var j :| j in v.pinned && j < CM.NBUF && v.buf[j].blockno == lh[t];
    PinnedBuffer(v, i, j);
    var v' := CM.Step(v, CM.LogWrite(p, i));
    assert v'.pinned == v.pinned;
    KeepPins(v, v', lh);
  }

  lemma LastOut(g: Geometry, init: Disk, s: LM.State, who: nat)
    requires LM.Inv(g, init, s) && s.phase == LM.Running && who < |s.open|
    ensures !s.committing && s.outstanding == |s.open| > 0
    ensures LM.EndOpStep(s, who).Next?
    ensures
      var s' := LM.EndOpStep(s, who).state;
      && LM.Takes(g, s, LM.EndOp(who), s') && LM.Inv(g, init, s')
      && s'.hist == s.hist && s'.done == s.done && s'.lh == s.lh && s'.disk == s.disk && s'.cache == s.cache
      && s'.outstanding == s.outstanding - 1 && s'.committing == (s.outstanding == 1)
      && (s.outstanding == 1 ==> s'.open == [])
      && s'.phase == if s.outstanding > 1 || s.lh == [] then LM.Running else LM.Copying(0)
  {
    LM.EndKeepsInv(g, init, s, who);
  }

  lemma CommitOver(g: Geometry, init: Disk, s: LM.State)
    requires LM.Inv(g, init, s) && s.phase == LM.Running && s.committing
    ensures s.open == [] && LM.Inv(g, init, s.(committing := false))
  {
    LM.StepKeepsInv(g, init, s, LM.FinishCommit);
  }

  lemma HasShape(v: CM.Cached)
    requires CM.Inv(v)
    ensures CM.Shape(v)
  {
  }

  class Log {
    const g: Geometry
    const cache: Cache
    var n: nat                 // lh.n
    var block: seq<Word>       // lh.block, including stale entries from n on
    var outstanding: nat
    var committing: bool

    ghost const init: Disk     // home blocks at the start
    ghost var m: LM.State      // the machine whose steps this code takes

    ghost predicate Matches()
      reads this, cache
    {
      && m.disk == cache.disk && m.cache == cache.logical
      && |block| == LOGSIZE && n <= LOGSIZE && m.lh == block[..n]
      && m.outstanding == outstanding && m.committing == committing
    }

    ghost predicate Valid()
      reads this, cache
    {
      && cache.Valid()
      && Matches()
      && LM.Inv(g, init, m)
      && PinsFor(cache.View(), StillPinned(m))
    }

    lemma Facts()
      requires Valid()
      ensures cache.Valid() && LM.Inv(g, init, m) && PinsFor(cache.View(), StillPinned(m))
      ensures |m.lh| == n <= |block| && m.lh == block[..n] && m.disk == cache.disk && m.cache == cache.logical
    {
    }

    /** A reboot: fresh memory over the disk as the crash left it, up to read_head. */
    constructor (p: nat, d: Disk, geometry: Geometry)
      requires WellFormed(geometry, d)
      ensures fresh(cache) && Valid() && Quiet(cache.View())
      ensures g == geometry && init == Recovered(g, d) && m == LM.Start(g, d)
      ensures cache.trace == [d]
    {
      hide Ring, Full, CM.Inv, Kept, Quiet, CanRead, TwoIdle;
      g := geometry;
      init := Recovered(geometry, d);
      m := LM.Start(geometry, d);
      var c := new Cache(d);
      ghost var v := c.View();
      FreshIsQuiet(v);
      QuietIdle(c.View(), geometry.start);
      var h := ReadBlock(c, p, geometry.start);
      cache := c;
      KeptQuiet(v, c.View());
      var blocks := CopyHead(h);
      n, block := h[0], blocks;
      outstanding, committing := 0, false;
      LM.StartInv(geometry, d);
    }

    /** One round of write_log. False is the "no buffers" panic. */
    method CopyToLog(p: nat, tail: nat) returns (ok: bool)
      requires Valid() && Ready(cache.View(), p, g, block[..n]) && m.phase == LM.Copying(tail) && tail < n
      modifies this`m, cache
      ensures ok <==> CanRead(old(cache.buf), g.Slot(tail))
      ensures ok ==> Valid() && Kept(old(cache.View()), cache.View()) && cache.pinned == old(cache.pinned)
      ensures ok ==> LM.Takes(g, old(m), LM.CopyBlock, m)
      ensures ok ==> cache.trace == old(cache.trace) + [cache.disk]
    {
      hide CM.Inv, Ring, Full, LM.Inv, LM.Takes, PinsFor, PinnedFor, CanRead, InUse, TwoIdle, SameBlocks, Unlocked,
          Kept;
      hide Shows, LM.NoRepeats, StillPinned, Ready;
      ghost var s, v := m, cache.View();
      LM.Basics(g, init, s);
      PinnedNow(s);
      Logged(g, v, m.lh, tail);
      ReadyAt(v, p, g, m.lh, tail);
      ok := CopyThrough(cache, p, g.start + tail + 1, block[tail], true, false);
      if ok {
        m := LM.Bwrite(m, g.Slot(tail), m.cache[m.lh[tail]]).(phase := LM.Copying(tail + 1));
        PinnedNow(m);
        KeepPins(v, cache.View(), m.lh);
        LM.CopyTakes(g, init, s, m);
      }
    }

    /** One round of install_trans: slot `tail` goes home. */
    method CopyHome(p: nat, tail: nat, recovering: bool)
      requires Valid() && Ready(cache.View(), p, g, block[..n]) && tail < n
      requires if recovering then TwoIdle(cache.buf) else CanRead(cache.buf, g.Slot(tail))
      requires m.phase == if recovering then LM.Recovering(tail) else LM.Installing(tail)
      modifies this`m, cache
      ensures Valid() && Kept(old(cache.View()), cache.View())
      ensures LM.Takes(g, old(m), LM.InstallBlock, m)
      ensures cache.trace == old(cache.trace) + [cache.disk]
    {
      hide CM.Inv, Ring, Full, LM.Inv, LM.Takes, PinsFor, PinnedFor, CanRead, InUse, TwoIdle, SameBlocks, Unlocked,
          Kept;
      hide StillPinned, Shows, LM.NoRepeats, UnpinnedBy, Ready;
      ghost var s, v := m, cache.View();
      LM.Basics(g, init, s);
      InstallHasRoom(g, v, s, tail);
      ReadyAt(v, p, g, m.lh, tail);
      var ok := CopyThrough(cache, p, g.start + tail + 1, block[tail], false, !recovering);
      m := LM.Bwrite(m, m.lh[tail], m.cache[g.Slot(tail)])
             .(phase := if recovering then LM.Recovering(tail + 1) else LM.Installing(tail + 1));
      InstallPins(v, cache.View(), s, m, tail);
      LM.InstallTakes(g, init, s, m);
    }

    ghost predicate SameCalls(m': LM.State)
      reads this`m
    {
      m.hist == m'.hist && m.open == m'.open && m.nextOp == m'.nextOp && m.lh == m'.lh
    }

    /** write_log: copy every logged block to its slot. The disk meanwhile shows
        what it showed before. */
    method WriteLog(p: nat) returns (ok: bool)
      requires Valid() && Ready(cache.View(), p, g, block[..n]) && m.phase == LM.Copying(0) && n > 0
      modifies this`m, cache
      ensures ok <==> SlotRoom(old(cache.buf), g, n)
      ensures ok ==> Valid() && m.phase == LM.Copying(n)
      ensures ok ==> Kept(old(cache.View()), cache.View()) && cache.pinned == old(cache.pinned)
      ensures ok ==> SameCalls(old(m)) && m.done == old(m.done)
      ensures ok ==> old(cache.trace) <= cache.trace
      ensures ok ==> AllShow(g, cache.trace[|old(cache.trace)|..], Replayed(init, old(m.hist), old(m.done)))
    {
      hide CM.Inv, Ring, Full, LM.Inv, LM.Takes, Ready, CanRead, KeptAt, PinsFor, Shows, Replayed;
      var tail := 0;
      ok := true;
      KeptSelf(cache.View());
      while tail < n
        invariant 0 <= tail <= n
        invariant Valid() && m.phase == LM.Copying(tail) && Ready(cache.View(), p, g, block[..n])
        invariant Kept(old(cache.View()), cache.View()) && cache.pinned == old(cache.pinned)
        invariant SameCalls(old(m)) && m.done == old(m.done)
        invariant SlotRoom(old(cache.buf), g, tail)
        invariant old(cache.trace) <= cache.trace
        invariant AllShow(g, cache.trace[|old(cache.trace)|..], Replayed(init, old(m.hist), old(m.done)))
      {
        ghost var s, t, v := m, cache.trace, cache.View();
        SameCanRead(old(cache.View()), v, g.Slot(tail));
        ok := CopyToLog(p, tail);
        if !ok {
          return;
        }
        CopyMoves(g, init, s, m);
        KeptReady(v, cache.View(), p, g, block[..n]);
        KeptOn(old(cache.View()), v, cache.View());
        assert cache.trace[|old(cache.trace)|..] == t[|old(cache.trace)|..] + [cache.disk];
        tail := tail + 1;
      }
    }

    /** install_trans: copy every slot home. The disk shows the same throughout. */
    method InstallTrans(p: nat, recovering: bool)
      requires Valid() && Ready(cache.View(), p, g, block[..n])
      requires if recovering then TwoIdle(cache.buf) else SlotRoom(cache.buf, g, n)
      requires m.phase == if recovering then LM.Recovering(0) else LM.Installing(0)
      modifies this`m, cache
      ensures Valid() && Kept(old(cache.View()), cache.View())
      ensures m.phase == if recovering then LM.Recovering(n) else LM.Installing(n)
      ensures SameCalls(old(m)) && m.done == old(m.done)
      ensures old(cache.trace) <= cache.trace
      ensures AllShow(g, cache.trace[|old(cache.trace)|..], Replayed(init, old(m.hist), old(m.done)))
    {
      hide CM.Inv, Ring, Full, LM.Inv, LM.Takes, Ready, CanRead, TwoIdle, KeptAt, PinsFor, Shows, Replayed;
      var tail := 0;
      KeptSelf(cache.View());
      while tail < n
        invariant 0 <= tail <= n
        invariant Valid() && Ready(cache.View(), p, g, block[..n]) && Kept(old(cache.View()), cache.View())
        invariant m.phase == if recovering then LM.Recovering(tail) else LM.Installing(tail)
        invariant SameCalls(old(m)) && m.done == old(m.done)
        invariant old(cache.trace) <= cache.trace
        invariant AllShow(g, cache.trace[|old(cache.trace)|..], Replayed(init, old(m.hist), old(m.done)))
      {
        ghost var s, t, v := m, cache.trace, cache.View();
        if recovering {
          KeptTwoIdle(old(cache.View()), v);
        } else {
          KeptCanRead(old(cache.View()), v, g.Slot(tail));
        }
        CopyHome(p, tail, recovering);
        InstallMoves(g, init, s, m);
        KeptReady(v, cache.View(), p, g, block[..n]);
        KeptOn(old(cache.View()), v, cache.View());
        assert cache.trace[|old(cache.trace)|..] == t[|old(cache.trace)|..] + [cache.disk];
        tail := tail + 1;
      }
    }

    /** write_head with the entries: the commit point. False is the "no buffers" panic. */
    method CommitHead(p: nat) returns (ok: bool)
      requires Valid() && Ready(cache.View(), p, g, block[..n]) && m.phase == LM.Copying(n)
      modifies this`m, cache
      ensures ok <==> CanRead(old(cache.buf), g.start)
      ensures ok ==> Valid() && Kept(old(cache.View()), cache.View())
      ensures ok ==> LM.Takes(g, old(m), LM.WriteHead, m)
      ensures ok ==> cache.trace == old(cache.trace) + [cache.disk]
    {
      hide CM.Inv, Ring, Full, LM.Inv, LM.Takes, PinsFor, SameBlocks, Unlocked, CanRead, Kept;
      hide Shows, LM.NoRepeats, PutHead, StillPinned;
      ghost var s, v := m, cache.View();
      LM.Basics(g, init, s);
      assert Unlocked(v, p, g.start);
      ok := WriteHeadBlock(cache, p, g.start, n, block);
      if ok {
        m := LM.Bwrite(m, g.start, PutHead(m.cache[g.start], m.lh)).(phase := LM.Installing(0), done := |m.hist|);
        PinnedNow(s);
        PinnedNow(m);
        KeepPins(v, cache.View(), m.lh);
        LM.HeadTakes(g, init, s, m);
      }
    }

    /** lh.n = 0 and write_head: the log is empty again. */
    method ClearHead(p: nat)
      requires Valid() && Ready(cache.View(), p, g, block[..n]) && CanRead(cache.buf, g.start)
      requires m.phase == LM.Installing(n) || m.phase == LM.Recovering(n)
      modifies this`m, this`n, cache
      ensures Valid() && Kept(old(cache.View()), cache.View()) && n == 0
      ensures LM.Takes(g, old(m), LM.ClearHead, m)
      ensures cache.trace == old(cache.trace) + [cache.disk]
    {
      hide CM.Inv, Ring, Full, LM.Inv, LM.Takes, SameBlocks, Unlocked, CanRead, Kept, Shows, LM.NoRepeats, PutHead;
      ghost var s, v := m, cache.View();
      LM.Basics(g, init, s);
      assert StillPinned(s) == [];
      assert Unlocked(v, p, g.start);
      n := 0;
      var ok := WriteHeadBlock(cache, p, g.start, n, block);
      m := LM.Bwrite(m, g.start, PutHead(m.cache[g.start], [])).(lh := [], phase := LM.Running);
      KeepPins(v, cache.View(), []);
      LM.ClearTakes(g, init, s, m);
    }

    /** commit after write_log: everything logged shows from the first write on. */
    method CommitWritten(p: nat) returns (ok: bool)
      requires Valid() && Ready(cache.View(), p, g, block[..n]) && SlotRoom(cache.buf, g, n) && m.phase == LM.Copying(n)
      modifies this`m, this`n, cache
      ensures ok <==> CanRead(old(cache.buf), g.start)
      ensures ok ==> Valid() && Kept(old(cache.View()), cache.View())
      ensures ok ==> n == 0 && m.phase == LM.Running && m.done == |m.hist|
      ensures ok ==> m.hist == old(m.hist) && m.open == old(m.open)
      ensures ok ==> old(cache.trace) <= cache.trace
      ensures ok ==> AllShow(g, cache.trace[|old(cache.trace)|..], Replayed(init, old(m.hist), |old(m.hist)|))
    {
      hide CM.Inv, Ring, Full, LM.Inv, LM.Takes, Ready, CanRead, Kept, PinsFor, Shows, Replayed, AllShow, StillPinned;
      ghost var t1, s1, v1, lh := cache.trace, m, cache.View(), block[..n];
      ok := CommitHead(p);
      if !ok {
        return;
      }
      ghost var t2, v2 := cache.trace, cache.View();
      HeadMoves(g, init, s1, m);
      KeptReady(v1, v2, p, g, lh);
      KeptSlotRoom(v1, v2, g, n);
      InstallTrans(p, false);
      ghost var t3, s3, v3 := cache.trace, m, cache.View();
      KeptOn(v1, v2, v3);
      KeptReady(v1, v3, p, g, lh);
      KeptCanRead(v1, v3, g.start);
      ClearHead(p);
      KeptOn(v1, v3, cache.View());
      ClearMoves(g, init, s3, m);
      AllOfThem(g, t1, t2, t3, cache.trace, Replayed(init, m.hist, |m.hist|));
    }

    /** commit. A crash after any of its disk writes shows either what was there
        before or every write logged so far, and it switches once. False is the "no
        buffers" panic: a block of the log is not cached and every buffer is in use. */
    method Commit(p: nat) returns (ok: bool)
      requires Valid() && Ready(cache.View(), p, g, block[..n]) && m.committing
      requires m.phase == if n == 0 then LM.Running else LM.Copying(0)
      modifies this`m, this`n, cache
      ensures ok <==> old(n) == 0 || Room(old(cache.buf), g, old(n))
      ensures ok ==> Valid() && Kept(old(cache.View()), cache.View())
      ensures ok ==> n == 0 && m.phase == LM.Running && m.done == |m.hist|
      ensures ok ==> m.hist == old(m.hist) && m.open == old(m.open)
      ensures ok ==> old(cache.trace) <= cache.trace
      ensures ok ==> SwitchesOnce(g, cache.trace[|old(cache.trace)|..],
                                  Replayed(init, old(m.hist), old(m.done)),
                                  Replayed(init, old(m.hist), |old(m.hist)|))
    {
      hide CM.Inv, Ring, Full, LM.Inv, LM.Takes, Ready, CanRead, SlotRoom, Kept, PinsFor, Shows, Replayed, SwitchesOnce;
      ghost var c0 := Replayed(init, m.hist, m.done);
      ghost var c1 := Replayed(init, m.hist, |m.hist|);
      ghost var t0, v0, lh := cache.trace, cache.View(), block[..n];
      ok := true;
      if n == 0 {
        IdleCommitted(g, init, m);
        KeptSelf(v0);
        SwitchMade(g, [], [], c0, c1);
        assert cache.trace[|t0|..] == [] + [];
        return;
      }
      ok := WriteLog(p);
      if !ok {
        return;
      }
      ghost var t1, v1 := cache.trace, cache.View();
      KeptReady(v0, v1, p, g, lh);
      KeptSlotRoom(v0, v1, g, n);
      SameCanRead(v0, v1, g.start);
      ok := CommitWritten(p);
      if !ok {
        return;
      }
      KeptOn(v0, v1, cache.View());
      SwitchMade(g, t1[|t0|..], cache.trace[|t1|..], c0, c1);
      assert cache.trace[|t0|..] == t1[|t0|..] + cache.trace[|t1|..];
    }

    /** recover_from_log after read_head: redo what the log holds, then empty it.
        Every disk state on the way shows what the disk found at boot showed. */
    method RecoverFromLog(p: nat)
      requires Valid() && Quiet(cache.View()) && m.phase == LM.Recovering(0)
      modifies this`m, this`n, cache
      ensures Valid() && Quiet(cache.View())
      ensures n == 0 && m.phase == LM.Running && m.hist == old(m.hist) && m.open == []
      ensures |cache.disk| == g.size && forall b :: g.Home(b) ==> cache.disk[b] == Replayed(init, m.hist, |m.hist|)[b]
      ensures old(cache.trace) <= cache.trace
      ensures AllShow(g, cache.trace[|old(cache.trace)|..], Replayed(init, old(m.hist), old(m.done)))
    {
      hide CM.Inv, Ring, Full, LM.Inv, LM.Takes, Quiet, Ready, CanRead, TwoIdle, Kept, Shows, Replayed;
      ghost var t0, v0, lh := cache.trace, cache.View(), block[..n];
      assert cache.pinned == {};
      QuietIdle(v0, g.start);
      QuietReady(v0, p, g, lh);
      InstallTrans(p, true);
      ghost var t1, s1, v1 := cache.trace, m, cache.View();
      KeptReady(v0, v1, p, g, lh);
      KeptCanRead(v0, v1, g.start);
      ClearHead(p);
      KeptOn(v0, v1, cache.View());
      KeptQuiet(v0, cache.View());
      ClearMoves(g, init, s1, m);
      assert cache.trace[|t0|..] == t1[|t0|..] + [cache.disk];
    }

    /** begin_op at the moment it is not waiting; false means it has to sleep. */
    method BeginOp() returns (ok: bool)
      requires Valid() && !m.phase.Recovering?
      modifies this`m, this`outstanding
      ensures Valid()
      ensures ok <==> LM.Enabled(g, old(m), LM.BeginOp)
      ensures ok <==> !old(committing) && old(n) + 10 * (old(outstanding) + 1) <= 30
      ensures if ok then LM.Takes(g, old(m), LM.BeginOp, m) else m == old(m)
    {
      hide CM.Inv, Ring, Full, PinsFor, LM.Coherent, LM.Histories;
      if committing {
        ok := false;
      } else if n + (outstanding + 1) * MAXOPBLOCKS > LOGSIZE {
        ok := false;
      } else {
        LM.BeginKeepsInv(g, init, m);
        outstanding := outstanding + 1;
        m := LM.Step(g, m, LM.BeginOp).state;
        ok := true;
      }
    }

    /** log_write by open call number `who`. False is a panic. */
    method LogWrite(p: nat, i: nat, ghost who: nat) returns (ok: bool)
      requires Valid() && CM.Enabled(cache.View(), CM.LogWrite(p, i))
      requires LM.InBounds(g, m) && cache.buf[i].blockno < 0x1_0000_0000
      requires LM.Enabled(g, m, LM.LogWrite(who, cache.buf[i].blockno, cache.buf[i].data))
      modifies this`m, this`n, this`block, cache
      ensures Valid()
      ensures ok <==> LM.LogWriteStep(g, old(m), who, old(cache.buf[i].blockno), old(cache.buf[i].data)).Next?
      ensures cache.View() == if ok then CM.Step(old(cache.View()), CM.LogWrite(p, i)) else old(cache.View())
      ensures if ok then LM.Takes(g, old(m), LM.LogWrite(who, old(cache.buf[i].blockno), old(cache.buf[i].data)), m)
              else m == old(m)
    {
      hide CM.Inv, Ring, Full, LM.Inv, LM.Takes, LM.LogWriteStep, PinsFor, CM.Step;
      HasShape(cache.View());
      var blockno, data := cache.buf[i].blockno, cache.buf[i].data;
      LM.LogWriteTakes(g, init, m, who, blockno, data);
      if n >= LOGSIZE || n >= g.nlog - 1 || outstanding < 1 {
        return false;
      }
      Record(p, i);
      m := LM.LogWriteStep(g, m, who, blockno, data).state;
      ok := true;
    }

    /** The rest of log_write: absorb the block, or append it and pin its buffer. */
    method Record(p: nat, i: nat)
      requires cache.Valid() && CM.Enabled(cache.View(), CM.LogWrite(p, i))
      requires n < |block| && PinsFor(cache.View(), block[..n]) && cache.buf[i].blockno < 0x1_0000_0000
      modifies this`n, this`block, cache
      ensures cache.Valid() && cache.View() == CM.Step(old(cache.View()), CM.LogWrite(p, i))
      ensures |block| == old(|block|) && n <= old(n) + 1 <= |block| && PinsFor(cache.View(), block[..n])
      ensures cache.disk == old(cache.disk)
      ensures cache.logical == old(cache.logical)[old(cache.buf[i].blockno) := old(cache.buf[i].data)]
      ensures block[..n] == if old(cache.buf[i].blockno) in old(block)[..old(n)] then old(block)[..old(n)]
                            else old(block)[..old(n)] + [old(cache.buf[i].blockno)]
    {
      hide Ring, Full, CM.Inv, PinsFor;
      HasShape(cache.View());
      var blockno := cache.buf[i].blockno;
      ghost var lh, v := block[..n], cache.View();
      var k := FindBlock(block, n, blockno);
      block := block[k := blockno];
      if k == n {
        NewPin(v, p, i, lh);
        cache.Bpin(p, i);
        n := n + 1;
        assert block[..n] == lh + [blockno];
      } else {
        OldPin(v, p, i, lh);
        cache.Absorb(p, i);
        assert block[..n] == lh;
      }
    }
  
    /** end_op by open call number `who`. The last one out commits; false is the
        "no buffers" panic of its commit. */
    method EndOp(p: nat, ghost who: nat) returns (ok: bool)
      requires Valid() && m.phase == LM.Running && who < |m.open|
      requires outstanding == 1 ==> Ready(cache.View(), p, g, block[..n])
      modifies this`m, this`n, this`outstanding, this`committing, cache
      ensures ok <==> old(outstanding) > 1 || old(n) == 0 || Room(old(cache.buf), g, old(n))
      ensures ok ==> Valid() && Kept(old(cache.View()), cache.View())
      ensures ok && old(outstanding) > 1 ==> LM.Takes(g, old(m), LM.EndOp(who), m) && cache.trace == old(cache.trace)
      ensures ok && old(outstanding) == 1 ==>
                && n == 0 && outstanding == 0 && !committing
                && m.phase == LM.Running && m.open == []
                && m.hist == old(m.hist) && m.done == |m.hist|
                && old(cache.trace) <= cache.trace
                && SwitchesOnce(g, cache.trace[|old(cache.trace)|..],
                                Replayed(init, old(m.hist), old(m.done)),
                                Replayed(init, old(m.hist), |old(m.hist)|))
    {
      hide CM.Inv, Ring, Full, PinsFor, LM.Inv, LM.Takes, Ready, Room, KeptAt, Shows, Replayed, SwitchesOnce;
      LastOut(g, init, m, who);
      outstanding := outstanding - 1;
      if outstanding > 0 {
        m := LM.EndOpStep(m, who).state;
        KeptSelf(cache.View());
        return true;
      }
      committing := true;
      m := LM.EndOpStep(m, who).state;
      ok := Commit(p);
      if ok {
        committing := false;
        CommitOver(g, init, m);
        m := m.(committing := false);
      }
    }
  }
}
