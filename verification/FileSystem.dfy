/** The code of the block allocator, the block map, truncation, and reading and
    writing files. Blocks are read and written through the logical disk that the
    buffer cache and the log maintain. */
module FileSystem {
  import opened Wrappers
  import opened Bytes
  import opened FsImage
  import opened FsContents

  const BPB := 8192 // bits in a free map block
  const IPB := 16   // inodes in a block

  /** The block of the free map that holds the bit of block b. */
  function BBlock(bmapstart: nat, b: nat): nat {
    b / BPB + bmapstart
  }

  /** The block that holds inode n. */
  function IBlock(inodestart: nat, n: nat): nat {
    n / IPB + inodestart
  }

  /** The 64 bytes of inode n, and the bit of block b, lie in the block so numbered. */
  lemma MetaPlaces(inodestart: nat, n: nat, bmapstart: nat, b: nat)
    ensures
      var i := IBlock(inodestart, n) - inodestart;
      i >= 0 && 1024 * i <= 64 * n && 64 * n + 64 <= 1024 * i + 1024
    ensures
      var i := BBlock(bmapstart, b) - bmapstart;
      i >= 0 && 8 * 1024 * i <= b < 8 * (1024 * i + 1024)
  {
  }

  /** Slots other than t hold the same block numbers. */
  ghost predicate OthersSame(s: Fs, s': Fs, t: Slot) {
    s.Shape() && s'.Shape() && forall u :: s.Has(u) && u != t ==> s'.Has(u) && s'.Addr(u) == s.Addr(u)
  }

  ghost predicate AllUsed(s: Fs) {
    s.Shape() && forall c :: 0 <= c < |s.blocks| ==> s.Used(c)
  }

  lemma NoneFree(s: Fs)
    requires AllUsed(s)
    ensures s.Shape() && Free(s) == {}
  {
  }

  /** The blocks bmap logs: for a new data block its free map block, itself (zeroed)
      and the indirect block its number goes into; the same for a new indirect block. */
  ghost function MapSet(bmapstart: nat, s: Fs, s': Fs, n: nat, bn: nat): set<nat>
    requires s.Shape() && s'.Shape() && s.Has(DataSlot(n, bn)) && s'.Has(DataSlot(n, bn))
  {
    var a := s'.Addr(DataSlot(n, bn));
    (if s.Addr(DataSlot(n, bn)) == 0
     then {a, BBlock(bmapstart, a)} + (if bn < NDIRECT then {} else {s'.Ptr(n)})
     else {})
    + PtrSet(bmapstart, s, s', n)
  }

  ghost function PtrSet(bmapstart: nat, s: Fs, s': Fs, n: nat): set<nat>
    requires s.Shape() && s'.Shape() && n < |s.inodes| && n < |s'.inodes|
  {
    if s.Ptr(n) == 0 && s'.Ptr(n) != 0 then {s'.Ptr(n), BBlock(bmapstart, s'.Ptr(n))} else {}
  }

  /** bmap of a missing direct block. */
  lemma DirectMapped(bmapstart: nat, s: Fs, n: nat, i: nat, b: nat)
    requires Owners(s) && s.Has(Direct(n, i)) && s.Addr(Direct(n, i)) == 0 && b < |s.blocks| && !s.Used(b)
    ensures
      var s' := Added(s, Direct(n, i), b);
      && Owners(s') && Grows(s, s') && OnlyFilled(s, s', n, i, i + 1) && Paid(s, s', n, i, i + 1)
      && s'.Has(Direct(n, i)) && s'.Addr(Direct(n, i)) == b > 0
      && MapSet(bmapstart, s, s', n, i) == {b, BBlock(bmapstart, b)}
  {
    hide Bit, WordAt, Added, Took, Free, Owners;
    OwnersHasShape(s);
    AddedGrows(s, Direct(n, i), b);
    AddedTook(s, Direct(n, i), b);
    var s' := Added(s, Direct(n, i), b);
    assert s'.Addr(Pointer(n)) == s.Addr(Pointer(n));
    assert Need(s, n, i, i) == 0;
  }

  // ---------- what a truncation logs ----------

  /** The blocks of file n, its indirect block included. */
  ghost function BlocksOf(s: Fs, n: nat): set<nat> {
    set b | b in s.owner && s.owner[b].inum == n
  }

  /** The free map blocks of these blocks. */
  ghost function Maps(bmapstart: nat, blocks: set<nat>): set<nat> {
    set b | b in blocks :: BBlock(bmapstart, b)
  }

  lemma MapsMore(bmapstart: nat, before: set<nat>, now: set<nat>, b: nat)
    requires b in now && now <= before
    ensures Maps(bmapstart, before - (now - {b})) == Maps(bmapstart, before - now) + {BBlock(bmapstart, b)}
  {
    hide BBlock;
    assert before - (now - {b}) == (before - now) + {b};
  }

  lemma MapsNone(bmapstart: nat, blocks: set<nat>)
    ensures Maps(bmapstart, blocks - blocks) == {}
  {
  }

  lemma TruncatedKeys(s: Fs, s': Fs, n: nat)
    requires Truncated(s, s', n)
    ensures s.owner.Keys - s'.owner.Keys == BlocksOf(s, n)
  {
    hide Bit, WordAt;
  }

  lemma {:induction false} RangeSize(a: nat, k: nat, r: set<nat>)
    requires forall x :: x in r ==> a <= x < a + k
    ensures |r| <= k
  {
    if k == 0 {
      assert r == {};
    } else {
      RangeSize(a, k - 1, r - {a + k - 1});
      assert r <= (r - {a + k - 1}) + {a + k - 1};
      SubsetSize(r, (r - {a + k - 1}) + {a + k - 1});
    }
  }

  /** On a disk with at most nine free map blocks a truncation fits the reservation. */
  lemma TruncBound(bmapstart: nat, inodestart: nat, s: Fs, n: nat)
    requires Owners(s) && |s.blocks| <= (MAXOPBLOCKS - 1) * BPB
    ensures |Maps(bmapstart, BlocksOf(s, n)) + {IBlock(inodestart, n)}| <= MAXOPBLOCKS
  {
    hide Bit, WordAt;
    var maps := Maps(bmapstart, BlocksOf(s, n));
    forall x | x in maps ensures bmapstart <= x < bmapstart + (MAXOPBLOCKS - 1) {
      var b :| b in BlocksOf(s, n) && x == BBlock(bmapstart, b);
      assert OwnedOk(s, b);
    }
    RangeSize(bmapstart, MAXOPBLOCKS - 1, maps);
  }

  // ---------- what a write logs ----------

  /** For block bn of the file: the block itself and, if it is new, its free map block
      and the indirect block that got its number. */
  ghost function BlockSet(bmapstart: nat, s: Fs, s': Fs, n: nat, bn: nat): set<nat>
    requires s.Shape() && s'.Shape() && s.Has(DataSlot(n, bn)) && s'.Has(DataSlot(n, bn))
  {
    var a := s'.Addr(DataSlot(n, bn));
    {a}
    + if s.Addr(DataSlot(n, bn)) == 0
      then {BBlock(bmapstart, a)} + (if bn < NDIRECT then {} else {s'.Ptr(n)})
      else {}
  }

  ghost function WriteSet(bmapstart: nat, s: Fs, s': Fs, n: nat, lo: nat, hi: nat): set<nat>
    requires s.Shape() && s'.Shape() && n < |s.inodes| && n < |s'.inodes| && hi <= MAXFILE
  {
    if lo >= hi then PtrSet(bmapstart, s, s', n)
    else WriteSet(bmapstart, s, s', n, lo, hi - 1) + BlockSet(bmapstart, s, s', n, hi - 1)
  }

  /** Blocks that are filled already contribute the same from here on. */
  lemma {:induction false} WriteSetStable(bmapstart: nat, s: Fs, s1: Fs, s2: Fs, n: nat, lo: nat, hi: nat)
    requires s.Shape() && s1.Shape() && s2.Shape() && n < |s.inodes| == |s1.inodes| == |s2.inodes| && hi <= MAXFILE
    requires forall bn :: lo <= bn < hi ==> s1.Addr(DataSlot(n, bn)) != 0
    requires forall u :: s1.Has(u) && s1.Addr(u) != 0 ==> s2.Has(u) && s2.Addr(u) == s1.Addr(u)
    requires s.Ptr(n) != 0 ==> s1.Ptr(n) == s.Ptr(n)
    ensures WriteSet(bmapstart, s, s2, n, lo, hi)
            == WriteSet(bmapstart, s, s1, n, lo, hi) + PtrSet(bmapstart, s1, s2, n)
  {
    hide WordAt, BBlock;
    assert s1.Ptr(n) == s1.Addr(Pointer(n)) && s2.Ptr(n) == s2.Addr(Pointer(n));
    if lo < hi {
      WriteSetStable(bmapstart, s, s1, s2, n, lo, hi - 1);
    }
  }

  /** bmap of block hi, then writing it, extends the set by one block. */
  lemma WriteSetStep(bmapstart: nat, s: Fs, s1: Fs, s2: Fs, n: nat, lo: nat, hi: nat)
    requires lo <= hi < MAXFILE && OnlyFilled(s, s1, n, lo, hi) && OnlyFilled(s1, s2, n, hi, hi + 1)
    requires forall bn :: lo <= bn < hi ==> s1.Addr(DataSlot(n, bn)) != 0
    requires s2.Addr(DataSlot(n, hi)) != 0
    ensures WriteSet(bmapstart, s, s2, n, lo, hi + 1)
            == WriteSet(bmapstart, s, s1, n, lo, hi) + MapSet(bmapstart, s1, s2, n, hi) + {s2.Addr(DataSlot(n, hi))}
  {
    hide WordAt, BBlock;
    assert s.Ptr(n) == s.Addr(Pointer(n)) && s1.Ptr(n) == s1.Addr(Pointer(n));
    WriteSetStable(bmapstart, s, s1, s2, n, lo, hi);
    assert s1.Addr(DataSlot(n, hi)) == s.Addr(DataSlot(n, hi));
  }

  /** Result of writei: -1, a byte count, or the "out of blocks" panic. */
  datatype Written = Rejected | Wrote(count: nat) | NoSpace

  /** One past the last block touched by `tot` bytes from offset `off`. */
  function BlocksEnd(off: nat, tot: nat): nat {
    if tot == 0 then off / BSIZE else (off + tot - 1) / BSIZE + 1
  }

  /** One past the last block that a write of `len` bytes maps when it stops after `count`. */
  function TouchedEnd(off: nat, len: nat, count: nat): nat {
    if count == len then BlocksEnd(off, len) else BlocksEnd(off, count) + 1
  }

  /** The state of writei's loop after `tot` bytes. */
  ghost predicate Writing(s: Fs, s': Fs, n: nat, off: nat, src: seq<byte>, tot: nat, c: seq<byte>) {
    && Owners(s') && tot <= |src| && off <= |c|
    && Holds(s', n, Overwrite(c, off, src[..tot]))
    && OtherFiles(s, s', n)
    && OnlyFilled(s, s', n, off / BSIZE, BlocksEnd(off, tot))
    && (0 < tot < |src| ==> (off + tot) % BSIZE == 0)
  }

  lemma WritingStart(s: Fs, n: nat, off: nat, src: seq<byte>)
    requires Inv(s) && n < |s.inodes| && off <= s.inodes[n].size
    ensures Writing(s, s, n, off, src, 0, FileOf(s, n)) && BlocksEnd(off, 0) == off / BSIZE
  {
    hide Bit, WordAt, Owners, OnlyFilled, Holds, NoHoles;
    InvShape(s);
    OverwriteNone(FileOf(s, n), off, src[..0]);
    GrowsSelf(s, n, off / BSIZE, BlocksEnd(off, 0));
  }

  lemma OverwriteNone(c: seq<byte>, off: nat, d: seq<byte>)
    requires off <= |c| && d == []
    ensures Overwrite(c, off, d) == c
  {
  }

  lemma WritingStep(s: Fs, s1: Fs, s2: Fs, n: nat, off: nat, src: seq<byte>, tot: nat, m: nat, c: seq<byte>)
    requires tot < |src| && m == Chunk(off + tot, |src| - tot) && off + |src| <= MAXFILE * BSIZE
    requires Writing(s, s1, n, off, src, tot, c)
    requires Owners(s2) && OtherFiles(s1, s2, n)
    requires OnlyFilled(s1, s2, n, (off + tot) / BSIZE, (off + tot) / BSIZE + 1)
    requires Holds(s2, n, Overwrite(Overwrite(c, off, src[..tot]), off + tot, src[tot..tot + m]))
    ensures (off + tot) / BSIZE == BlocksEnd(off, tot) && BlocksEnd(off, tot + m) == BlocksEnd(off, tot) + 1
    ensures Writing(s, s2, n, off, src, tot + m, c)
  {
    hide Bit, WordAt, Holds, OtherFiles, Owners, OnlyFilled;
    var d, e := src[..tot], src[tot..tot + m];
    OverwriteTwice(c, off, d, e);
    assert d + e == src[..tot + m];
    BlocksEndStep(off, tot, m, |src|);
    OthersThen(s, s1, s2, n);
    FilledThen(s, s1, s2, n, off / BSIZE, BlocksEnd(off, tot));
  }

  lemma BlocksEndStep(off: nat, tot: nat, m: nat, len: nat)
    requires tot < len && m == Chunk(off + tot, len - tot) && (tot > 0 ==> (off + tot) % BSIZE == 0)
    ensures (off + tot) / BSIZE == BlocksEnd(off, tot) && BlocksEnd(off, tot + m) == BlocksEnd(off, tot) + 1
    ensures off / BSIZE <= BlocksEnd(off, tot)
    ensures tot + m < len ==> (off + tot + m) % BSIZE == 0
  {
  }

  /** The end of writei: the size grows to cover what was written. */
  lemma WritingEnd(s: Fs, s': Fs, n: nat, lo: nat, hi: nat, c: seq<byte>)
    requires Inv(s) && Owners(s') && OnlyFilled(s, s', n, lo, hi) && Holds(s', n, c) && OtherFiles(s, s', n)
    ensures
      var s2 := s'.Resize(n, |c|);
      Inv(s2) && Holds(s2, n, c) && OtherFiles(s, s2, n)
  {
    hide Bit, WordAt, OtherFiles;
    var s2 := s'.Resize(n, |c|);
    ResizeKeeps(s', n, |c|);
    forall m | 0 <= m < |s2.inodes| ensures NoHoles(s2, m) {
      assert NoHoles(s, m);
    }
    SameBlocksHold(s', s2, n, c);
    ResizeOthers(s', n, |c|);
    OthersThen(s, s', s2, n);
  }

  lemma ResizeOthers(s: Fs, n: nat, size: nat)
    requires Owners(s) && n < |s.inodes|
    ensures OtherFiles(s, s.Resize(n, size), n)
  {
    hide Bit, WordAt;
    ResizeKeeps(s, n, size);
    forall m: nat, c | m != n && Holds(s, m, c) ensures Holds(s.Resize(n, size), m, c) {
      SameBlocksHold(s, s.Resize(n, size), m, c);
    }
  }

  ghost function FileOf(s: Fs, n: nat): (c: seq<byte>)
    requires Inv(s) && n < |s.inodes|
    ensures |c| == s.inodes[n].size && Holds(s, n, c)
  {
    assert NoHoles(s, n);
    Contents(s, n, s.inodes[n].size)
  }

  /** The file `c` after writing d and e at `off` with a size that counts only d. */
  function Visible(c: seq<byte>, off: nat, d: seq<byte>, e: seq<byte>): (r: seq<byte>)
    requires off <= |c|
    ensures |r| == if off + |d| > |c| then off + |d| else |c|
  {
    Overwrite(c, off, d + e)[..if off + |d| > |c| then off + |d| else |c|]
  }

  lemma VisibleAll(c: seq<byte>, off: nat, d: seq<byte>)
    requires off <= |c|
    ensures Visible(c, off, d, []) == Overwrite(c, off, d)
  {
    assert d + [] == d;
  }

  /** The file is the old one with `d` written over it at `off`, and `e` after that as far
      as the size shows it; the others are as before. `e` is what a failing copy put in
      before the fault: it is not counted, and its block not logged. */
  ghost predicate WroteBytes(s: Fs, s': Fs, n: nat, off: nat, d: seq<byte>, e: seq<byte>) {
    && Inv(s) && n < |s.inodes| == |s'.inodes| && off <= s.inodes[n].size
    && Holds(s', n, Visible(FileOf(s, n), off, d, e))
    && s'.inodes[n].size == |Visible(FileOf(s, n), off, d, e)|
    && OtherFiles(s, s', n)
    && forall m :: 0 <= m < |s.inodes| && m != n ==> s'.inodes[m].size == s.inodes[m].size
  }

  /** What the loop of writei has logged for blocks lo..hi: exactly the write set, or
      less when the last copy failed. */
  ghost predicate LogsSoFar(bmapstart: nat, s: Fs, s': Fs, n: nat, lo: nat, hi: nat,
                            l: set<nat>, l': set<nat>, exact: bool) {
    && s.Shape() && s'.Shape() && n < |s.inodes| == |s'.inodes| && hi <= MAXFILE
    && (forall bn :: lo <= bn < hi ==> s'.Addr(DataSlot(n, bn)) != 0)
    && l' <= l + WriteSet(bmapstart, s, s', n, lo, hi)
    && (exact ==> l' == l + WriteSet(bmapstart, s, s', n, lo, hi))
  }

  /** writei's loop is over: `d` and `e` are in place, in blocks up to hi. */
  ghost predicate Stopped(s: Fs, s': Fs, n: nat, off: nat, d: seq<byte>, e: seq<byte>, hi: nat) {
    && Owners(s') && Inv(s) && n < |s.inodes| && off <= s.inodes[n].size
    && Holds(s', n, Overwrite(FileOf(s, n), off, d + e))
    && OtherFiles(s, s', n) && OnlyFilled(s, s', n, off / BSIZE, hi)
  }

  lemma WritingHere(s: Fs, s1: Fs, n: nat, off: nat, src: seq<byte>, tot: nat, m: nat)
    requires Inv(s) && n < |s.inodes| && off <= s.inodes[n].size && off + |src| <= MAXFILE * BSIZE
    requires tot < |src| && m == Chunk(off + tot, |src| - tot)
    requires Writing(s, s1, n, off, src, tot, FileOf(s, n))
    ensures
      var c := Overwrite(FileOf(s, n), off, src[..tot]);
      Owners(s1) && Holds(s1, n, c) && off + tot <= |c| && OnlyFilled(s, s1, n, off / BSIZE, BlocksEnd(off, tot))
    ensures off / BSIZE <= (off + tot) / BSIZE == BlocksEnd(off, tot) < MAXFILE
  {
    hide Bit, WordAt, Inv, Owners, Holds, OtherFiles, OnlyFilled, NoHoles;
    BlocksEndStep(off, tot, m, |src|);
  }

  lemma WritingFailed(s: Fs, s1: Fs, s2: Fs, n: nat, off: nat, src: seq<byte>, tot: nat, part: nat)
    requires Inv(s) && n < |s.inodes| && off <= s.inodes[n].size && tot + part <= |src|
    requires Writing(s, s1, n, off, src, tot, FileOf(s, n))
    requires Owners(s2) && OtherFiles(s1, s2, n) && off / BSIZE <= BlocksEnd(off, tot)
    requires OnlyFilled(s1, s2, n, BlocksEnd(off, tot), BlocksEnd(off, tot) + 1)
    requires Holds(s2, n, Overwrite(Overwrite(FileOf(s, n), off, src[..tot]), off + tot, src[tot..tot + part]))
    ensures Stopped(s, s2, n, off, src[..tot], src[tot..tot + part], BlocksEnd(off, tot) + 1)
  {
    hide Bit, WordAt, Inv, Owners, Holds, OtherFiles, OnlyFilled, NoHoles;
    OverwriteTwice(FileOf(s, n), off, src[..tot], src[tot..tot + part]);
    OthersThen(s, s1, s2, n);
    FilledThen(s, s1, s2, n, off / BSIZE, BlocksEnd(off, tot));
  }

  lemma WritingDone(s: Fs, s1: Fs, n: nat, off: nat, src: seq<byte>)
    requires Inv(s) && n < |s.inodes| && off <= s.inodes[n].size
    requires Writing(s, s1, n, off, src, |src|, FileOf(s, n))
    ensures Stopped(s, s1, n, off, src[..|src|], [], BlocksEnd(off, |src|))
  {
    hide Bit, WordAt, Inv, Owners, Holds, OtherFiles, OnlyFilled, NoHoles;
    assert src[..|src|] + [] == src[..|src|];
  }

  lemma LogsStart(bmapstart: nat, s: Fs, n: nat, lo: nat, l: set<nat>)
    requires s.Shape() && n < |s.inodes| && lo <= MAXFILE
    ensures LogsSoFar(bmapstart, s, s, n, lo, lo, l, l, true)
  {
  }

  lemma LogsStep(bmapstart: nat, s: Fs, s1: Fs, s2: Fs, n: nat, lo: nat, hi: nat,
                 l: set<nat>, l1: set<nat>, l2: set<nat>, good: bool)
    requires LogsSoFar(bmapstart, s, s1, n, lo, hi, l, l1, true) && lo <= hi < MAXFILE
    requires OnlyFilled(s, s1, n, lo, hi) && OnlyFilled(s1, s2, n, hi, hi + 1) && s2.Addr(DataSlot(n, hi)) != 0
    requires l2 == l1 + MapSet(bmapstart, s1, s2, n, hi) + if good then {s2.Addr(DataSlot(n, hi))} else {}
    ensures LogsSoFar(bmapstart, s, s2, n, lo, hi + 1, l, l2, good)
  {
    hide WordAt, BlockSet, MapSet, WriteSet;
    WriteSetStep(bmapstart, s, s1, s2, n, lo, hi);
  }

  lemma LogsResized(bmapstart: nat, s: Fs, s1: Fs, n: nat, size: nat, lo: nat, hi: nat,
                    l: set<nat>, l1: set<nat>, exact: bool)
    requires Owners(s1) && OnlyFilled(s, s1, n, lo, hi) && LogsSoFar(bmapstart, s, s1, n, lo, hi, l, l1, exact)
    ensures LogsSoFar(bmapstart, s, s1.Resize(n, size), n, lo, hi, l, l1, exact)
  {
    hide WordAt, Bit, WriteSet;
    ResizeKeeps(s1, n, size);
    assert s.Ptr(n) == s.Addr(Pointer(n)) && s1.Ptr(n) == s1.Addr(Pointer(n));
    WriteSetStable(bmapstart, s, s1, s1.Resize(n, size), n, lo, hi);
  }

  // ---------- the blocks a write needs ----------

  /** The blocks that a write maps lack more than there are free blocks. */
  ghost predicate TooMuch(s: Fs, n: nat, off: nat, len: nat, count: nat) {
    && s.Shape() && n < |s.inodes| && TouchedEnd(off, len, count) <= MAXFILE
    && Need(s, n, off / BSIZE, TouchedEnd(off, len, count)) > |Free(s)|
  }

  /** Blocks lo to hi of file n are mapped: no filled slot changed, no slot of another
      file, and every new block was taken off the free map. */
  ghost predicate Filled(s: Fs, s': Fs, n: nat, lo: nat, hi: nat) {
    && Paid(s, s', n, lo, hi) && s'.nmeta == s.nmeta && |s'.blocks| == |s.blocks|
    && forall u :: s.Has(u) ==>
         && s'.Has(u)
         && (s.Addr(u) != 0 || (u != Pointer(n) && !InRange(u, n, lo, hi)) ==> s'.Addr(u) == s.Addr(u))
  }

  lemma FilledHas(s: Fs, s': Fs, n: nat, lo: nat, hi: nat)
    requires Filled(s, s', n, lo, hi)
    ensures s'.Has(Pointer(n))
  {
  }

  lemma OverBudget(s: Fs, s1: Fs, n: nat, lo: nat, hi: nat)
    requires Paid(s, s1, n, lo, hi) && OnlyFilled(s, s1, n, lo, hi) && hi < MAXFILE
    requires Need(s1, n, hi, hi + 1) > |Free(s1)|
    ensures Need(s, n, lo, hi + 1) > |Free(s)|
  {
    hide Bit, WordAt, Need, Free, Took;
    SameNeed(s, s1, n, lo, hi);
  }

  lemma SameMapPaid(s: Fs, s1: Fs, s2: Fs, n: nat, lo: nat, hi: nat)
    requires Paid(s, s1, n, lo, hi) && s2.Shape() && s2.bitmap == s1.bitmap && |s2.blocks| == |s1.blocks|
    requires s2.owner == s1.owner && |s2.inodes| == |s1.inodes| && s2.Ptr(n) == s1.Ptr(n)
    ensures Paid(s, s2, n, lo, hi)
  {
    hide Bit, WordAt, Need;
    assert Free(s2) == Free(s1);
  }

  lemma ResizePaid(s: Fs, s1: Fs, n: nat, size: nat, lo: nat, hi: nat)
    requires Owners(s1) && OnlyFilled(s, s1, n, lo, hi) && Paid(s, s1, n, lo, hi)
    ensures Filled(s, s1.Resize(n, size), n, lo, hi)
  {
    hide Bit, WordAt, Need, Paid;
    ResizeKeeps(s1, n, size);
    assert s1.Resize(n, size).Addr(Pointer(n)) == s1.Addr(Pointer(n));
    SameMapPaid(s, s1, s1.Resize(n, size), n, lo, hi);
  }

  /** Whatever happens after `tot` bytes, the block of the next byte is mapped. */
  lemma TouchedBeyond(off: nat, len: nat, limit: nat, tot: nat)
    requires tot < len && (tot > 0 ==> (off + tot) % BSIZE == 0) && off + len <= MAXFILE * BSIZE
    ensures BlocksEnd(off, tot) + 1 <= TouchedEnd(off, len, Copied(off, len, limit, tot)) <= MAXFILE
  {
    CopiedEnds(off, len, limit, tot);
    var m := Chunk(off + tot, len - tot);
    var count := Copied(off, len, limit, tot);
    assert tot + m > limit ==> count == tot;
    assert tot + m <= limit ==> tot + m <= count;
  }

  lemma IsTooMuch(s: Fs, n: nat, off: nat, len: nat, tot: nat, count: nat)
    requires s.Shape() && n < |s.inodes| && BlocksEnd(off, tot) + 1 <= TouchedEnd(off, len, count) <= MAXFILE
    requires Need(s, n, off / BSIZE, BlocksEnd(off, tot) + 1) > |Free(s)|
    ensures TooMuch(s, n, off, len, count)
  {
    hide Need, Free, Bit, WordAt;
    NeedGrows(s, n, off / BSIZE, BlocksEnd(off, tot) + 1, TouchedEnd(off, len, count));
  }

  lemma NotTooMuch(s: Fs, s': Fs, n: nat, off: nat, len: nat, count: nat)
    requires Filled(s, s', n, off / BSIZE, TouchedEnd(off, len, count))
    ensures !TooMuch(s, n, off, len, count)
  {
    hide Need, Free, Bit, WordAt, Took;
  }

  // ---------- filewrite's pieces together ----------

  /** filewrite writes at most this many bytes in one transaction. */
  const PIECE := (MAXOPBLOCKS - 1 - 1 - 2) / 2 * BSIZE

  function Piece(left: nat): (m: nat)
    ensures m <= left && m <= 3 * BSIZE && (left > 0 ==> m > 0)
  {
    if left > PIECE then PIECE else left
  }

  /** How many of the readable bytes are left after the first i. */
  function Readable(limit: nat, i: nat): nat {
    if limit > i then limit - i else 0
  }

  /** What filewrite comes to: the bytes it counts, the bytes that are in the file's
      blocks then, and one past the last block it maps. */
  datatype Extent = Extent(counted: nat, inPlace: nat, end: nat)

  /** `len` bytes at `off`, of which i are counted: pieces go in until one reaches past
      the largest file or cannot be read to its end. */
  function Run(off: nat, len: nat, limit: nat, i: nat): (x: Extent)
    requires i <= len
    ensures i <= x.counted <= len
    decreases len - i
  {
    if i == len then Extent(len, len, BlocksEnd(off, len))
    else
      var m := Piece(len - i);
      if off + i + m > MAXFILE * BSIZE then Extent(i, i, BlocksEnd(off, i))
      else
        var c := Copied(off + i, m, Readable(limit, i), 0);
        if c < m then Extent(i + c, i + Readable(limit, i), BlocksEnd(off + i, c) + 1)
        else Run(off, len, limit, i + m)
  }

  lemma RunStep(off: nat, len: nat, limit: nat, i: nat)
    requires i <= len
    ensures i == len ==> Run(off, len, limit, i) == Extent(len, len, BlocksEnd(off, len))
    ensures
      i < len ==>
        var m := Piece(len - i);
        var c := Copied(off + i, m, Readable(limit, i), 0);
        Run(off, len, limit, i) ==
          if off + i + m > MAXFILE * BSIZE then Extent(i, i, BlocksEnd(off, i))
          else if c < m then Extent(i + c, i + Readable(limit, i), BlocksEnd(off + i, c) + 1)
          else Run(off, len, limit, i + m)
  {
    hide Copied, BlocksEnd, Readable;
  }

  /** The blocks it maps lack more than there are free blocks. */
  ghost predicate TooLong(s: Fs, n: nat, off: nat, len: nat, limit: nat) {
    && s.Shape() && n < |s.inodes| && Run(off, len, limit, 0).end <= MAXFILE
    && Need(s, n, off / BSIZE, Run(off, len, limit, 0).end) > |Free(s)|
  }

  lemma CopiedStep(off: nat, len: nat, limit: nat, tot: nat)
    requires tot <= len
    ensures tot == len ==> Copied(off, len, limit, tot) == len
    ensures tot < len ==>
              var m := Chunk(off + tot, len - tot);
              Copied(off, len, limit, tot) == if tot + m > limit then tot else Copied(off, len, limit, tot + m)
  {
    hide Chunk;
  }

  lemma {:induction false} CopiedAll(off: nat, len: nat, limit: nat, tot: nat)
    requires tot <= len <= limit
    ensures Copied(off, len, limit, tot) == len
    decreases len - tot
  {
    if tot < len {
      CopiedAll(off, len, limit, tot + Chunk(off + tot, len - tot));
    }
  }

  /** A copy that stops short stops in the block of the fault. */
  lemma {:induction false} CopiedNear(off: nat, len: nat, limit: nat, tot: nat)
    requires tot <= limit < len
    ensures Copied(off, len, limit, tot) <= limit < Copied(off, len, limit, tot) + BSIZE
    decreases len - tot
  {
    var m := Chunk(off + tot, len - tot);
    if tot + m <= limit {
      CopiedNear(off, len, limit, tot + m);
    }
  }

  /** What fits and can be read is counted, but for less than a block before a fault. */
  lemma {:induction false} RunCounts(off: nat, len: nat, limit: nat, i: nat)
    requires i <= len && i <= limit && off + len <= MAXFILE * BSIZE
    ensures limit >= len ==> Run(off, len, limit, i).counted == len
    ensures limit < len ==> Run(off, len, limit, i).counted <= limit < Run(off, len, limit, i).counted + BSIZE
    decreases len - i
  {
    hide Run, Copied, BlocksEnd, Piece;
    RunStep(off, len, limit, i);
    if i < len {
      var m := Piece(len - i);
      if i + m <= limit {
        CopiedAll(off + i, m, Readable(limit, i), 0);
        RunCounts(off, len, limit, i + m);
      } else {
        CopiedNear(off + i, m, Readable(limit, i), 0);
      }
    }
  }

  lemma BlocksEndThen(off: nat, i: nat, c: nat)
    ensures c > 0 ==> BlocksEnd(off + i, c) == BlocksEnd(off, i + c)
    ensures off / BSIZE <= BlocksEnd(off, i) <= BlocksEnd(off, i + c)
    ensures i > 0 ==> (off + i) / BSIZE == BlocksEnd(off, i) || (off + i) / BSIZE + 1 == BlocksEnd(off, i)
    ensures BlocksEnd(off, i) <= BlocksEnd(off + i, c) + 1
    ensures off + i <= MAXFILE * BSIZE ==> BlocksEnd(off, i) <= MAXFILE
  {
  }

  lemma {:induction false} RunEnds(off: nat, len: nat, limit: nat, i: nat)
    requires i <= len && off + i <= MAXFILE * BSIZE
    ensures BlocksEnd(off, i) <= Run(off, len, limit, i).end <= MAXFILE
    ensures i < len && off + i + Piece(len - i) <= MAXFILE * BSIZE ==>
              TouchedEnd(off + i, Piece(len - i), Copied(off + i, Piece(len - i), Readable(limit, i), 0))
              <= Run(off, len, limit, i).end
    decreases len - i
  {
    hide BlocksEnd, Run, Copied, Piece, Readable;
    RunStep(off, len, limit, i);
    BlocksEndThen(off, i, 0);
    if i < len {
      var m := Piece(len - i);
      if off + i + m <= MAXFILE * BSIZE {
        var c := Copied(off + i, m, Readable(limit, i), 0);
        BlocksEndThen(off, i, c);
        BlocksEndThen(off, i, m);
        BlocksEndThen(off + i, m, 0);
        CopiedEnds(off + i, m, Readable(limit, i), 0);
        if c == m {
          RunEnds(off, len, limit, i + m);
        }
      }
    }
  }

  lemma NeedAtSame(s: Fs, s1: Fs, n: nat, lo: nat, hi: nat, lo1: nat, bn: nat)
    requires Filled(s, s1, n, lo, hi) && lo <= lo1 <= hi <= bn < MAXFILE && (hi == lo ==> lo1 == lo)
    ensures NeedAt(s1, n, lo1, bn) == NeedAt(s, n, lo, bn)
  {
    hide Bit, WordAt, Took, Free, Need;
    assert s.Has(DataSlot(n, bn)) && DataSlot(n, bn) != Pointer(n) && !InRange(DataSlot(n, bn), n, lo, hi);
  }

  /** The cost of a range is what its first part cost and what the rest costs then. */
  lemma {:induction false} NeedJoin(s: Fs, s1: Fs, n: nat, lo: nat, hi: nat, lo1: nat, top: nat)
    requires Filled(s, s1, n, lo, hi) && lo <= lo1 <= hi <= top <= MAXFILE
    requires lo1 == hi || (lo1 + 1 == hi && lo < hi && s1.Addr(DataSlot(n, lo1)) != 0)
    ensures Need(s, n, lo, top) == Need(s, n, lo, hi) + Need(s1, n, lo1, top)
    decreases top
  {
    hide Bit, WordAt, Filled, NeedAt;
    FilledShape(s, s1, n, lo, hi);
    if top == hi {
      if lo1 < hi {
        MappedNeedsNone(s1, n, lo1);
        assert Need(s1, n, lo1, lo1) == 0;
      }
    } else {
      NeedJoin(s, s1, n, lo, hi, lo1, top - 1);
      NeedAtSame(s, s1, n, lo, hi, lo1, top - 1);
    }
  }

  lemma MappedNeedsNone(s: Fs, n: nat, bn: nat)
    requires s.Shape() && n < |s.inodes| && bn < MAXFILE && s.Addr(DataSlot(n, bn)) != 0
    ensures NeedAt(s, n, bn, bn) == 0
  {
    hide Bit, WordAt;
  }

  lemma FilledShape(s: Fs, s': Fs, n: nat, lo: nat, hi: nat)
    requires Filled(s, s', n, lo, hi)
    ensures s.Shape() && s'.Shape() && n < |s.inodes| == |s'.inodes| && lo <= hi <= MAXFILE
    ensures |Free(s')| + Need(s, n, lo, hi) == |Free(s)|
  {
    hide Bit, WordAt, Need, Free;
  }

  lemma FilledOn(s: Fs, s1: Fs, s2: Fs, n: nat, lo: nat, hi: nat, lo1: nat, hi1: nat)
    requires Filled(s, s1, n, lo, hi) && Filled(s1, s2, n, lo1, hi1) && lo <= lo1 < hi1 && hi <= hi1
    requires lo1 == hi || (lo1 + 1 == hi && lo < hi && s1.Addr(DataSlot(n, lo1)) != 0)
    ensures Filled(s, s2, n, lo, hi1)
  {
    hide Bit, WordAt, Need, Free, Took;
    TookThen(s, s1, s2);
    NeedJoin(s, s1, n, lo, hi, lo1, hi1);
  }

  /** The piece at i lacks blocks, so the whole does. */
  lemma PieceTooLong(s: Fs, s1: Fs, n: nat, off: nat, len: nat, limit: nat, i: nat)
    requires i < len && Inv(s1) && n < |s1.inodes| && off + i <= s1.inodes[n].size
    requires off + i + Piece(len - i) <= MAXFILE * BSIZE && Filled(s, s1, n, off / BSIZE, BlocksEnd(off, i))
    requires Run(off, len, limit, i) == Run(off, len, limit, 0)
    requires TooMuch(s1, n, off + i, Piece(len - i), Copied(off + i, Piece(len - i), Readable(limit, i), 0))
    ensures TooLong(s, n, off, len, limit)
  {
    hide Bit, WordAt, Need, Free, Filled, Inv;
    var m := Piece(len - i);
    var hi := TouchedEnd(off + i, m, Copied(off + i, m, Readable(limit, i), 0));
    FilledShape(s, s1, n, off / BSIZE, BlocksEnd(off, i));
    RunEnds(off, len, limit, i);
    PieceJoins(s1, n, off, i, m, Readable(limit, i));
    NeedJoin(s, s1, n, off / BSIZE, BlocksEnd(off, i), (off + i) / BSIZE, hi);
    NeedGrows(s, n, off / BSIZE, hi, Run(off, len, limit, 0).end);
  }

  /** A piece begins in the block after the last one, or in that one, which is mapped. */
  lemma PieceJoins(s: Fs, n: nat, off: nat, i: nat, m: nat, limit: nat)
    requires Inv(s) && n < |s.inodes| && off + i <= s.inodes[n].size && m > 0 && off + i + m <= MAXFILE * BSIZE
    ensures
      var lo, hi, lo1 := off / BSIZE, BlocksEnd(off, i), (off + i) / BSIZE;
      && lo <= lo1 <= hi <= TouchedEnd(off + i, m, Copied(off + i, m, limit, 0)) <= MAXFILE
      && lo1 < TouchedEnd(off + i, m, Copied(off + i, m, limit, 0))
      && (lo1 == hi || (lo1 + 1 == hi && lo < hi && s.Has(DataSlot(n, lo1)) && s.Addr(DataSlot(n, lo1)) != 0))
  {
    hide Bit, WordAt, Owners;
    InvShape(s);
    BlocksEndThen(off, i, 0);
    CopiedEnds(off + i, m, limit, 0);
    PieceEnd(off, i, m, Copied(off + i, m, limit, 0));
    assert NoHoles(s, n);
    if i > 0 {
      assert ((off + i) / BSIZE) * BSIZE <= off + i;
      MappedBefore(s, n, off + i);
    }
  }

  /** The block of the byte before `end` is mapped. */
  lemma MappedBefore(s: Fs, n: nat, end: nat)
    requires s.Shape() && n < |s.inodes| && NoHoles(s, n) && 0 < end <= s.inodes[n].size
    ensures s.Has(DataSlot(n, (end - 1) / BSIZE)) && s.Addr(DataSlot(n, (end - 1) / BSIZE)) != 0
  {
    hide WordAt;
    assert (end - 1) / BSIZE * BSIZE < s.inodes[n].size;
  }

  lemma PieceEnd(off: nat, i: nat, m: nat, c: nat)
    requires m > 0 && c <= m && off + i + m <= MAXFILE * BSIZE
    requires c < m ==> BlocksEnd(off + i, c) < BlocksEnd(off + i, m)
    ensures BlocksEnd(off, i) <= TouchedEnd(off + i, m, c) <= MAXFILE && (off + i) / BSIZE < TouchedEnd(off + i, m, c)
    ensures off / BSIZE <= (off + i) / BSIZE <= BlocksEnd(off, i)
    ensures (off + i) / BSIZE == BlocksEnd(off, i)
            || ((off + i) / BSIZE + 1 == BlocksEnd(off, i) && i > 0 && (off + i - 1) / BSIZE == (off + i) / BSIZE)
    ensures i > 0 ==> off / BSIZE < BlocksEnd(off, i)
    ensures c == m ==> TouchedEnd(off + i, m, c) == BlocksEnd(off, i + m)
  {
  }

  lemma NotTooLong(s: Fs, s': Fs, n: nat, off: nat, len: nat, limit: nat)
    requires Filled(s, s', n, off / BSIZE, Run(off, len, limit, 0).end)
    ensures !TooLong(s, n, off, len, limit)
  {
    hide Need, Free, Bit, WordAt, Took, Run;
  }

  lemma FilledNone(s: Fs, n: nat, lo: nat)
    requires s.Shape() && n < |s.inodes| && lo <= MAXFILE
    ensures Filled(s, s, n, lo, lo)
  {
  }

  /** What the whole call logs, the inode's block included. */
  ghost predicate Logs(bmapstart: nat, inodestart: nat, s: Fs, s': Fs, n: nat, off: nat, len: nat, count: nat,
                       l: set<nat>, l': set<nat>) {
    LogsSoFar(bmapstart, s, s', n, off / BSIZE, TouchedEnd(off, len, count),
              l + {IBlock(inodestart, n)}, l', count == len)
  }

  lemma WroteThen(s: Fs, s1: Fs, s2: Fs, n: nat, off: nat, d: seq<byte>, d': seq<byte>, e: seq<byte>)
    requires Inv(s1) && WroteBytes(s, s1, n, off, d, []) && WroteBytes(s1, s2, n, off + |d|, d', e)
    ensures WroteBytes(s, s2, n, off, d + d', e)
  {
    hide Bit, WordAt, Inv, Holds, OtherFiles, NoHoles, Visible;
    var c := FileOf(s, n);
    VisibleAll(c, off, d);
    FileIs(s1, n, Overwrite(c, off, d));
    VisibleThen(c, off, d, d', e);
    OthersThen(s, s1, s2, n);
  }

  lemma VisibleThen(c: seq<byte>, off: nat, d: seq<byte>, d': seq<byte>, e: seq<byte>)
    requires off <= |c|
    ensures Visible(Overwrite(c, off, d), off + |d|, d', e) == Visible(c, off, d + d', e)
  {
    OverwriteTwice(c, off, d, d' + e);
    assert d + (d' + e) == d + d' + e;
  }

  lemma FileIs(s: Fs, n: nat, c: seq<byte>)
    requires Inv(s) && n < |s.inodes| && Holds(s, n, c) && s.inodes[n].size == |c|
    ensures FileOf(s, n) == c
  {
    HoldsIsContents(s, n, c);
  }

  lemma WroteNothing(s: Fs, n: nat, off: nat)
    requires Inv(s) && n < |s.inodes| && off <= s.inodes[n].size
    ensures WroteBytes(s, s, n, off, [], [])
  {
    hide Bit, WordAt, Owners, Holds, NoHoles;
    VisibleAll(FileOf(s, n), off, []);
    OverwriteNone(FileOf(s, n), off, []);
  }

  lemma FileAt(s: Fs, n: nat, at: nat, m: nat)
    requires Inv(s) && n < |s.inodes| && m > 0 && at + m <= s.inodes[n].size && at % BSIZE + m <= BSIZE
    ensures s.Has(DataSlot(n, at / BSIZE)) && 0 < s.Addr(DataSlot(n, at / BSIZE)) < |s.blocks|
    ensures s.blocks[s.Addr(DataSlot(n, at / BSIZE))][at % BSIZE..at % BSIZE + m] == FileOf(s, n)[at..at + m]
    ensures at / BSIZE < MAXFILE
  {
    hide Bit, WordAt;
    assert NoHoles(s, n);
    MappedAddr(s, n, s.inodes[n].size, at / BSIZE);
    var c, b := FileOf(s, n), s.blocks[s.Addr(DataSlot(n, at / BSIZE))];
    var x, y := b[at % BSIZE..at % BSIZE + m], c[at..at + m];
    forall k: nat | k < m ensures x[k] == y[k] {
      assert (at + k) / BSIZE == at / BSIZE && (at + k) % BSIZE == at % BSIZE + k;
      assert ByteAt(s, n, at + k) == c[at + k];
    }
  }

  // ---------- the log space one chunk needs ----------

  const MAXOPBLOCKS := 10

  ghost function DataBlocks(s: Fs, n: nat, lo: nat, hi: nat): (r: set<nat>)
    requires s.Shape() && n < |s.inodes| && hi <= MAXFILE
    ensures |r| <= if lo < hi then hi - lo else 0
  {
    if lo >= hi then {} else DataBlocks(s, n, lo, hi - 1) + {s.Addr(DataSlot(n, hi - 1))}
  }

  /** Free map blocks of the data blocks that were missing in s. */
  ghost function MapBlocks(bmapstart: nat, s: Fs, s': Fs, n: nat, lo: nat, hi: nat): (r: set<nat>)
    requires s.Shape() && s'.Shape() && n < |s.inodes| && n < |s'.inodes| && hi <= MAXFILE
    ensures |r| <= if lo < hi then hi - lo - (if s.Addr(DataSlot(n, lo)) != 0 then 1 else 0) else 0
  {
    if lo >= hi then {}
    else
      MapBlocks(bmapstart, s, s', n, lo, hi - 1)
      + if s.Addr(DataSlot(n, hi - 1)) == 0 then {BBlock(bmapstart, s'.Addr(DataSlot(n, hi - 1)))} else {}
  }

  lemma BlockSetParts(bmapstart: nat, s: Fs, s': Fs, n: nat, lo: nat, hi: nat)
    requires s.Shape() && s'.Shape() && n < |s.inodes| && n < |s'.inodes| && lo < hi <= MAXFILE
    ensures BlockSet(bmapstart, s, s', n, hi - 1)
            <= DataBlocks(s', n, lo, hi) + MapBlocks(bmapstart, s, s', n, lo, hi)
               + {s'.Ptr(n), BBlock(bmapstart, s'.Ptr(n))}
  {
    hide WordAt, BBlock;
  }

  lemma PtrSetParts(bmapstart: nat, s: Fs, s': Fs, n: nat)
    requires s.Shape() && s'.Shape() && n < |s.inodes| && n < |s'.inodes|
    ensures PtrSet(bmapstart, s, s', n) <= {s'.Ptr(n), BBlock(bmapstart, s'.Ptr(n))}
  {
  }

  lemma PartsGrow(bmapstart: nat, s: Fs, s': Fs, n: nat, lo: nat, hi: nat)
    requires s.Shape() && s'.Shape() && n < |s.inodes| && n < |s'.inodes| && lo < hi <= MAXFILE
    ensures DataBlocks(s', n, lo, hi - 1) <= DataBlocks(s', n, lo, hi)
    ensures MapBlocks(bmapstart, s, s', n, lo, hi - 1) <= MapBlocks(bmapstart, s, s', n, lo, hi)
  {
    hide WordAt, BBlock;
  }

  lemma {:induction false} WriteSetParts(bmapstart: nat, s: Fs, s': Fs, n: nat, lo: nat, hi: nat)
    requires s.Shape() && s'.Shape() && n < |s.inodes| && n < |s'.inodes| && hi <= MAXFILE
    ensures WriteSet(bmapstart, s, s', n, lo, hi)
            <= DataBlocks(s', n, lo, hi) + MapBlocks(bmapstart, s, s', n, lo, hi)
               + {s'.Ptr(n), BBlock(bmapstart, s'.Ptr(n))}
  {
    hide WordAt, BBlock, BlockSet, PtrSet, DataBlocks, MapBlocks;
    if lo >= hi {
      PtrSetParts(bmapstart, s, s', n);
    } else {
      WriteSetParts(bmapstart, s, s', n, lo, hi - 1);
      var d, m := DataBlocks(s', n, lo, hi), MapBlocks(bmapstart, s, s', n, lo, hi);
      PartsGrow(bmapstart, s, s', n, lo, hi);
      BlockSetParts(bmapstart, s, s', n, lo, hi);
      JoinParts(WriteSet(bmapstart, s, s', n, lo, hi - 1), BlockSet(bmapstart, s, s', n, hi - 1),
                DataBlocks(s', n, lo, hi - 1), MapBlocks(bmapstart, s, s', n, lo, hi - 1), d, m,
                {s'.Ptr(n), BBlock(bmapstart, s'.Ptr(n))});
    }
  }

  /** A write of at most three blocks' worth of bytes logs at most MAXOPBLOCKS blocks,
      wherever it starts: four data blocks, three free map blocks (the first of four
      blocks is in the file already), the indirect block and its free map block, and
      the inode's block. */
  lemma ChunkBound(bmapstart: nat, inodestart: nat, s: Fs, s': Fs, n: nat, off: nat, len: nat, count: nat, l: set<nat>)
    requires Inv(s) && n < |s.inodes| && off <= s.inodes[n].size
    requires len <= 3 * BSIZE && count <= len && off + len <= MAXFILE * BSIZE
    requires count < len ==> BlocksEnd(off, count) < BlocksEnd(off, len)
    requires Logs(bmapstart, inodestart, s, s', n, off, len, count, {}, l)
    ensures |l| <= MAXOPBLOCKS
  {
    hide WordAt, Bit, WriteSet;
    var lo := off / BSIZE;
    var hi := TouchedEnd(off, len, count);
    WriteSetParts(bmapstart, s, s', n, lo, hi);
    var data, bits := DataBlocks(s', n, lo, hi), MapBlocks(bmapstart, s, s', n, lo, hi);
    var ptr := {s'.Ptr(n), BBlock(bmapstart, s'.Ptr(n))};
    var all := data + bits + ptr + {IBlock(inodestart, n)};
    assert l <= all;
    SubsetSize(l, all);
    if hi - lo == 4 {
      assert off % BSIZE > 0;
      assert NoHoles(s, n);
      assert lo * BSIZE < s.inodes[n].size;
    }
  }

  /** The bound is reached: three blocks' worth of bytes, one byte into the last direct
      block of a file without an indirect block, when the four blocks that get
      allocated have their bits in four different free map blocks. */
  lemma ChunkBoundReached(bmapstart: nat, inodestart: nat, s: Fs, s': Fs, n: nat, l: set<nat>)
    requires Owners(s') && s.Shape() && n < |s.inodes| == |s'.inodes|
    requires s.Addr(Direct(n, 11)) != 0 && s.Ptr(n) == 0 && s'.Ptr(n) != 0
    requires BBlock(bmapstart, |s'.blocks|) < s'.nmeta && IBlock(inodestart, n) < bmapstart
    requires s'.Ptr(n) / BPB != s'.Addr(Entry(n, 0)) / BPB && s'.Ptr(n) / BPB != s'.Addr(Entry(n, 1)) / BPB
    requires s'.Ptr(n) / BPB != s'.Addr(Entry(n, 2)) / BPB
    requires s'.Addr(Entry(n, 0)) / BPB != s'.Addr(Entry(n, 1)) / BPB
    requires s'.Addr(Entry(n, 0)) / BPB != s'.Addr(Entry(n, 2)) / BPB
    requires s'.Addr(Entry(n, 1)) / BPB != s'.Addr(Entry(n, 2)) / BPB
    requires Logs(bmapstart, inodestart, s, s', n, 11 * BSIZE + 1, 3 * BSIZE, 3 * BSIZE, {}, l)
    ensures |l| == MAXOPBLOCKS
  {
    hide Bit, WordAt, Owners, Logs, BBlock;
    OwnersHasShape(s');
    var a0, a1, a2, a3, p := s'.Addr(DataSlot(n, 11)), s'.Addr(DataSlot(n, 12)), s'.Addr(DataSlot(n, 13)),
                             s'.Addr(DataSlot(n, 14)), s'.Ptr(n);
    LogsOfFour(bmapstart, inodestart, s, s', n, l);
    OwnsIts(s', DataSlot(n, 11));
    OwnsIts(s', DataSlot(n, 12));
    OwnsIts(s', DataSlot(n, 13));
    OwnsIts(s', DataSlot(n, 14));
    OwnsIts(s', Pointer(n));
    MapsIn(bmapstart, |s'.blocks|, a1, a2, a3, p);
    CountTen(a0, a1, a2, a3, p, BBlock(bmapstart, a1), BBlock(bmapstart, a2), BBlock(bmapstart, a3),
             BBlock(bmapstart, p), IBlock(inodestart, n), s'.nmeta);
  }

  /** Blocks in different places of the free map, and where those are. */
  lemma MapsIn(bmapstart: nat, size: nat, a1: nat, a2: nat, a3: nat, p: nat)
    requires a1 <= size && a2 <= size && a3 <= size && p <= size
    requires p / BPB != a1 / BPB && p / BPB != a2 / BPB && p / BPB != a3 / BPB
    requires a1 / BPB != a2 / BPB && a1 / BPB != a3 / BPB && a2 / BPB != a3 / BPB
    ensures
      var b1, b2, b3, b4 := BBlock(bmapstart, a1), BBlock(bmapstart, a2), BBlock(bmapstart, a3), BBlock(bmapstart, p);
      && b1 != b2 && b1 != b3 && b1 != b4 && b2 != b3 && b2 != b4 && b3 != b4
      && bmapstart <= b1 <= BBlock(bmapstart, size) && bmapstart <= b2 <= BBlock(bmapstart, size)
      && bmapstart <= b3 <= BBlock(bmapstart, size) && bmapstart <= b4 <= BBlock(bmapstart, size)
  {
  }

  lemma LogsOfFour(bmapstart: nat, inodestart: nat, s: Fs, s': Fs, n: nat, l: set<nat>)
    requires s.Shape() && s'.Shape() && n < |s.inodes| == |s'.inodes|
    requires s.Addr(Direct(n, 11)) != 0 && s.Ptr(n) == 0 && s'.Ptr(n) != 0
    requires Logs(bmapstart, inodestart, s, s', n, 11 * BSIZE + 1, 3 * BSIZE, 3 * BSIZE, {}, l)
    ensures
      var a0, a1, a2, a3, p := s'.Addr(DataSlot(n, 11)), s'.Addr(DataSlot(n, 12)), s'.Addr(DataSlot(n, 13)),
                               s'.Addr(DataSlot(n, 14)), s'.Ptr(n);
      && a0 != 0 && a1 != 0 && a2 != 0 && a3 != 0
      && l == {a0, a1, a2, a3, p}
              + {BBlock(bmapstart, a1), BBlock(bmapstart, a2), BBlock(bmapstart, a3), BBlock(bmapstart, p)}
              + {IBlock(inodestart, n)}
  {
    hide Bit, WordAt, WriteSet, BBlock, IBlock;
    assert TouchedEnd(11 * BSIZE + 1, 3 * BSIZE, 3 * BSIZE) == 15;
    WriteSetOfFour(bmapstart, s, s', n);
  }

  lemma CountTen(a0: nat, a1: nat, a2: nat, a3: nat, p: nat, b1: nat, b2: nat, b3: nat, b4: nat, i: nat, m: nat)
    requires a0 != a1 && a0 != a2 && a0 != a3 && a0 != p
    requires a1 != a2 && a1 != a3 && a1 != p && a2 != a3 && a2 != p && a3 != p
    requires a0 >= m && a1 >= m && a2 >= m && a3 >= m && p >= m
    requires b1 != b2 && b1 != b3 && b1 != b4 && b2 != b3 && b2 != b4 && b3 != b4
    requires i < b1 < m && i < b2 < m && i < b3 < m && i < b4 < m
    ensures |{a0, a1, a2, a3, p} + {b1, b2, b3, b4} + {i}| == MAXOPBLOCKS
  {
    assert |{a0, a1, a2, a3, p}| == 5 && |{b1, b2, b3, b4}| == 4;
    assert {a0, a1, a2, a3, p} !! {b1, b2, b3, b4};
  }

  lemma OwnsIts(s: Fs, t: Slot)
    requires Owners(s) && s.Has(t) && s.Addr(t) != 0
    ensures s.nmeta <= s.Addr(t) < |s.blocks| && s.Addr(t) in s.owner && s.owner[s.Addr(t)] == t
  {
    assert SlotOk(s, t);
    assert OwnedOk(s, s.Addr(t));
  }

  lemma WriteSetOfFour(bmapstart: nat, s: Fs, s': Fs, n: nat)
    requires s.Shape() && s'.Shape() && n < |s.inodes| == |s'.inodes|
    requires s.Addr(Direct(n, 11)) != 0 && s.Ptr(n) == 0 && s'.Ptr(n) != 0
    ensures
      var a0, a1, a2, a3, p := s'.Addr(DataSlot(n, 11)), s'.Addr(DataSlot(n, 12)), s'.Addr(DataSlot(n, 13)),
                               s'.Addr(DataSlot(n, 14)), s'.Ptr(n);
      WriteSet(bmapstart, s, s', n, 11, 15)
      == {a0, a1, a2, a3, p}
         + {BBlock(bmapstart, a1), BBlock(bmapstart, a2), BBlock(bmapstart, a3), BBlock(bmapstart, p)}
  {
    hide Bit, WordAt, BBlock;
    var lo := 11;
    assert WriteSet(bmapstart, s, s', n, lo, lo) == PtrSet(bmapstart, s, s', n);
    assert WriteSet(bmapstart, s, s', n, lo, lo + 1)
           == WriteSet(bmapstart, s, s', n, lo, lo) + BlockSet(bmapstart, s, s', n, lo);
    assert WriteSet(bmapstart, s, s', n, lo, lo + 2)
           == WriteSet(bmapstart, s, s', n, lo, lo + 1) + BlockSet(bmapstart, s, s', n, lo + 1);
    assert WriteSet(bmapstart, s, s', n, lo, lo + 3)
           == WriteSet(bmapstart, s, s', n, lo, lo + 2) + BlockSet(bmapstart, s, s', n, lo + 2);
    assert WriteSet(bmapstart, s, s', n, lo, lo + 4)
           == WriteSet(bmapstart, s, s', n, lo, lo + 3) + BlockSet(bmapstart, s, s', n, lo + 3);
  }

  lemma JoinParts(w: set<nat>, b: set<nat>, d: set<nat>, m: set<nat>, d': set<nat>, m': set<nat>, p: set<nat>)
    requires w <= d + m + p && b <= d' + m' + p && d <= d' && m <= m'
    ensures w + b <= d' + m' + p
  {
  }

  lemma SubsetSize(a: set<nat>, b: set<nat>)
    requires a <= b
    ensures |a| <= |b|
  {
    assert b == a + (b - a);
  }

  lemma ChunkLogged(bmapstart: nat, inodestart: nat, s: Fs, s': Fs, n: nat, off: nat, len: nat, limit: nat, l: set<nat>)
    requires Inv(s) && n < |s.inodes| && off <= s.inodes[n].size
    requires len <= 3 * BSIZE && off + len <= MAXFILE * BSIZE
    requires Logs(bmapstart, inodestart, s, s', n, off, len, Copied(off, len, limit, 0), {}, l)
    ensures |l| <= MAXOPBLOCKS
  {
    hide Inv, Logs;
    CopiedEnds(off, len, limit, 0);
    ChunkBound(bmapstart, inodestart, s, s', n, off, len, Copied(off, len, limit, 0), l);
  }

  lemma EndsBefore(off: nat, tot: nat, len: nat)
    requires tot < len && (tot > 0 ==> (off + tot) % BSIZE == 0)
    ensures BlocksEnd(off, tot) < BlocksEnd(off, len)
  {
  }

  /** A copy that stops short stops before a block that the whole write would touch. */
  lemma {:induction false} CopiedEnds(off: nat, len: nat, limit: nat, tot: nat)
    requires tot <= len && (0 < tot < len ==> (off + tot) % BSIZE == 0)
    ensures
      var count := Copied(off, len, limit, tot);
      count < len ==> BlocksEnd(off, count) < BlocksEnd(off, len)
    decreases len - tot
  {
    hide Copied, BlocksEnd;
    CopiedStep(off, len, limit, tot);
    if tot < len {
      EndsBefore(off, tot, len);
      var m := Chunk(off + tot, len - tot);
      if tot + m <= limit {
        CopiedEnds(off, len, limit, tot + m);
      }
    }
  }

  lemma WroteMore(s: Fs, s1: Fs, s2: Fs, n: nat, off: nat, src: seq<byte>, i: nat, n1: nat, count: nat, seen: nat)
    requires Inv(s1) && i + n1 <= |src| && count <= seen <= n1 && WroteBytes(s, s1, n, off, src[..i], [])
    requires WroteBytes(s1, s2, n, off + i, src[i..i + n1][..count], src[i..i + n1][count..seen])
    ensures WroteBytes(s, s2, n, off, src[..i + count], src[i + count..i + seen])
    ensures n < |s2.inodes| && off + i + count <= s2.inodes[n].size
  {
    hide Bit, WordAt, Inv, Holds, OtherFiles;
    WroteThen(s, s1, s2, n, off, src[..i], src[i..i + n1][..count], src[i..i + n1][count..seen]);
    SlicesOfSlice(src, i, n1, count, seen);
  }

  lemma SlicesOfSlice(src: seq<byte>, i: nat, n1: nat, count: nat, seen: nat)
    requires i + n1 <= |src| && count <= seen <= n1
    ensures src[..i] + src[i..i + n1][..count] == src[..i + count]
    ensures src[i..i + n1][count..seen] == src[i + count..i + seen]
  {
    var chunk := src[i..i + n1];
    assert forall k :: 0 <= k < n1 ==> chunk[k] == src[i + k];
    assert chunk[count..seen] == src[i + count..i + seen];
    assert src[..i] + chunk[..count] == src[..i + count];
  }

  /** How far a write of `len` bytes that counts `count` of them got: to the fault. */
  function Fetched(len: nat, limit: nat, count: nat): nat {
    if count == len then len else limit
  }

  class FileSystem {
    const nmeta: nat
    const bmapstart: nat
    const inodestart: nat
    var bitmap: seq<bv8>
    var blocks: seq<Block>
    var inodes: seq<Inode>
    ghost var owner: map<nat, Slot>
    ghost var logged: set<nat>       // blocks passed to log_write in this transaction

    ghost function Image(): Fs
      reads this
    {
      Fs(nmeta, bitmap, blocks, inodes, owner)
    }

    /** Between operations no file has holes either. */
    ghost predicate Valid()
      reads this
    {
      Inv(Image())
    }

    constructor (s: Fs, bmapstart: nat, inodestart: nat)
      requires Inv(s)
      ensures Valid() && Image() == s && logged == {}
      ensures this.bmapstart == bmapstart && this.inodestart == inodestart
    {
      nmeta, bitmap, blocks, inodes, owner := s.nmeta, s.bitmap, s.blocks, s.inodes, s.owner;
      this.bmapstart, this.inodestart := bmapstart, inodestart;
      logged := {};
    }

    /** balloc: the lowest free block, zeroed. None is the "out of blocks" panic. */
    method Balloc() returns (r: Option<nat>)
      requires Image().Shape()
      modifies this`bitmap, this`blocks, this`logged
      ensures r.None? ==> Image() == old(Image()) && logged == old(logged)
      ensures r.None? <==> AllUsed(old(Image()))
      ensures r.Some? ==>
                && r.value < |old(blocks)| && !old(Image()).Used(r.value)
                && (forall c :: 0 <= c < r.value ==> old(Image()).Used(c))
                && Image() == old(Image()).Alloc(r.value)
                && logged == old(logged) + {BBlock(bmapstart, r.value), r.value}
    {
      hide Bit, SetBit, Mask;
      var b := 0;
      while b < |blocks|
        invariant b % BPB == 0 && Image() == old(Image()) && logged == old(logged)
        invariant forall c :: 0 <= c < b && c < |blocks| ==> Image().Used(c)
        decreases |blocks| - b
      {
        var bi := FindFree(b);
        if bi < BPB && b + bi < |blocks| {
          SetHere(bitmap, b, bi);
          bitmap := bitmap[b / 8 + bi / 8 := bitmap[b / 8 + bi / 8] | Mask(bi % 8)];
          logged := logged + {BBlock(bmapstart, b + bi)};
          blocks := blocks[b + bi := Zero()];
          logged := logged + {b + bi};
          return Some(b + bi);
        }
        b := b + BPB;
      }
      return None;
    }

    /** balloc's inner loop: the first clear bit of one free map block. */
    method FindFree(b: nat) returns (bi: nat)
      requires Image().Shape() && b % BPB == 0 && b < |blocks|
      ensures bi <= BPB && b + bi <= |blocks|
      ensures forall c :: b <= c < b + bi ==> Image().Used(c)
      ensures bi == BPB || b + bi == |blocks| || !Image().Used(b + bi)
    {
      hide Bit, Mask;
      bi := 0;
      while bi < BPB && b + bi < |blocks|
        invariant 0 <= bi <= BPB && b + bi <= |blocks|
        invariant forall c :: b <= c < b + bi ==> Image().Used(c)
      {
        BitHere(bitmap, b, bi);
        var m := Mask(bi % 8);
        if bitmap[b / 8 + bi / 8] & m == 0 {
          return;
        }
        bi := bi + 1;
      }
    }

    /** balloc for an empty slot, and storing the new number there. */
    method Fill(t: Slot) returns (r: Option<nat>)
      requires Owners(Image()) && Image().Has(t) && Image().Addr(t) == 0 && (t.Entry? ==> Image().Ptr(t.inum) != 0)
      modifies this`bitmap, this`blocks, this`inodes, this`owner, this`logged
      ensures r.None? ==> Image() == old(Image()) && logged == old(logged) && AllUsed(Image())
      ensures r.Some? ==>
                && r.value < |old(blocks)| && !old(Image()).Used(r.value)
                && Owners(Image()) && Grows(old(Image()), Image()) && SameFiles(old(Image()), Image())
                && Image() == Added(old(Image()), t, r.value)
                && Image().Has(t) && Image().Addr(t) == r.value && r.value > 0
                && (forall u :: old(Image()).Has(u) && u != t ==>
                      Image().Has(u) && Image().Addr(u) == old(Image()).Addr(u))
      ensures r.Some? ==> logged == old(logged) + {BBlock(bmapstart, r.value), r.value}
                                    + if t.Entry? then {old(Image()).Ptr(t.inum)} else {}
    {
      hide Bit, SetBit, WordAt, PutWord;
      r := Balloc();
      if r.Some? {
        var b := r.value;
        AddedGrows(old(Image()), t, b);
        match t {
          case Direct(n, i) =>
            inodes := inodes[n := Inode(inodes[n].size, inodes[n].addrs[i := b])];
          case Pointer(n) =>
            inodes := inodes[n := Inode(inodes[n].size, inodes[n].addrs[NDIRECT := b])];
          case Entry(n, j) =>
            var p := inodes[n].addrs[NDIRECT];
            blocks := blocks[p := PutWord(blocks[p], j, b)];
            logged := logged + {p};
        }
        owner := owner[b := t];
      }
    }

    /** bmap: the block number of the file's bn-th block, allocating what is missing.
        None is one of its panics: bn is out of range, or no block is free. */
    method Bmap(n: nat, bn: nat) returns (r: Option<nat>)
      requires Owners(Image()) && n < |inodes|
      modifies this`bitmap, this`blocks, this`inodes, this`owner, this`logged
      ensures bn >= MAXFILE ==> r.None? && Image() == old(Image())
      ensures r.None? && bn < MAXFILE ==> AllUsed(Image()) && Need(old(Image()), n, bn, bn + 1) > |Free(old(Image()))|
      ensures r.Some? ==> MapsTo(old(Image()), old(logged), n, bn, r.value)
      ensures bn < MAXFILE && old(Image()).Addr(DataSlot(n, bn)) != 0 ==>
                r.Some? && Image() == old(Image()) && logged == old(logged)
    {
      hide Bit, WordAt, Grows, Added, Owners, Took, Free, AllUsed;
      OwnersHasShape(Image());
      if bn < NDIRECT {
        var addr := inodes[n].addrs[bn];
        if addr == 0 {
          r := Fill(Direct(n, bn));
          if r.None? {
            NoneFree(Image());
            return;
          }
          DirectMapped(bmapstart, old(Image()), n, bn, r.value);
          return;
        }
        GrowsSelf(Image(), n, bn, bn + 1);
        PaidSelf(Image(), n, bn);
        return Some(addr);
      }
      if bn - NDIRECT < NINDIRECT {
        r := BmapIndirect(n, bn - NDIRECT);
        return;
      }
      return None;
    }

    /** What bmap leaves: block bn of file n has number a, and nothing else moved. */
    ghost predicate MapsTo(s: Fs, logged0: set<nat>, n: nat, bn: nat, a: nat)
      reads this
      requires s.Shape() && s.Has(DataSlot(n, bn))
    {
      && Owners(Image()) && Grows(s, Image()) && OnlyFilled(s, Image(), n, bn, bn + 1)
      && Image().Has(DataSlot(n, bn)) && Image().Addr(DataSlot(n, bn)) == a > 0
      && logged == logged0 + MapSet(bmapstart, s, Image(), n, bn)
      && Paid(s, Image(), n, bn, bn + 1)
    }

    /** bmap's first half for an indirect block: get the indirect block itself. */
    method MapPointer(n: nat) returns (ok: bool)
      requires Owners(Image()) && n < |inodes|
      modifies this`bitmap, this`blocks, this`inodes, this`owner, this`logged
      ensures !ok ==> Image() == old(Image()) && AllUsed(Image()) && Image().Ptr(n) == 0
      ensures ok ==>
                && Owners(Image()) && Grows(old(Image()), Image()) && Image().Ptr(n) != 0
                && SameFiles(old(Image()), Image()) && Took(old(Image()), Image())
                && logged == old(logged) + PtrSet(bmapstart, old(Image()), Image(), n)
                && |Free(Image())| + (if old(Image()).Ptr(n) == 0 then 1 else 0) == |Free(old(Image()))|
      ensures ok ==> OthersSame(old(Image()), Image(), Pointer(n))
      ensures old(Image()).Ptr(n) != 0 ==> ok && Image() == old(Image())
    {
      hide Bit, WordAt, Added, Free;
      if inodes[n].addrs[NDIRECT] == 0 {
        var r := Fill(Pointer(n));
        if r.None? {
          return false;
        }
        AddedTook(old(Image()), Pointer(n), r.value);
      }
      return true;
    }

    method BmapIndirect(n: nat, j: nat) returns (r: Option<nat>)
      requires Owners(Image()) && n < |inodes| && j < NINDIRECT
      modifies this`bitmap, this`blocks, this`inodes, this`owner, this`logged
      ensures r.None? ==>
                && AllUsed(Image())
                && Need(old(Image()), n, NDIRECT + j, NDIRECT + j + 1) > |Free(old(Image()))|
      ensures r.Some? ==> MapsTo(old(Image()), old(logged), n, NDIRECT + j, r.value)
      ensures old(Image()).Addr(Entry(n, j)) != 0 ==> r.Some? && Image() == old(Image()) && logged == old(logged)
    {
      hide Bit, WordAt, Grows, Added, Owners, Took, Free, AllUsed;
      OwnersHasShape(Image());
      var ok := MapPointer(n);
      OwnersHasShape(Image());
      ghost var s1 := Image();
      if !ok {
        NoneFree(s1);
        return None;
      }
      var addr := WordAt(blocks[inodes[n].addrs[NDIRECT]], j);
      if addr == 0 {
        r := Fill(Entry(n, j));
        if r.None? {
          NoneFree(s1);
          return;
        }
        AddedTook(s1, Entry(n, j), r.value);
        GrowsThen(old(Image()), s1, Image());
        TookThen(old(Image()), s1, Image());
        assert Image().Addr(Pointer(n)) == s1.Addr(Pointer(n));
        return;
      }
      return Some(addr);
    }

    /** bfree; false is the "freeing free block" panic. */
    method Bfree(b: nat) returns (ok: bool)
      requires Image().Shape() && b < |blocks|
      modifies this`bitmap, this`logged
      ensures ok == old(Image()).Used(b)
      ensures !ok ==> bitmap == old(bitmap) && logged == old(logged)
      ensures ok ==> bitmap == ClearBit(old(bitmap), b) && logged == old(logged) + {BBlock(bmapstart, b)}
    {
      var at := b / BPB * (BPB / 8) + b % BPB / 8;
      assert at == b / 8 && b % BPB % 8 == b % 8;
      var m := Mask(b % BPB % 8);
      if bitmap[at] & m == 0 {
        return false;
      }
      bitmap := bitmap[at := bitmap[at] & !m];
      logged := logged + {BBlock(bmapstart, b)};
      return true;
    }

    /** itrunc: give back every block of inode n. It never frees a free block, and it
        logs the free map blocks of all of them and the inode's block. */
    method Itrunc(n: nat) returns (ok: bool)
      requires Valid() && n < |inodes|
      modifies this`bitmap, this`inodes, this`owner, this`logged
      ensures ok
      ensures Valid() && Truncated(old(Image()), Image(), n)
      ensures logged == old(logged) + Maps(bmapstart, BlocksOf(old(Image()), n)) + {IBlock(inodestart, n)}
    {
      hide Bit, ClearBit, WordAt, Owners, OwnersButFirst, Truncated, Maps, BlocksOf;
      ok := FreeDirect(n);
      if inodes[n].addrs[NDIRECT] != 0 {
        ok := FreeIndirect(n, old(Image()), old(logged));
      } else {
        ReleaseNothing(old(Image()), Image(), n);
      }
      ReleasedIsTruncated(old(Image()), Image(), n);
      inodes := inodes[n := inodes[n].(size := 0)];
      TruncatedKeys(old(Image()), Image(), n);
      logged := logged + {IBlock(inodestart, n)};
    }

    method FreeDirect(n: nat) returns (ok: bool)
      requires Owners(Image()) && n < |inodes|
      modifies this`bitmap, this`inodes, this`owner, this`logged
      ensures ok
      ensures Owners(Image()) && Released(old(Image()), Image(), Progress(n, NDIRECT, 0, false))
      ensures inodes[n].addrs[NDIRECT] == old(Image()).Ptr(n)
      ensures logged == old(logged) + Maps(bmapstart, old(owner).Keys - owner.Keys)
    {
      hide Bit, ClearBit, WordAt, Owners, Maps;
      hide BBlock;
      MapsNone(bmapstart, owner.Keys);
      var i := 0;
      ok := true;
      OwnersShape(Image());
      while i < NDIRECT
        invariant 0 <= i <= NDIRECT && ok
        invariant Owners(Image()) && Released(old(Image()), Image(), Progress(n, i, 0, false))
        invariant logged == old(logged) + Maps(bmapstart, old(owner).Keys - owner.Keys)
      {
        ReleaseDirect(old(Image()), Image(), n, i);
        var b := inodes[n].addrs[i];
        if b != 0 {
          DetachKeeps(Image(), n, i);
          OwnsIts(Image(), Direct(n, i));
          MapsMore(bmapstart, old(owner).Keys, owner.Keys, b);
          ok := Bfree(b);
          inodes := inodes[n := Inode(inodes[n].size, inodes[n].addrs[i := 0])];
          owner := owner - {b};
        }
        i := i + 1;
      }
    }

    method FreeIndirect(n: nat, ghost s: Fs, ghost l: set<nat>) returns (ok: bool)
      requires Owners(s) && Owners(Image()) && Released(s, Image(), Progress(n, NDIRECT, 0, false)) && s.Ptr(n) != 0
      requires logged == l + Maps(bmapstart, s.owner.Keys - owner.Keys)
      modifies this`bitmap, this`inodes, this`owner, this`logged
      ensures ok
      ensures Owners(Image()) && Released(s, Image(), Progress(n, NDIRECT, NINDIRECT, true))
      ensures logged == l + Maps(bmapstart, s.owner.Keys - owner.Keys)
    {
      hide BBlock, Maps;
      hide Bit, ClearBit, WordAt, Owners, OwnersButFirst;
      OwnersButNone(Image(), n);
      var p := inodes[n].addrs[NDIRECT];
      var j := 0;
      ok := true;
      while j < NINDIRECT
        invariant 0 <= j <= NINDIRECT && ok
        invariant OwnersButFirst(Image(), n, j) && Released(s, Image(), Progress(n, NDIRECT, j, false))
        invariant inodes[n].addrs[NDIRECT] == p && blocks == s.blocks
        invariant logged == l + Maps(bmapstart, s.owner.Keys - owner.Keys)
      {
        ReleaseEntry(s, Image(), n, j);
        FreeEntryKeeps(Image(), n, j);
        var b := WordAt(blocks[p], j);
        if b != 0 {
          MapsMore(bmapstart, s.owner.Keys, owner.Keys, b);
          ok := Bfree(b);
          owner := owner - {b};
        }
        j := j + 1;
      }
      ReleasePointer(s, Image(), n);
      DropPointerKeeps(Image(), n);
      MapsMore(bmapstart, s.owner.Keys, owner.Keys, p);
      ok := Bfree(p);
      inodes := inodes[n := Inode(inodes[n].size, inodes[n].addrs[NDIRECT := 0])];
      owner := owner - {p};
    }

    /** After `tot` bytes of writei's loop: contents, log and free blocks. */
    ghost predicate Underway(s: Fs, n: nat, off: nat, src: seq<byte>, tot: nat, l: set<nat>)
      reads this
    {
      && Inv(s) && n < |s.inodes| && off <= s.inodes[n].size && off + |src| <= MAXFILE * BSIZE
      && Writing(s, Image(), n, off, src, tot, FileOf(s, n))
      && LogsSoFar(bmapstart, s, Image(), n, off / BSIZE, BlocksEnd(off, tot), l, logged, true)
      && Paid(s, Image(), n, off / BSIZE, BlocksEnd(off, tot))
    }

    /** One round of writei's loop, with `part` bytes of the chunk before a fault; if that
        is not all of it, the round is the last one. False is the "out of blocks" panic. */
    method WriteRound(n: nat, off: nat, src: seq<byte>, tot: nat, part: nat, ghost s: Fs, ghost l: set<nat>)
      returns (ok: bool)
      requires Underway(s, n, off, src, tot, l) && tot < |src| && part <= Chunk(off + tot, |src| - tot)
      modifies this`bitmap, this`blocks, this`inodes, this`owner, this`logged
      ensures !ok ==> AllUsed(Image()) && BlocksEnd(off, tot) < MAXFILE
      ensures !ok ==> s.Shape() && Need(s, n, off / BSIZE, BlocksEnd(off, tot) + 1) > |Free(s)|
      ensures ok && part == Chunk(off + tot, |src| - tot) ==> Underway(s, n, off, src, tot + part, l)
      ensures ok && part < Chunk(off + tot, |src| - tot) ==>
                && Stopped(s, Image(), n, off, src[..tot], src[tot..tot + part], BlocksEnd(off, tot) + 1)
                && LogsSoFar(bmapstart, s, Image(), n, off / BSIZE, BlocksEnd(off, tot) + 1, l, logged, false)
                && Paid(s, Image(), n, off / BSIZE, BlocksEnd(off, tot) + 1)
    {
      hide Bit, WordAt, Inv, Owners, Holds, OtherFiles, OnlyFilled, Writing, WriteSet, NoHoles, Overwrite, Stopped;
      hide BlocksEnd, LogsSoFar, Paid, Need, Free, AllUsed, MapSet;
      var m := Chunk(off + tot, |src| - tot);
      ghost var c, s1, l1, lo, hi := FileOf(s, n), Image(), logged, off / BSIZE, BlocksEnd(off, tot);
      InvShape(s);
      WritingHere(s, s1, n, off, src, tot, m);
      var b := WriteOne(n, off + tot, src[tot..tot + m], part, Overwrite(c, off, src[..tot]));
      if b.None? {
        OverBudget(s, s1, n, lo, hi);
        return false;
      }
      PaidThen(s, s1, Image(), n, lo, hi);
      LogsStep(bmapstart, s, s1, Image(), n, lo, hi, l, l1, logged, part == m);
      assert src[tot..tot + m][..part] == src[tot..tot + part];
      if part == m {
        WritingStep(s, s1, Image(), n, off, src, tot, m, c);
      } else {
        WritingFailed(s, s1, Image(), n, off, src, tot, part);
      }
      return true;
    }

    /** writei of `src` at `off`, of which only the first `limit` bytes can be read: whole
        chunks are counted and logged, and the bytes before the fault are in the last
        chunk's block. It runs out of blocks exactly when the blocks it maps lack more
        than are free. */
    method Writei(n: nat, off: nat, src: seq<byte>, limit: nat) returns (r: Written)
      requires Valid() && n < |inodes| && off < 0x1_0000_0000 && |src| < 0x1_0000_0000
      modifies this`bitmap, this`blocks, this`inodes, this`owner, this`logged
      ensures r.Rejected? <==>
                off > old(inodes[n].size) || off + |src| >= 0x1_0000_0000 || off + |src| > MAXFILE * BSIZE
      ensures r.Rejected? ==> Image() == old(Image()) && logged == old(logged)
      ensures r.NoSpace? <==> !r.Rejected? && TooMuch(old(Image()), n, off, |src|, Copied(off, |src|, limit, 0))
      ensures r.NoSpace? ==> AllUsed(Image())
      ensures r.Wrote? ==> Valid() && r.count == Copied(off, |src|, limit, 0) <= Fetched(|src|, limit, r.count) <= |src|
      ensures r.Wrote? ==>
                WroteBytes(old(Image()), Image(), n, off, src[..r.count], src[r.count..Fetched(|src|, limit, r.count)])
      ensures r.Wrote? ==> Filled(old(Image()), Image(), n, off / BSIZE, TouchedEnd(off, |src|, r.count))
      ensures r.Wrote? ==>
                Logs(bmapstart, inodestart, old(Image()), Image(), n, off, |src|, r.count, old(logged), logged)
    {
      hide Bit, WordAt, Inv, WroteBytes, LogsSoFar, NoHoles, Stopped, BlocksEnd, Paid, Need, Free, AllUsed, Filled;
      hide Underway, TooMuch, Copied;
      if off > inodes[n].size || off + |src| >= 0x1_0000_0000 {
        return Rejected;
      }
      if off + |src| > MAXFILE * BSIZE {
        return Rejected;
      }
      ghost var s := Image();
      InvShape(s);
      Begin(n, off, src);
      var tot := 0;
      while tot < |src|
        invariant 0 <= tot <= |src| && tot <= limit && (0 < tot < |src| ==> (off + tot) % BSIZE == 0)
        invariant Underway(s, n, off, src, tot, old(logged))
        invariant Copied(off, |src|, limit, tot) == Copied(off, |src|, limit, 0)
      {
        var m := Chunk(off + tot, |src| - tot);
        var part := if tot + m <= limit then m else limit - tot;
        CopiedStep(off, |src|, limit, tot);
        TouchedBeyond(off, |src|, limit, tot);
        var ok := WriteRound(n, off, src, tot, part, s, old(logged));
        if !ok {
          IsTooMuch(s, n, off, |src|, tot, Copied(off, |src|, limit, 0));
          return NoSpace;
        }
        if part < m {
          FinishWrite(n, off + tot, s, off, src[..tot], src[tot..limit], BlocksEnd(off, tot) + 1, old(logged), false);
          NotTooMuch(s, Image(), n, off, |src|, tot);
          return Wrote(tot);
        }
        tot := tot + m;
      }
      CopiedStep(off, |src|, limit, tot);
      Arrived(s, n, off, src, old(logged));
      FinishWrite(n, off + tot, s, off, src[..tot], [], BlocksEnd(off, tot), old(logged), true);
      assert src[tot..|src|] == [];
      NotTooMuch(s, Image(), n, off, |src|, tot);
      return Wrote(tot);
    }

    lemma Begin(n: nat, off: nat, src: seq<byte>)
      requires Valid() && n < |inodes| && off <= inodes[n].size && off + |src| <= MAXFILE * BSIZE
      ensures Underway(Image(), n, off, src, 0, logged)
    {
      hide Bit, WordAt, Inv, Writing;
      InvShape(Image());
      WritingStart(Image(), n, off, src);
      LogsStart(bmapstart, Image(), n, off / BSIZE, logged);
      assert Need(Image(), n, off / BSIZE, off / BSIZE) == 0;
    }

    lemma Arrived(s: Fs, n: nat, off: nat, src: seq<byte>, l: set<nat>)
      requires Underway(s, n, off, src, |src|, l)
      ensures Stopped(s, Image(), n, off, src[..|src|], [], BlocksEnd(off, |src|))
      ensures LogsSoFar(bmapstart, s, Image(), n, off / BSIZE, BlocksEnd(off, |src|), l, logged, true)
      ensures Paid(s, Image(), n, off / BSIZE, BlocksEnd(off, |src|))
      ensures Inv(s) && n < |s.inodes| && off <= s.inodes[n].size
    {
      hide Inv, Writing, LogsSoFar, Paid, BlocksEnd, Stopped;
      WritingDone(s, Image(), n, off, src);
    }

    /** The end of writei: extend the size, write the inode back. */
    method FinishWrite(n: nat, end: nat, ghost s: Fs, ghost off: nat, ghost d: seq<byte>, ghost e: seq<byte>,
                       ghost hi: nat, ghost l: set<nat>, ghost exact: bool)
      requires Inv(s) && n < |s.inodes| && off <= s.inodes[n].size && end == off + |d|
      requires Stopped(s, Image(), n, off, d, e, hi)
      requires LogsSoFar(bmapstart, s, Image(), n, off / BSIZE, hi, l, logged, exact)
      requires Paid(s, Image(), n, off / BSIZE, hi)
      modifies this`inodes, this`logged
      ensures Valid() && WroteBytes(s, Image(), n, off, d, e)
      ensures LogsSoFar(bmapstart, s, Image(), n, off / BSIZE, hi, l + {IBlock(inodestart, n)}, logged, exact)
      ensures Filled(s, Image(), n, off / BSIZE, hi)
    {
      hide Bit, WordAt, Inv, Holds, OtherFiles, WriteSet, Paid;
      ghost var c := Visible(FileOf(s, n), off, d, e);
      HoldsPrefix(Image(), n, Overwrite(FileOf(s, n), off, d + e), |c|);
      WritingEnd(s, Image(), n, off / BSIZE, hi, c);
      LogsResized(bmapstart, s, Image(), n, |c|, off / BSIZE, hi, l, logged, exact);
      ghost var s1 := Image();
      if end > inodes[n].size {
        inodes := inodes[n := Inode(end, inodes[n].addrs)];
      }
      assert inodes == s1.Resize(n, |c|).inodes;
      ResizePaid(s, s1, n, |c|, off / BSIZE, hi);
      logged := logged + {IBlock(inodestart, n)};
    }

    /** One round of readi: bmap finds the block, which is there. */
    method ReadOne(n: nat, at: nat, m: nat) returns (chunk: seq<byte>)
      requires Valid() && n < |inodes| && m > 0 && at + m <= inodes[n].size && at % BSIZE + m <= BSIZE
      modifies this`bitmap, this`blocks, this`inodes, this`owner, this`logged
      ensures Image() == old(Image()) && logged == old(logged)
      ensures chunk == FileOf(Image(), n)[at..at + m]
    {
      hide Bit, WordAt, Inv, Owners, Holds, OnlyFilled, Grows;
      InvShape(Image());
      FileAt(Image(), n, at, m);
      var b := Bmap(n, at / BSIZE);
      chunk := blocks[b.value][at % BSIZE..at % BSIZE + m];
    }

    /** readi of `len` bytes at `off`, of which the destination takes only the first
        `limit`; None is -1. It never allocates, so it never logs. */
    method Readi(n: nat, off: nat, len: nat, limit: nat) returns (r: Option<seq<byte>>)
      requires Valid() && n < |inodes| && off < 0x1_0000_0000 && len < 0x1_0000_0000
      modifies this`bitmap, this`blocks, this`inodes, this`owner, this`logged
      ensures Image() == old(Image()) && logged == old(logged)
      ensures off > inodes[n].size || off + len >= 0x1_0000_0000 ==> r == Some([])
      ensures off <= inodes[n].size && off + len < 0x1_0000_0000 ==>
                var end := if off + len > inodes[n].size then inodes[n].size else off + len;
                r == if Copied(off, end - off, limit, 0) == end - off then Some(FileOf(Image(), n)[off..end]) else None
    {
      hide Inv, NoHoles, Holds, Copied;
      if off > inodes[n].size || off + len >= 0x1_0000_0000 {
        return Some([]);
      }
      var left := if off + len > inodes[n].size then inodes[n].size - off else len;
      r := ReadLoop(n, off, left, limit);
    }

    method ReadLoop(n: nat, off: nat, left: nat, limit: nat) returns (r: Option<seq<byte>>)
      requires Valid() && n < |inodes| && off + left <= inodes[n].size
      modifies this`bitmap, this`blocks, this`inodes, this`owner, this`logged
      ensures Image() == old(Image()) && logged == old(logged)
      ensures r == if Copied(off, left, limit, 0) == left then Some(FileOf(Image(), n)[off..off + left]) else None
    {
      hide Inv, NoHoles, Holds, Copied;
      CopiedStep(off, left, limit, 0);
      var tot, data := 0, [];
      ghost var s := Image();
      while tot < left
        invariant 0 <= tot <= left && Image() == s && logged == old(logged)
        invariant data == FileOf(s, n)[off..off + tot]
        invariant Copied(off, left, limit, tot) == Copied(off, left, limit, 0)
      {
        var m := Chunk(off + tot, left - tot);
        CopiedStep(off, left, limit, tot);
        var chunk := ReadOne(n, off + tot, m);
        if tot + m > limit {
          return None;
        }
        JoinSlices(FileOf(s, n), off, tot, m);
        data := data + chunk;
        tot := tot + m;
      }
      CopiedStep(off, left, limit, left);
      return Some(data);
    }

    /** One transaction of filewrite: begin_op, writei of one chunk, end_op. `used` is the
        number of blocks it logged. */
    method WriteTransaction(n: nat, off: nat, chunk: seq<byte>, limit: nat) returns (w: Written, ghost used: nat)
      requires Valid() && n < |inodes| && off < 0x1_0000_0000 && |chunk| <= 3 * BSIZE
      modifies this`bitmap, this`blocks, this`inodes, this`owner, this`logged
      ensures used == (if w.Wrote? then |logged| else 0) && used <= MAXOPBLOCKS
      ensures w.Rejected? <==>
                off > old(inodes[n].size) || off + |chunk| >= 0x1_0000_0000 || off + |chunk| > MAXFILE * BSIZE
      ensures w.Rejected? ==> Image() == old(Image())
      ensures w.NoSpace? <==> !w.Rejected? && TooMuch(old(Image()), n, off, |chunk|, Copied(off, |chunk|, limit, 0))
      ensures w.Wrote? ==> Valid() && w.count <= Fetched(|chunk|, limit, w.count) <= |chunk| && n < |inodes|
      ensures w.Wrote? ==> w.count == Copied(off, |chunk|, limit, 0)
      ensures w.Wrote? ==> Filled(old(Image()), Image(), n, off / BSIZE, TouchedEnd(off, |chunk|, w.count))
      ensures w.Wrote? ==>
                WroteBytes(old(Image()), Image(), n, off, chunk[..w.count],
                           chunk[w.count..Fetched(|chunk|, limit, w.count)])
    {
      hide Inv, WroteBytes, Logs, Filled, TooMuch, AllUsed;
      ghost var s := Image();
      logged := {};
      w := Writei(n, off, chunk, limit);
      used := 0;
      if w.Wrote? {
        ChunkLogged(bmapstart, inodestart, s, Image(), n, off, |chunk|, limit, logged);
        used := |logged|;
        FilledHas(s, Image(), n, off / BSIZE, TouchedEnd(off, |chunk|, w.count));
      }
    }

    /** The first i bytes of src are in the file, for the blocks they lacked. */
    ghost predicate PiecesIn(s: Fs, n: nat, off: nat, src: seq<byte>, i: nat)
      reads this
    {
      && Valid() && n < |inodes| && i <= |src| && off + i <= inodes[n].size
      && WroteBytes(s, Image(), n, off, src[..i], [])
      && Filled(s, Image(), n, off / BSIZE, BlocksEnd(off, i))
    }

    /** One round of filewrite's loop for bytes that begin inside the file. `used` is the
        number of blocks its transaction logged. */
    method WritePiece(n: nat, off: nat, src: seq<byte>, i: nat, limit: nat, ghost s: Fs)
      returns (w: Written, ghost used: nat)
      requires PiecesIn(s, n, off, src, i) && i < |src| && off + i < 0x1_0000_0000
      requires Run(off, |src|, limit, i) == Run(off, |src|, limit, 0)
      modifies this`bitmap, this`blocks, this`inodes, this`owner, this`logged
      ensures used <= MAXOPBLOCKS
      ensures w.Rejected? <==> off + i + Piece(|src| - i) > MAXFILE * BSIZE
      ensures w.Rejected? ==> PiecesIn(s, n, off, src, i)
      ensures w.NoSpace? ==> TooLong(s, n, off, |src|, limit)
      ensures w.Wrote? ==> w.count == Copied(off + i, Piece(|src| - i), Readable(limit, i), 0)
      ensures w.Wrote? && w.count == Piece(|src| - i) ==> PiecesIn(s, n, off, src, i + w.count)
      ensures w.Wrote? && w.count < Piece(|src| - i) ==>
                && w.count <= Readable(limit, i) && i + Readable(limit, i) <= |src|
                && Valid() && Filled(s, Image(), n, off / BSIZE, BlocksEnd(off + i, w.count) + 1)
                && WroteBytes(s, Image(), n, off, src[..i + w.count], src[i + w.count..i + Readable(limit, i)])
    {
      hide Bit, WordAt, Inv, WroteBytes, Filled, TooMuch, TooLong, Run, BlocksEnd, Copied, Piece, Readable;
      ghost var s1 := Image();
      var m := Piece(|src| - i);
      w, used := WriteTransaction(n, off + i, src[i..i + m], Readable(limit, i));
      if w.Rejected? {
        assert inodes == s1.inodes;
        return;
      }
      PieceJoins(s1, n, off, i, m, Readable(limit, i));
      if w.NoSpace? {
        PieceTooLong(s, s1, n, off, |src|, limit, i);
        return;
      }
      ghost var c, seen := w.count, Fetched(m, Readable(limit, i), w.count);
      WroteMore(s, s1, Image(), n, off, src, i, m, c, seen);
      FilledOn(s, s1, Image(), n, off / BSIZE, BlocksEnd(off, i), (off + i) / BSIZE, TouchedEnd(off + i, m, c));
      BlocksEndThen(off, i, c);
      assert c == m ==> src[i + c..i + seen] == [];
    }

    /** filewrite on an inode: one transaction per piece. `off` is the file offset, moved
        along as bytes go in; None is the "out of blocks" panic, exactly when the blocks
        it maps lack more than are free. `peak` is the largest number of blocks any of the
        transactions logged, and `seen` the bytes of src that are in the file's blocks:
        those counted, or with a fault those before it. */
    method FileWrite(n: nat, off: nat, src: seq<byte>, limit: nat)
      returns (r: Option<int>, off': nat, ghost peak: nat, ghost seen: nat)
      requires Valid() && n < |inodes| && off < 0x1_0000_0000 && |src| < 0x8000_0000
      modifies this`bitmap, this`blocks, this`inodes, this`owner, this`logged
      ensures peak <= MAXOPBLOCKS
      ensures r.None? <==> off <= old(inodes[n].size) && TooLong(old(Image()), n, off, |src|, limit)
      ensures r.Some? ==> Valid() && off <= off' <= off + |src|
      ensures r.Some? ==> r.value == if off' - off == |src| then |src| else -1
      ensures r.Some? && off <= old(inodes[n].size) ==>
                && off' == off + Run(off, |src|, limit, 0).counted
                && seen == Run(off, |src|, limit, 0).inPlace && off' - off <= seen <= |src|
                && WroteBytes(old(Image()), Image(), n, off, src[..off' - off], src[off' - off..seen])
      ensures r.Some? && off <= old(inodes[n].size) && off + |src| <= MAXFILE * BSIZE && limit >= |src| ==>
                off' == off + |src|
      ensures r.Some? && off > old(inodes[n].size) ==> Image() == old(Image()) && off' == off
    {
      hide Bit, WordAt, Inv, WroteBytes, Filled, TooLong, TooMuch, BlocksEnd, PiecesIn, Run, Copied, Readable, Piece;
      off', peak, seen := off, 0, 0;
      if off > inodes[n].size {
        r := PastEnd(n, off, src, limit);
        return;
      }
      ghost var s := Image();
      if off + |src| <= MAXFILE * BSIZE {
        RunCounts(off, |src|, limit, 0);
      }
      StartPieces(n, off, src);
      var i := 0;
      while i < |src|
        invariant 0 <= i <= |src| && off' == off + i && off + i < 0x1_0000_0000 && peak <= MAXOPBLOCKS
        invariant PiecesIn(s, n, off, src, i)
        invariant Run(off, |src|, limit, i) == Run(off, |src|, limit, 0)
      {
        var m := Piece(|src| - i);
        RunStep(off, |src|, limit, i);
        var w;
        ghost var used;
        w, used := WritePiece(n, off, src, i, limit, s);
        if w.NoSpace? {
          return None, off', peak, i;
        }
        if w.Rejected? {
          StopPieces(s, n, off, src, i, limit);
          return Some(-1), off', peak, i;
        }
        if used > peak {
          peak := used;
        }
        off' := off' + w.count;
        if w.count != m {
          NotTooLong(s, Image(), n, off, |src|, limit);
          return Some(-1), off', peak, i + Readable(limit, i);
        }
        i := i + m;
      }
      RunStep(off, |src|, limit, i);
      StopPieces(s, n, off, src, i, limit);
      return Some(|src|), off', peak, |src|;
    }

    /** filewrite past the end of the file: the first writei refuses. */
    method PastEnd(n: nat, off: nat, src: seq<byte>, limit: nat) returns (r: Option<int>)
      requires Valid() && n < |inodes| && inodes[n].size < off < 0x1_0000_0000 && |src| < 0x8000_0000
      modifies this`bitmap, this`blocks, this`inodes, this`owner, this`logged
      ensures Image() == old(Image()) && r == Some(if src == [] then 0 else -1)
    {
      if src == [] {
        return Some(0);
      }
      var w;
      ghost var used;
      w, used := WriteTransaction(n, off, src[..Piece(|src|)], limit);
      return Some(-1);
    }

    lemma StartPieces(n: nat, off: nat, src: seq<byte>)
      requires Valid() && n < |inodes| && off <= inodes[n].size
      ensures PiecesIn(Image(), n, off, src, 0)
    {
      hide Bit, WordAt, Inv, WroteBytes, Filled;
      InvShape(Image());
      WroteNothing(Image(), n, off);
      assert src[..0] == [];
      FilledNone(Image(), n, off / BSIZE);
    }

    lemma StopPieces(s: Fs, n: nat, off: nat, src: seq<byte>, i: nat, limit: nat)
      requires PiecesIn(s, n, off, src, i) && BlocksEnd(off, i) == Run(off, |src|, limit, 0).end
      ensures Valid() && WroteBytes(s, Image(), n, off, src[..i], src[i..i])
      ensures !TooLong(s, n, off, |src|, limit)
    {
      hide Inv, WroteBytes, Filled, TooLong;
      assert src[i..i] == [];
      NotTooLong(s, Image(), n, off, |src|, limit);
    }

    /** One round of writei: find the block, copy the chunk into it up to a fault, log it
        if there was none. None is bmap's panic. */
    method WriteOne(n: nat, at: nat, chunk: seq<byte>, part: nat, ghost c: seq<byte>) returns (r: Option<nat>)
      requires Owners(Image()) && Holds(Image(), n, c) && at <= |c| && part <= |chunk|
      requires at % BSIZE + |chunk| <= BSIZE && at + |chunk| <= MAXFILE * BSIZE && |chunk| > 0
      modifies this`bitmap, this`blocks, this`inodes, this`owner, this`logged
      ensures r.None? ==>
                && AllUsed(Image())
                && Need(old(Image()), n, at / BSIZE, at / BSIZE + 1) > |Free(old(Image()))|
      ensures r.Some? ==> Paid(old(Image()), Image(), n, at / BSIZE, at / BSIZE + 1)
      ensures r.Some? ==>
                && Owners(Image())
                && OnlyFilled(old(Image()), Image(), n, at / BSIZE, at / BSIZE + 1)
                && OtherFiles(old(Image()), Image(), n)
                && Image().Addr(DataSlot(n, at / BSIZE)) == r.value != 0
                && Holds(Image(), n, Overwrite(c, at, chunk[..part]))
                && logged == old(logged) + MapSet(bmapstart, old(Image()), Image(), n, at / BSIZE)
                                         + if part == |chunk| then {r.value} else {}
    {
      hide Bit, WordAt, Grows, Holds, OtherFiles, OnlyFilled, Paid, Free, Need, AllUsed, MapSet, Owners;
      HoldsShape(Image(), n, c);
      r := Bmap(n, at / BSIZE);
      if r.Some? {
        ghost var s1 := Image();
        GrowthHolds(old(Image()), s1, n, c);
        GrowsOthers(old(Image()), s1, n);
        var a := r.value;
        ChunkPut(bmapstart, old(Image()), s1, n, at, chunk[..part], c);
        blocks := blocks[a := Splice(blocks[a], at % BSIZE, chunk[..part])];
        if part == |chunk| {
          logged := logged + {a};
        }
      }
    }
  }

  lemma HoldsPrefix(s: Fs, n: nat, c: seq<byte>, k: nat)
    requires Holds(s, n, c) && k <= |c|
    ensures Holds(s, n, c[..k])
  {
  }

  lemma HoldsShape(s: Fs, n: nat, c: seq<byte>)
    requires Holds(s, n, c)
    ensures s.Shape() && n < |s.inodes| && |c| <= MAXFILE * BSIZE
  {
  }

  /** Writing data changes no block number, so the log sets agree. */
  lemma PutMapSet(bmapstart: nat, s: Fs, s1: Fs, s2: Fs, n: nat, bn: nat)
    requires OnlyFilled(s, s1, n, bn, bn + 1) && s2.Shape() && bn < MAXFILE
    requires SameFiles(s1, s2) && forall u :: s1.Has(u) ==> s2.Has(u) && s2.Addr(u) == s1.Addr(u)
    ensures OnlyFilled(s, s2, n, bn, bn + 1)
    ensures MapSet(bmapstart, s, s2, n, bn) == MapSet(bmapstart, s, s1, n, bn)
  {
    assert s1.Addr(Pointer(n)) == s2.Addr(Pointer(n));
  }

  /** bmap gave the block of `at`; the chunk goes into it. */
  lemma ChunkPut(bmapstart: nat, s: Fs, s1: Fs, n: nat, at: nat, chunk: seq<byte>, c: seq<byte>)
    requires Owners(s1) && Holds(s1, n, c) && at <= |c| && at + |chunk| <= MAXFILE * BSIZE && at / BSIZE < MAXFILE
    requires at % BSIZE + |chunk| <= BSIZE && OnlyFilled(s, s1, n, at / BSIZE, at / BSIZE + 1)
    requires OtherFiles(s, s1, n) && Paid(s, s1, n, at / BSIZE, at / BSIZE + 1)
    requires s1.Has(DataSlot(n, at / BSIZE)) && s1.Addr(DataSlot(n, at / BSIZE)) != 0
    ensures
      var a := s1.Addr(DataSlot(n, at / BSIZE));
      && a < |s1.blocks|
      && var s2 := s1.Put(a, Splice(s1.blocks[a], at % BSIZE, chunk));
      && Owners(s2) && OnlyFilled(s, s2, n, at / BSIZE, at / BSIZE + 1) && OtherFiles(s, s2, n)
      && s2.Has(DataSlot(n, at / BSIZE)) && s2.Addr(DataSlot(n, at / BSIZE)) == a
      && Holds(s2, n, Overwrite(c, at, chunk)) && Paid(s, s2, n, at / BSIZE, at / BSIZE + 1)
      && MapSet(bmapstart, s, s2, n, at / BSIZE) == MapSet(bmapstart, s, s1, n, at / BSIZE)
  {
    hide Bit, WordAt, Holds, OtherFiles, Paid, Splice, Overwrite, MapSet;
    WriteChunk(s1, n, at, chunk, c);
    var a := s1.Addr(DataSlot(n, at / BSIZE));
    var s2 := s1.Put(a, Splice(s1.blocks[a], at % BSIZE, chunk));
    PutOthers(s1, n, a, Splice(s1.blocks[a], at % BSIZE, chunk));
    PutKeeps(s1, a, Splice(s1.blocks[a], at % BSIZE, chunk));
    OthersThen(s, s1, s2, n);
    PutMapSet(bmapstart, s, s1, s2, n, at / BSIZE);
    SameMapPaid(s, s1, s2, n, at / BSIZE, at / BSIZE + 1);
  }

  lemma InvShape(s: Fs)
    requires Inv(s)
    ensures s.Shape() && Owners(s) && forall n :: 0 <= n < |s.inodes| ==> s.inodes[n].size <= MAXFILE * BSIZE
  {
    forall n | 0 <= n < |s.inodes| ensures s.inodes[n].size <= MAXFILE * BSIZE {
      assert NoHoles(s, n);
    }
  }

  lemma SetHere(bm: seq<bv8>, b: nat, bi: nat)
    requires b % BPB == 0 && b + bi < 8 * |bm|
    ensures b / 8 + bi / 8 < |bm|
    ensures bm[b / 8 + bi / 8 := bm[b / 8 + bi / 8] | Mask(bi % 8)] == SetBit(bm, b + bi)
  {
    hide Mask;
    BitPlace(b, bi);
  }

  lemma BitPlace(b: nat, bi: nat)
    requires b % BPB == 0
    ensures b / 8 + bi / 8 == (b + bi) / 8 && bi % 8 == (b + bi) % 8
  {
    var k := b / BPB * 1024;
    assert b == 8 * k;
    AddEights(k, bi);
    AddEights(k, 0);
  }

  lemma AddEights(k: nat, bi: nat)
    ensures (8 * k + bi) / 8 == k + bi / 8 && (8 * k + bi) % 8 == bi % 8
  {
  }

  lemma BitHere(bm: seq<bv8>, b: nat, bi: nat)
    requires b % BPB == 0 && b + bi < 8 * |bm|
    ensures b / 8 + bi / 8 < |bm|
    ensures Bit(bm, b + bi) <==> bm[b / 8 + bi / 8] & Mask(bi % 8) != 0
  {
    BitPlace(b, bi);
  }

  lemma JoinSlices(c: seq<byte>, off: nat, tot: nat, m: nat)
    requires off + tot + m <= |c|
    ensures c[off..off + tot] + c[off + tot..off + tot + m] == c[off..off + (tot + m)]
  {
  }

  lemma OwnersShape(s: Fs)
    requires Owners(s)
    ensures s.Shape()
    ensures forall n: nat :: n < |s.inodes| ==> Released(s, s, Progress(n, 0, 0, false))
  {
  }

  lemma OwnersButNone(s: Fs, n: nat)
    requires Owners(s)
    ensures OwnersButFirst(s, n, 0)
  {
  }
}
