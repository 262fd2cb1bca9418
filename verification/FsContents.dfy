/** A file as a byte sequence: what the block map denotes and how a write changes it. */
module FsContents {
  import opened Bytes
  import opened FsImage

  /** The first `len` bytes of file n are in mapped blocks. */
  ghost predicate Mapped(s: Fs, n: nat, len: nat) {
    && s.Shape() && n < |s.inodes| && len <= MAXFILE * BSIZE
    && forall bn: nat :: bn * BSIZE < len ==> s.Has(DataSlot(n, bn)) && s.Addr(DataSlot(n, bn)) != 0
  }

  function ByteAt(s: Fs, n: nat, k: nat): byte
    requires s.Shape() && s.Has(DataSlot(n, k / BSIZE)) && s.Addr(DataSlot(n, k / BSIZE)) < |s.blocks|
  {
    s.blocks[s.Addr(DataSlot(n, k / BSIZE))][k % BSIZE]
  }

  /** The file's bytes. */
  ghost predicate Holds(s: Fs, n: nat, c: seq<byte>) {
    && Mapped(s, n, |c|)
    && forall k: nat :: k < |c| ==>
         && s.Has(DataSlot(n, k / BSIZE)) && s.Addr(DataSlot(n, k / BSIZE)) < |s.blocks|
         && ByteAt(s, n, k) == c[k]
  }

  function Overwrite(c: seq<byte>, off: nat, d: seq<byte>): (r: seq<byte>)
    requires off <= |c|
    ensures |r| == if off + |d| > |c| then off + |d| else |c|
  {
    c[..off] + d + (if off + |d| <= |c| then c[off + |d|..] else [])
  }

  lemma {:induction false} OverwriteTwice(c: seq<byte>, off: nat, d: seq<byte>, e: seq<byte>)
    requires off <= |c|
    ensures Overwrite(Overwrite(c, off, d), off + |d|, e) == Overwrite(c, off, d + e)
  {
  }

  lemma MappedAddr(s: Fs, n: nat, len: nat, bn: nat)
    requires Owners(s) && Mapped(s, n, len) && bn * BSIZE < len
    ensures
      var a := s.Addr(DataSlot(n, bn));
      a in s.owner && s.owner[a] == DataSlot(n, bn) && s.nmeta <= a < |s.blocks|
  {
    assert SlotOk(s, DataSlot(n, bn));
    assert OwnedOk(s, s.Addr(DataSlot(n, bn)));
  }

  /** Contents exist and are determined. */
  ghost function Contents(s: Fs, n: nat, len: nat): (c: seq<byte>)
    requires Owners(s) && Mapped(s, n, len)
    ensures |c| == len && Holds(s, n, c)
  {
    assert forall k: nat :: k < len ==> (k / BSIZE) * BSIZE < len;
    assert forall bn: nat :: bn * BSIZE < len ==> s.Addr(DataSlot(n, bn)) < |s.blocks| by {
      forall bn: nat | bn * BSIZE < len ensures s.Addr(DataSlot(n, bn)) < |s.blocks| {
        MappedAddr(s, n, len, bn);
      }
    }
    seq(len, k requires 0 <= k < len => ByteAt(s, n, k))
  }

  lemma HoldsIsContents(s: Fs, n: nat, c: seq<byte>)
    requires Owners(s) && Holds(s, n, c)
    ensures Contents(s, n, |c|) == c
  {
  }

  /** Same block numbers and same blocks: same contents. */
  lemma SameBlocksHold(s: Fs, s': Fs, n: nat, c: seq<byte>)
    requires Owners(s) && Owners(s') && Holds(s, n, c) && |s'.inodes| == |s.inodes| && |s'.blocks| == |s.blocks|
    requires forall bn: nat :: bn * BSIZE < |c| ==>
               && s.Has(DataSlot(n, bn)) && s'.Has(DataSlot(n, bn))
               && s'.Addr(DataSlot(n, bn)) == s.Addr(DataSlot(n, bn))
    requires forall a :: a in s.owner && !s.owner[a].Pointer? && a < |s.blocks| ==> s'.blocks[a] == s.blocks[a]
    ensures Holds(s', n, c)
  {
    forall k: nat | k < |c|
      ensures s'.Has(DataSlot(n, k / BSIZE)) && s'.Addr(DataSlot(n, k / BSIZE)) < |s'.blocks|
      ensures ByteAt(s', n, k) == c[k]
    {
      MappedAddr(s, n, |c|, k / BSIZE);
    }
  }

  function Splice(b: Block, at: nat, d: seq<byte>): (r: Block)
    requires at + |d| <= BSIZE
  {
    b[..at] + d + b[at + |d|..]
  }

  /** One chunk of writei, inside one mapped block. */
  lemma WriteChunk(s: Fs, n: nat, off: nat, d: seq<byte>, c: seq<byte>)
    requires Owners(s) && Holds(s, n, c) && off <= |c|
    requires off % BSIZE + |d| <= BSIZE && off + |d| <= MAXFILE * BSIZE
    requires s.Has(DataSlot(n, off / BSIZE)) && s.Addr(DataSlot(n, off / BSIZE)) != 0
    ensures
      var a := s.Addr(DataSlot(n, off / BSIZE));
      && a < |s.blocks| && a in s.owner && s.owner[a] == DataSlot(n, off / BSIZE)
      && var s' := s.Put(a, Splice(s.blocks[a], off % BSIZE, d));
      Owners(s') && Holds(s', n, Overwrite(c, off, d))
  {
    var t := DataSlot(n, off / BSIZE);
    var a := s.Addr(t);
    assert SlotOk(s, t) && OwnedOk(s, a);
    var s' := s.Put(a, Splice(s.blocks[a], off % BSIZE, d));
    PutKeeps(s, a, Splice(s.blocks[a], off % BSIZE, d));
    var c' := Overwrite(c, off, d);
    forall bn: nat | bn * BSIZE < |c'| ensures s'.Has(DataSlot(n, bn)) && s'.Addr(DataSlot(n, bn)) != 0 {
      assert bn * BSIZE < |c| || bn == off / BSIZE;
    }
    forall k: nat | k < |c'|
      ensures s'.Has(DataSlot(n, k / BSIZE)) && s'.Addr(DataSlot(n, k / BSIZE)) < |s'.blocks|
      ensures ByteAt(s', n, k) == c'[k]
    {
      assert (k / BSIZE) * BSIZE < |c'|;
      ChunkByte(s, n, off, d, c, k);
    }
  }

  lemma SameBlock(k: nat, off: nat)
    ensures k / BSIZE == off / BSIZE ==> k % BSIZE - off % BSIZE == k - off
    ensures k / BSIZE != off / BSIZE && k >= off ==> k >= off - off % BSIZE + BSIZE
  {
  }

  lemma ChunkByte(s: Fs, n: nat, off: nat, d: seq<byte>, c: seq<byte>, k: nat)
    requires Owners(s) && Holds(s, n, c) && off <= |c| && k < |Overwrite(c, off, d)|
    requires off % BSIZE + |d| <= BSIZE && off + |d| <= MAXFILE * BSIZE
    requires s.Has(DataSlot(n, off / BSIZE)) && s.Addr(DataSlot(n, off / BSIZE)) != 0
    requires s.Has(DataSlot(n, k / BSIZE)) && s.Addr(DataSlot(n, k / BSIZE)) != 0
    ensures
      var a := s.Addr(DataSlot(n, off / BSIZE));
      && a < |s.blocks|
      && var s' := s.Put(a, Splice(s.blocks[a], off % BSIZE, d));
      && s'.Shape() && s'.Has(DataSlot(n, k / BSIZE)) && s'.Addr(DataSlot(n, k / BSIZE)) < |s'.blocks|
      && ByteAt(s', n, k) == Overwrite(c, off, d)[k]
  {
    hide Bit, WordAt;
    var a := s.Addr(DataSlot(n, off / BSIZE));
    var e := s.Addr(DataSlot(n, k / BSIZE));
    assert SlotOk(s, DataSlot(n, off / BSIZE)) && SlotOk(s, DataSlot(n, k / BSIZE));
    assert OwnedOk(s, a) && OwnedOk(s, e);
    PutKeeps(s, a, Splice(s.blocks[a], off % BSIZE, d));
    SameBlock(k, off);
    assert k < off || k >= off + |d| ==> ByteAt(s, n, k) == c[k];
  }

  // ---------- growth ----------

  /** From s to s' slots only get filled and no file data changes. */
  ghost predicate Grows(s: Fs, s': Fs) {
    && s.Shape() && s'.Shape() && SameFiles(s, s')
    && (forall u :: s.Has(u) && s.Addr(u) != 0 ==> s'.Has(u) && s'.Addr(u) == s.Addr(u))
    && (forall a :: a in s.owner ==> a in s'.owner && s'.owner[a] == s.owner[a])
    && (forall a :: a in s.owner && a < |s.blocks| && !s.owner[a].Pointer? ==> s'.blocks[a] == s.blocks[a])
  }

  ghost predicate SameFiles(s: Fs, s': Fs) {
    && s'.nmeta == s.nmeta && |s'.blocks| == |s.blocks| && |s'.inodes| == |s.inodes|
    && forall n :: 0 <= n < |s.inodes| ==> s'.inodes[n].size == s.inodes[n].size
  }

  lemma GrowsThen(s: Fs, s1: Fs, s2: Fs)
    requires Owners(s) && Grows(s, s1) && Grows(s1, s2)
    ensures Grows(s, s2)
  {
    hide Bit, WordAt;
    forall a | a in s.owner && a < |s.blocks| && !s.owner[a].Pointer? ensures s2.blocks[a] == s.blocks[a] {
      assert s1.blocks[a] == s.blocks[a];
    }
  }

  lemma GrowsSelf(s: Fs, n: nat, lo: nat, hi: nat)
    requires s.Shape() && n < |s.inodes|
    ensures Grows(s, s) && OnlyFilled(s, s, n, lo, hi)
  {
  }

  lemma GrowthHolds(s: Fs, s': Fs, n: nat, c: seq<byte>)
    requires Owners(s) && Owners(s') && Grows(s, s') && Holds(s, n, c)
    ensures Holds(s', n, c)
  {
    hide Bit, WordAt;
    SameBlocksHold(s, s', n, c);
  }

  /** balloc followed by storing the new block's number in an empty slot. */
  function Added(s: Fs, t: Slot, b: nat): Fs
    requires s.Shape() && s.Has(t) && b < |s.blocks|
  {
    var s1 := s.Alloc(b);
    if s1.Shape() && s1.Has(t) then s1.Attach(t, b) else s1
  }

  /** No file data lies in the new block or in the indirect block that records it. */
  lemma AddedSameData(s: Fs, t: Slot, b: nat, a: nat)
    requires Owners(s) && s.Has(t) && (t.Entry? ==> s.Ptr(t.inum) != 0)
    requires b < |s.blocks| && b !in s.owner && s.Alloc(b).Shape() && s.Alloc(b).Has(t)
    requires a in s.owner && a < |s.blocks| && !s.owner[a].Pointer?
    ensures s.Alloc(b).Attach(t, b).blocks[a] == s.blocks[a]
  {
    hide Bit, WordAt, PutWord, SetBit;
    assert SlotOk(s, Pointer(t.inum));
  }

  lemma AddedGrows(s: Fs, t: Slot, b: nat)
    requires Owners(s) && s.Has(t) && s.Addr(t) == 0 && (t.Entry? ==> s.Ptr(t.inum) != 0)
    requires b < |s.blocks| && !s.Used(b)
    ensures Owners(s.Alloc(b)) && s.Alloc(b).Has(t)
    ensures Added(s, t, b) == s.Alloc(b).Attach(t, b)
    ensures Owners(Added(s, t, b)) && Grows(s, Added(s, t, b))
    ensures Added(s, t, b).Has(t) && Added(s, t, b).Addr(t) == b && b >= s.nmeta && b !in s.owner
    ensures forall u :: s.Has(u) && u != t ==> Added(s, t, b).Has(u) && Added(s, t, b).Addr(u) == s.Addr(u)
  {
    hide Bit, WordAt, PutWord, SetBit, Owners;
    OwnersHasShape(s);
    AllocKeeps(s, b);
    var s1 := s.Alloc(b);
    OwnersHasShape(s1);
    AttachKeeps(s1, t, b);
    var s2 := s1.Attach(t, b);
    OwnersHasShape(s2);
    forall a | a in s.owner && a < |s.blocks| && !s.owner[a].Pointer? ensures s2.blocks[a] == s.blocks[a] {
      AddedSameData(s, t, b, a);
    }
  }

  lemma OwnersHasShape(s: Fs)
    requires Owners(s)
    ensures s.Shape()
  {
  }

  // ---------- free blocks ----------

  ghost function Free(s: Fs): set<nat>
    requires s.Shape()
  {
    set b: nat | b < |s.blocks| && !s.Used(b)
  }

  /** The blocks that got an owner are the ones taken off the free map. */
  ghost predicate Took(s: Fs, s': Fs) {
    && s.Shape() && s'.Shape() && Free(s') <= Free(s) && s.owner.Keys <= s'.owner.Keys
    && s'.owner.Keys - s.owner.Keys == Free(s) - Free(s')
  }

  lemma TookThen(s: Fs, s1: Fs, s2: Fs)
    requires Took(s, s1) && Took(s1, s2)
    ensures Took(s, s2)
  {
    var k, k1, k2, f, f1, f2 := s.owner.Keys, s1.owner.Keys, s2.owner.Keys, Free(s), Free(s1), Free(s2);
    assert k2 - k == (k1 - k) + (k2 - k1);
    assert f - f2 == (f - f1) + (f1 - f2);
  }

  lemma AddedTook(s: Fs, t: Slot, b: nat)
    requires Owners(s) && s.Has(t) && s.Addr(t) == 0 && (t.Entry? ==> s.Ptr(t.inum) != 0)
    requires b < |s.blocks| && !s.Used(b)
    ensures Took(s, Added(s, t, b)) && |Free(Added(s, t, b))| == |Free(s)| - 1
  {
    hide Bit, WordAt, PutWord, SetBit, Owners, Grows;
    AddedGrows(s, t, b);
    OwnersHasShape(s);
    var s' := Added(s, t, b);
    OwnersHasShape(s');
    forall c: nat | c < |s.blocks| ensures s'.Used(c) <==> c == b || s.Used(c) {
      SetBitAt(s.bitmap, b, c);
    }
    assert Free(s') == Free(s) - {b};
    assert s'.owner == s.owner[b := t];
  }

  /** Blocks that mapping block bn allocates, in a pass that begins at block lo: the
      block itself and, at the first indirect one, the indirect block. */
  ghost function NeedAt(s: Fs, n: nat, lo: nat, bn: nat): nat
    requires s.Shape() && n < |s.inodes| && bn < MAXFILE
  {
    (if s.Addr(DataSlot(n, bn)) == 0 then 1 else 0)
    + (if s.Ptr(n) == 0 && bn == (if lo < NDIRECT then NDIRECT else lo) then 1 else 0)
  }

  ghost function Need(s: Fs, n: nat, lo: nat, hi: nat): nat
    requires s.Shape() && n < |s.inodes| && hi <= MAXFILE
  {
    if lo >= hi then 0 else Need(s, n, lo, hi - 1) + NeedAt(s, n, lo, hi - 1)
  }

  lemma {:induction false} NeedGrows(s: Fs, n: nat, lo: nat, hi: nat, hi': nat)
    requires s.Shape() && n < |s.inodes| && hi <= hi' <= MAXFILE
    ensures Need(s, n, lo, hi) <= Need(s, n, lo, hi')
    decreases hi'
  {
    hide NeedAt;
    if hi < hi' {
      NeedGrows(s, n, lo, hi, hi' - 1);
    }
  }

  /** Blocks lo to hi of file n have been mapped, each missing block taken off the free
      map, the indirect block too if one of them is indirect. */
  ghost predicate Paid(s: Fs, s': Fs, n: nat, lo: nat, hi: nat) {
    && Took(s, s') && n < |s.inodes| == |s'.inodes| && lo <= hi <= MAXFILE
    && |Free(s')| + Need(s, n, lo, hi) == |Free(s)|
    && (s'.Ptr(n) == 0 <==> s.Ptr(n) == 0 && (hi <= NDIRECT || hi == lo))
  }

  lemma PaidSelf(s: Fs, n: nat, bn: nat)
    requires s.Shape() && n < |s.inodes| && bn < MAXFILE && s.Addr(DataSlot(n, bn)) != 0
    ensures Paid(s, s, n, bn, bn + 1)
  {
    hide Bit, WordAt, Free;
    assert Need(s, n, bn, bn) == 0;
  }

  lemma PaidThen(s: Fs, s1: Fs, s2: Fs, n: nat, lo: nat, hi: nat)
    requires Paid(s, s1, n, lo, hi) && OnlyFilled(s, s1, n, lo, hi) && Paid(s1, s2, n, hi, hi + 1)
    ensures Paid(s, s2, n, lo, hi + 1)
  {
    hide Bit, WordAt, Took, Free;
    TookThen(s, s1, s2);
    SameNeed(s, s1, n, lo, hi);
  }

  lemma SameNeed(s: Fs, s1: Fs, n: nat, lo: nat, hi: nat)
    requires Paid(s, s1, n, lo, hi) && OnlyFilled(s, s1, n, lo, hi) && hi < MAXFILE
    ensures Need(s, n, lo, hi + 1) == Need(s, n, lo, hi) + Need(s1, n, hi, hi + 1)
  {
    hide Bit, WordAt, Took, Free;
    assert s1.Addr(DataSlot(n, hi)) == s.Addr(DataSlot(n, hi));
    assert Need(s1, n, hi, hi) == 0;
  }

  /** A new block was a free one. */
  lemma NewWasFree(s: Fs, s': Fs, u: Slot)
    requires Owners(s) && Owners(s') && Took(s, s') && s.Has(u) && s'.Has(u)
    requires forall v :: s.Has(v) && s.Addr(v) != 0 ==> s'.Has(v) && s'.Addr(v) == s.Addr(v)
    requires s.Addr(u) == 0 && s'.Addr(u) != 0
    ensures s'.Addr(u) in Free(s)
  {
    hide Bit, WordAt, Free;
    var b := s'.Addr(u);
    assert SlotOk(s', u);
    assert b in s.owner ==> OwnedOk(s, b);
    assert b in s'.owner.Keys - s.owner.Keys;
  }

  // ---------- one write ----------

  /** The contents of all other files carry over. */
  ghost predicate OtherFiles(s: Fs, s': Fs, n: nat) {
    forall m: nat, c :: m != n && Holds(s, m, c) ==> Holds(s', m, c)
  }

  /** Slots filled so far by a write to blocks lo..hi of file n: filled slots stay,
      and only slots in that range, and the indirect block's, change. */
  ghost predicate OnlyFilled(s: Fs, s': Fs, n: nat, lo: nat, hi: nat) {
    && s.Shape() && s'.Shape() && SameFiles(s, s') && n < |s.inodes|
    && forall u :: s.Has(u) ==>
         && s'.Has(u)
         && (s.Addr(u) != 0 ==> s'.Addr(u) == s.Addr(u))
         && (u != Pointer(n) && !InRange(u, n, lo, hi) ==> s'.Addr(u) == s.Addr(u))
  }

  predicate InRange(u: Slot, n: nat, lo: nat, hi: nat) {
    u.inum == n && match u
                   case Direct(_, i) => lo <= i < hi
                   case Entry(_, j) => lo <= NDIRECT + j < hi
                   case Pointer(_) => false
  }

  lemma FilledThen(s: Fs, s1: Fs, s2: Fs, n: nat, lo: nat, hi: nat)
    requires lo <= hi && OnlyFilled(s, s1, n, lo, hi) && OnlyFilled(s1, s2, n, hi, hi + 1)
    ensures OnlyFilled(s, s2, n, lo, hi + 1)
  {
    hide WordAt;
  }

  lemma PutOthers(s: Fs, n: nat, a: nat, data: Block)
    requires Owners(s) && a in s.owner && s.owner[a].inum == n && !s.owner[a].Pointer?
    ensures a < |s.blocks| && OtherFiles(s, s.Put(a, data), n)
  {
    hide Bit, WordAt;
    PutKeeps(s, a, data);
    var s' := s.Put(a, data);
    forall m: nat, c | m != n && Holds(s, m, c) ensures Holds(s', m, c) {
      forall k: nat | k < |c|
        ensures s'.Has(DataSlot(m, k / BSIZE)) && s'.Addr(DataSlot(m, k / BSIZE)) < |s'.blocks|
                && ByteAt(s', m, k) == c[k]
      {
        MappedAddr(s, m, |c|, k / BSIZE);
      }
    }
  }

  lemma GrowsOthers(s: Fs, s': Fs, n: nat)
    requires Owners(s) && Owners(s') && Grows(s, s')
    ensures OtherFiles(s, s', n)
  {
    forall m: nat, c | m != n && Holds(s, m, c) ensures Holds(s', m, c) {
      GrowthHolds(s, s', m, c);
    }
  }

  lemma OthersThen(s: Fs, s1: Fs, s2: Fs, n: nat)
    requires OtherFiles(s, s1, n) && OtherFiles(s1, s2, n)
    ensures OtherFiles(s, s2, n)
  {
    hide Holds;
    forall m: nat, c | m != n && Holds(s, m, c) ensures Holds(s2, m, c) {
      assert Holds(s1, m, c);
    }
  }

  /** Bytes writei copies: whole chunks, up to the first one the source cannot supply. */
  function Copied(off: nat, n: nat, limit: nat, tot: nat): (r: nat)
    requires tot <= n
    ensures tot <= r <= n
    decreases n - tot
  {
    if tot == n then n
    else
      var m := Chunk(off + tot, n - tot);
      if tot + m > limit then tot else Copied(off, n, limit, tot + m)
  }

  /** The part of a transfer that lies in the block of offset `at`. */
  function Chunk(at: nat, left: nat): (m: nat)
    requires left > 0
    ensures 0 < m <= left && at % BSIZE + m <= BSIZE
    ensures m < left ==> (at + m) % BSIZE == 0
  {
    if left < BSIZE - at % BSIZE then left else BSIZE - at % BSIZE
  }
}
