/** The file system as a value: free map, blocks and inodes, and who owns which block. */
module FsImage {
  import opened Bytes

  const NDIRECT := 12
  const MAXFILE := NDIRECT + NINDIRECT

  /** `addrs` holds NDIRECT data block numbers and, last, the indirect block's. */
  datatype Inode = Inode(size: nat, addrs: seq<nat>)

  /** A place that can hold a block number. */
  datatype Slot = Direct(inum: nat, i: nat) | Pointer(inum: nat) | Entry(inum: nat, j: nat)

  /** Blocks below `nmeta` (boot block, super block, log, inodes, free map) never
      hold file data. `owner` is bookkeeping: the slot each file block belongs to. */
  datatype Fs = Fs(nmeta: nat, bitmap: seq<bv8>, blocks: seq<Block>, inodes: seq<Inode>, owner: map<nat, Slot>) {

    predicate Shape() {
      && 0 < nmeta <= |blocks| <= 8 * |bitmap| && |blocks| <= 0x1_0000_0000
      && forall n :: 0 <= n < |inodes| ==>
           |inodes[n].addrs| == NDIRECT + 1
           && forall i :: 0 <= i <= NDIRECT ==> inodes[n].addrs[i] < |blocks|
    }

    predicate Has(t: Slot) {
      t.inum < |inodes| && (t.Direct? ==> t.i < NDIRECT) && (t.Entry? ==> t.j < NINDIRECT)
    }

    function Ptr(n: nat): nat
      requires Shape() && n < |inodes|
    {
      inodes[n].addrs[NDIRECT]
    }

    /** The block number in slot t, or 0. */
    function Addr(t: Slot): nat
      requires Shape() && Has(t)
    {
      match t
      case Direct(n, i) => inodes[n].addrs[i]
      case Pointer(n) => Ptr(n)
      case Entry(n, j) => if Ptr(n) == 0 then 0 else WordAt(blocks[Ptr(n)], j)
    }

    predicate Used(b: nat)
      requires Shape() && b < |blocks|
    {
      Bit(bitmap, b)
    }

    function WithAddr(n: nat, i: nat, b: nat): seq<Inode>
      requires Shape() && n < |inodes| && i <= NDIRECT
    {
      inodes[n := Inode(inodes[n].size, inodes[n].addrs[i := b])]
    }

    function WithEntry(n: nat, j: nat, b: nat): seq<Block>
      requires Shape() && n < |inodes| && j < NINDIRECT && b < |blocks|
    {
      blocks[Ptr(n) := PutWord(blocks[Ptr(n)], j, b)]
    }

    /** Filling slot t with block number b. */
    function Attach(t: Slot, b: nat): Fs
      requires Shape() && Has(t) && b < |blocks|
    {
      match t
      case Direct(n, i) => this.(inodes := WithAddr(n, i, b), owner := owner[b := t])
      case Pointer(n) => this.(inodes := WithAddr(n, NDIRECT, b), owner := owner[b := t])
      case Entry(n, j) => this.(blocks := WithEntry(n, j, b), owner := owner[b := t])
    }

    /** balloc's effect on the image. */
    function Alloc(b: nat): Fs
      requires Shape() && b < |blocks|
    {
      this.(bitmap := SetBit(bitmap, b), blocks := blocks[b := Zero()])
    }

    function Put(b: nat, data: Block): Fs
      requires b < |blocks|
    {
      this.(blocks := blocks[b := data])
    }

    function Resize(n: nat, size: nat): Fs
      requires n < |inodes|
    {
      this.(inodes := inodes[n := inodes[n].(size := size)])
    }
  }

  /** The slot of a file's bn-th block. */
  function DataSlot(n: nat, bn: nat): Slot {
    if bn < NDIRECT then Direct(n, bn) else Entry(n, bn - NDIRECT)
  }

  // ---------- invariant ----------

  /** An owned block is a data block in use, and its owner points back at it. */
  ghost predicate OwnedOk(s: Fs, b: nat)
    requires s.Shape()
  {
    b in s.owner ==> s.nmeta <= b < |s.blocks| && s.Used(b) && s.Has(s.owner[b]) && s.Addr(s.owner[b]) == b
  }

  /** A filled slot owns its block. Hence no two slots share one. */
  ghost predicate SlotOk(s: Fs, t: Slot)
    requires s.Shape() && s.Has(t)
  {
    s.Addr(t) != 0 ==> s.Addr(t) in s.owner && s.owner[s.Addr(t)] == t
  }

  ghost predicate NoHoles(s: Fs, n: nat)
    requires s.Shape() && n < |s.inodes|
  {
    && s.inodes[n].size <= MAXFILE * BSIZE
    && forall bn: nat :: bn * BSIZE < s.inodes[n].size ==> s.Has(DataSlot(n, bn)) && s.Addr(DataSlot(n, bn)) != 0
  }

  ghost predicate Owners(s: Fs) {
    && s.Shape()
    && (forall b :: 0 <= b < s.nmeta ==> s.Used(b))
    && (forall b :: b in s.owner ==> OwnedOk(s, b))
    && (forall t :: s.Has(t) ==> SlotOk(s, t))
  }

  /** In the middle of a truncation the first k entries of inode n's indirect block
      are stale: their blocks are free already. */
  ghost predicate OwnersButFirst(s: Fs, n: nat, k: nat) {
    && s.Shape()
    && (forall b :: 0 <= b < s.nmeta ==> s.Used(b))
    && (forall b :: b in s.owner ==> OwnedOk(s, b) && !Stale(s.owner[b], n, k))
    && (forall t :: s.Has(t) && !Stale(t, n, k) ==> SlotOk(s, t))
  }

  predicate Stale(t: Slot, n: nat, k: nat) {
    t.Entry? && t.inum == n && t.j < k
  }

  ghost predicate Inv(s: Fs) {
    Owners(s) && forall n :: 0 <= n < |s.inodes| ==> NoHoles(s, n)
  }

  // ---------- what each change keeps ----------

  lemma AllocAddr(s: Fs, b: nat, t: Slot)
    requires Owners(s) && s.Has(t) && b < |s.blocks| && !s.Used(b)
    ensures b !in s.owner && b >= s.nmeta
    ensures s.Alloc(b).Addr(t) == s.Addr(t)
  {
    assert b in s.owner ==> OwnedOk(s, b);
    assert SlotOk(s, Pointer(t.inum));
    assert s.Addr(Pointer(t.inum)) in s.owner ==> OwnedOk(s, s.Addr(Pointer(t.inum)));
  }

  /** balloc hands out a block that nobody owns; nothing else moves. */
  lemma AllocKeeps(s: Fs, b: nat)
    requires Owners(s) && b < |s.blocks| && !s.Used(b)
    ensures b !in s.owner && s.nmeta <= b
    ensures Owners(s.Alloc(b)) && s.Alloc(b).Used(b)
    ensures forall t :: s.Has(t) ==> s.Alloc(b).Has(t) && s.Alloc(b).Addr(t) == s.Addr(t)
  {
    hide Bit, SetBit, ClearBit, WordAt, PutWord;
    var s' := s.Alloc(b);
    assert b in s.owner ==> OwnedOk(s, b);
    forall c: nat | c < |s.blocks| ensures s'.Used(c) <==> c == b || s.Used(c) {
      SetBitAt(s.bitmap, b, c);
    }
    forall t | s.Has(t) ensures s'.Addr(t) == s.Addr(t) && SlotOk(s', t) {
      AllocAddr(s, b, t);
      assert SlotOk(s, t);
    }
    forall c | c in s.owner ensures OwnedOk(s', c) {
      assert OwnedOk(s, c);
      AllocAddr(s, b, s.owner[c]);
    }
  }

  lemma AttachShape(s: Fs, t: Slot, b: nat)
    requires s.Shape() && s.Has(t) && b < |s.blocks|
    ensures s.Attach(t, b).Shape() && forall u :: s.Has(u) ==> s.Attach(t, b).Has(u)
  {
  }

  lemma AttachAddr(s: Fs, t: Slot, b: nat, u: Slot)
    requires Owners(s) && s.Has(t) && s.Addr(t) == 0 && (t.Entry? ==> s.Ptr(t.inum) != 0) && s.Has(u)
    requires s.nmeta <= b < |s.blocks| && b !in s.owner && (t.Pointer? ==> s.blocks[b] == Zero())
    ensures s.Attach(t, b).Shape() && s.Attach(t, b).Has(u)
    ensures s.Attach(t, b).Addr(u) == if u == t then b else s.Addr(u)
  {
    hide Bit, WordAt, PutWord;
    AttachShape(s, t, b);
    assert SlotOk(s, Pointer(t.inum)) && SlotOk(s, Pointer(u.inum));
    if t.Entry? && u.Entry? {
      if t.inum == u.inum {
        PutWordAt(s.blocks[s.Ptr(t.inum)], t.j, b, u.j);
      }
    } else if t.Pointer? && u.Entry? && t.inum == u.inum {
      ZeroWords(u.j);
    }
  }

  /** Filling an empty slot with a fresh block: every other slot keeps its block. */
  lemma AttachKeeps(s: Fs, t: Slot, b: nat)
    requires Owners(s) && s.Has(t) && s.Addr(t) == 0 && (t.Entry? ==> s.Ptr(t.inum) != 0)
    requires s.nmeta <= b < |s.blocks| && s.Used(b) && b !in s.owner && (t.Pointer? ==> s.blocks[b] == Zero())
    ensures Owners(s.Attach(t, b)) && s.Attach(t, b).Addr(t) == b
    ensures forall u :: s.Has(u) ==> s.Attach(t, b).Has(u) && (u != t ==> s.Attach(t, b).Addr(u) == s.Addr(u))
  {
    hide Bit, SetBit, ClearBit, WordAt, PutWord;
    var s' := s.Attach(t, b);
    AttachAddr(s, t, b, t);
    forall u | s.Has(u)
      ensures s'.Has(u) && s'.Addr(u) == (if u == t then b else s.Addr(u)) && SlotOk(s', u)
    {
      AttachAddr(s, t, b, u);
      assert SlotOk(s, u);
    }
    assert forall c: nat :: c < |s.blocks| ==> s'.Used(c) == s.Used(c);
    forall c | c in s'.owner ensures OwnedOk(s', c) {
      assert c in s.owner ==> OwnedOk(s, c) && s.owner[c] != t;
    }
  }

  /** Writing file data moves no block. */
  lemma PutKeeps(s: Fs, b: nat, data: Block)
    requires Owners(s) && b in s.owner && !s.owner[b].Pointer?
    ensures b < |s.blocks| && Owners(s.Put(b, data))
    ensures forall u :: s.Has(u) ==> s.Put(b, data).Has(u) && s.Put(b, data).Addr(u) == s.Addr(u)
  {
    hide Bit, SetBit, ClearBit, WordAt, PutWord;
    assert OwnedOk(s, b);
    var s' := s.Put(b, data);
    assert forall c: nat :: c < |s.blocks| ==> s'.Used(c) == s.Used(c);
    forall u | s.Has(u) ensures s'.Addr(u) == s.Addr(u) && SlotOk(s', u) {
      assert SlotOk(s, Pointer(u.inum)) && SlotOk(s, u);
    }
    forall c | c in s.owner ensures OwnedOk(s', c) {
      assert OwnedOk(s, c);
    }
  }

  // ---------- truncation ----------

  /** bfree of the block in slot t, and clearing the slot. */
  function Detached(s: Fs, t: Slot): Fs
    requires s.Shape() && s.Has(t) && !t.Entry?
  {
    var i := if t.Direct? then t.i else NDIRECT;
    Fs(s.nmeta, ClearBit(s.bitmap, s.Addr(t)), s.blocks, s.WithAddr(t.inum, i, 0), s.owner - {s.Addr(t)})
  }

  /** bfree of the block in entry j, leaving the entry behind. */
  function Freed(s: Fs, b: nat): Fs
    requires s.Shape() && b < |s.blocks|
  {
    Fs(s.nmeta, ClearBit(s.bitmap, b), s.blocks, s.inodes, s.owner - {b})
  }

  lemma ClearKeepsUsed(s: Fs, b: nat, c: nat)
    requires s.Shape() && b < |s.blocks| && c < |s.blocks|
    ensures Bit(ClearBit(s.bitmap, b), c) <==> c != b && s.Used(c)
  {
    SetBitAt(s.bitmap, b, c);
  }

  /** Freeing a direct block. */
  lemma DetachKeeps(s: Fs, n: nat, i: nat)
    requires Owners(s) && s.Has(Direct(n, i)) && s.Addr(Direct(n, i)) != 0
    ensures s.Used(s.Addr(Direct(n, i))) && Owners(Detached(s, Direct(n, i)))
    ensures forall u :: s.Has(u) && u != Direct(n, i) ==>
              Detached(s, Direct(n, i)).Has(u) && Detached(s, Direct(n, i)).Addr(u) == s.Addr(u)
  {
    hide Bit, SetBit, ClearBit, WordAt, PutWord;
    var t := Direct(n, i);
    var b := s.Addr(t);
    assert SlotOk(s, t) && OwnedOk(s, b);
    var s' := Detached(s, t);
    forall c: nat | c < |s.blocks| ensures s'.Used(c) <==> c != b && s.Used(c) {
      ClearKeepsUsed(s, b, c);
    }
    forall u | s.Has(u) ensures s'.Has(u) && s'.Addr(u) == (if u == t then 0 else s.Addr(u)) && SlotOk(s', u) {
      assert SlotOk(s, u);
    }
    forall c | c in s'.owner ensures OwnedOk(s', c) {
      assert OwnedOk(s, c);
    }
  }

  /** Freeing the block of entry k. */
  lemma FreeEntryKeeps(s: Fs, n: nat, k: nat)
    requires OwnersButFirst(s, n, k) && n < |s.inodes| && s.Ptr(n) != 0 && k < NINDIRECT
    ensures
      var b := s.Addr(Entry(n, k));
      if b == 0 then OwnersButFirst(s, n, k + 1)
      else b in s.owner && b < |s.blocks| && s.Used(b) && OwnersButFirst(Freed(s, b), n, k + 1)
  {
    hide Bit, SetBit, ClearBit, WordAt, PutWord;
    var t := Entry(n, k);
    var b := s.Addr(t);
    assert SlotOk(s, t);
    if b == 0 {
      forall c | c in s.owner ensures !Stale(s.owner[c], n, k + 1) {
        assert OwnedOk(s, c);
      }
    } else {
      assert OwnedOk(s, b);
      var s' := Freed(s, b);
      forall c: nat | c < |s.blocks| ensures s'.Used(c) <==> c != b && s.Used(c) {
        ClearKeepsUsed(s, b, c);
      }
      forall u | s.Has(u) && !Stale(u, n, k + 1) ensures SlotOk(s', u) {
        assert SlotOk(s, u);
      }
      forall c | c in s'.owner ensures OwnedOk(s', c) && !Stale(s'.owner[c], n, k + 1) {
        assert OwnedOk(s, c);
      }
    }
  }

  /** Freeing the indirect block itself clears all its entries at once. */
  lemma DropPointerKeeps(s: Fs, n: nat)
    requires OwnersButFirst(s, n, NINDIRECT) && n < |s.inodes| && s.Ptr(n) != 0
    ensures s.Ptr(n) in s.owner && s.Used(s.Ptr(n)) && Owners(Detached(s, Pointer(n)))
    ensures Detached(s, Pointer(n)).Ptr(n) == 0
  {
    hide Bit, SetBit, ClearBit, WordAt, PutWord;
    var t := Pointer(n);
    var b := s.Addr(t);
    assert SlotOk(s, t) && OwnedOk(s, b);
    var s' := Detached(s, t);
    forall c: nat | c < |s.blocks| ensures s'.Used(c) <==> c != b && s.Used(c) {
      ClearKeepsUsed(s, b, c);
    }
    DropPointerAddr(s, n);
    forall u | s.Has(u) ensures SlotOk(s', u) {
      assert !Stale(u, n, NINDIRECT) ==> SlotOk(s, u);
    }
    forall c | c in s'.owner ensures OwnedOk(s', c) {
      assert OwnedOk(s, c) && !Stale(s.owner[c], n, NINDIRECT) && s.owner[c] != t;
    }
  }

  /** Without its indirect block a file has no indirect slots filled; all else stays. */
  lemma DropPointerAddr(s: Fs, n: nat)
    requires s.Shape() && n < |s.inodes| && s.Ptr(n) != 0
    ensures
      var s' := Detached(s, Pointer(n));
      && s'.Shape()
      && forall u :: s.Has(u) ==>
           s'.Has(u) && s'.Addr(u) == if u.inum == n && !u.Direct? then 0 else s.Addr(u)
  {
    hide Bit, SetBit, ClearBit, WordAt, PutWord;
  }

  /** Progress of a truncation of inode n: i direct blocks, j entries, and the indirect block. */
  datatype Progress = Progress(n: nat, i: nat, j: nat, ptr: bool) {
    predicate Gone(t: Slot) {
      t.inum == n && match t
                     case Direct(_, k) => k < i
                     case Entry(_, k) => k < j
                     case Pointer(_) => ptr
    }
  }

  /** From s to s' exactly the blocks in the slots that are gone were freed. */
  ghost predicate Released(s: Fs, s': Fs, p: Progress) {
    && s.Shape() && s'.Shape() && s'.blocks == s.blocks && s'.nmeta == s.nmeta
    && (forall b :: b in s'.owner <==> b in s.owner && !p.Gone(s.owner[b]))
    && (forall b :: b in s'.owner ==> s'.owner[b] == s.owner[b])
    && (forall b: nat :: b < |s.blocks| ==>
          (s'.Used(b) <==> s.Used(b) && !(b in s.owner && p.Gone(s.owner[b]))))
    && |s'.inodes| == |s.inodes| && p.n < |s.inodes|
    && (forall m :: 0 <= m < |s.inodes| && m != p.n ==> s'.inodes[m] == s.inodes[m])
    && s'.inodes[p.n].size == s.inodes[p.n].size
    && (forall k :: 0 <= k < NDIRECT ==>
          s'.inodes[p.n].addrs[k] == if k < p.i then 0 else s.inodes[p.n].addrs[k])
    && s'.Ptr(p.n) == if p.ptr then 0 else s.Ptr(p.n)
  }

  lemma OnlyBlockOf(s: Fs, t: Slot)
    requires Owners(s) && s.Has(t)
    ensures forall b :: b in s.owner && s.owner[b] == t ==> b == s.Addr(t) && b != 0
    ensures s.Addr(t) != 0 ==> s.Addr(t) in s.owner && s.owner[s.Addr(t)] == t && s.Addr(t) < |s.blocks|
  {
    hide Bit, WordAt;
    assert SlotOk(s, t);
    forall b | b in s.owner && s.owner[b] == t ensures b == s.Addr(t) && b != 0 {
      assert OwnedOk(s, b);
    }
  }

  lemma ReleaseDirect(s: Fs, s': Fs, n: nat, i: nat)
    requires Owners(s) && Owners(s') && Released(s, s', Progress(n, i, 0, false)) && i < NDIRECT
    ensures
      if s'.Addr(Direct(n, i)) == 0 then Released(s, s', Progress(n, i + 1, 0, false))
      else
        var s2 := Detached(s', Direct(n, i));
        s2.Shape() && Released(s, s2, Progress(n, i + 1, 0, false))
  {
    hide Bit, ClearBit, WordAt, Owners;
    var t := Direct(n, i);
    OnlyBlockOf(s, t);
    if s'.Addr(t) != 0 {
      DetachKeeps(s', n, i);
      var s2 := Detached(s', t);
      forall c: nat | c < |s.blocks| ensures s2.Used(c) <==> c != s'.Addr(t) && s'.Used(c) {
        ClearKeepsUsed(s', s'.Addr(t), c);
      }
    }
  }

  lemma ReleaseEntry(s: Fs, s': Fs, n: nat, j: nat)
    requires Owners(s) && OwnersButFirst(s', n, j) && Released(s, s', Progress(n, NDIRECT, j, false))
    requires s.Ptr(n) != 0 && j < NINDIRECT
    ensures
      var b := s'.Addr(Entry(n, j));
      if b == 0 then Released(s, s', Progress(n, NDIRECT, j + 1, false))
      else b < |s.blocks| && Released(s, Freed(s', b), Progress(n, NDIRECT, j + 1, false))
  {
    hide Bit, ClearBit, WordAt, Owners, OwnersButFirst;
    var t := Entry(n, j);
    OnlyBlockOf(s, t);
    var b := s'.Addr(t);
    if b != 0 {
      forall c: nat | c < |s.blocks| ensures Freed(s', b).Used(c) <==> c != b && s'.Used(c) {
        ClearKeepsUsed(s', b, c);
      }
    }
  }

  lemma PointerOwned(s: Fs, n: nat)
    requires Owners(s) && n < |s.inodes| && s.Ptr(n) != 0
    ensures s.Ptr(n) in s.owner && s.owner[s.Ptr(n)] == Pointer(n)
  {
    hide Bit, WordAt;
    assert SlotOk(s, Pointer(n));
  }

  lemma ReleasePointer(s: Fs, s': Fs, n: nat)
    requires Owners(s) && OwnersButFirst(s', n, NINDIRECT) && Released(s, s', Progress(n, NDIRECT, NINDIRECT, false))
    requires s.Ptr(n) != 0
    ensures Released(s, Detached(s', Pointer(n)), Progress(n, NDIRECT, NINDIRECT, true))
  {
    hide Bit, ClearBit, WordAt, Owners, OwnersButFirst;
    var t := Pointer(n);
    DropPointerKeeps(s', n);
    DropPointerAddr(s', n);
    PointerOwned(s, n);
    OnlyBlockOf(s, t);
    assert s'.Addr(t) == s.Addr(t);
    forall c: nat | c < |s.blocks| ensures Detached(s', t).Used(c) <==> c != s'.Addr(t) && s'.Used(c) {
      ClearKeepsUsed(s', s'.Addr(t), c);
    }
  }

  /** An inode without an indirect block has nothing else to free. */
  lemma ReleaseNothing(s: Fs, s': Fs, n: nat)
    requires Owners(s) && Released(s, s', Progress(n, NDIRECT, 0, false)) && s.Ptr(n) == 0
    ensures Released(s, s', Progress(n, NDIRECT, NINDIRECT, true))
  {
    hide Bit, WordAt;
    forall b | b in s.owner && s.owner[b].inum == n ensures s.owner[b].Direct? {
      assert OwnedOk(s, b);
    }
  }

  /** All of inode n's blocks, and nothing else, were given back. */
  ghost predicate Truncated(s: Fs, s': Fs, n: nat) {
    && s.Shape() && s'.Shape() && s'.blocks == s.blocks && s'.nmeta == s.nmeta
    && (forall b :: b in s'.owner <==> b in s.owner && s.owner[b].inum != n)
    && (forall b :: b in s'.owner ==> s'.owner[b] == s.owner[b])
    && (forall b: nat :: b < |s.blocks| ==>
          (s'.Used(b) <==> s.Used(b) && !(b in s.owner && s.owner[b].inum == n)))
    && |s'.inodes| == |s.inodes| && n < |s.inodes|
    && (forall m :: 0 <= m < |s.inodes| && m != n ==> s'.inodes[m] == s.inodes[m])
    && s'.inodes[n].size == 0 && forall k :: 0 <= k <= NDIRECT ==> s'.inodes[n].addrs[k] == 0
  }

  lemma ReleasedIsTruncated(s: Fs, s': Fs, n: nat)
    requires Inv(s) && Owners(s') && Released(s, s', Progress(n, NDIRECT, NINDIRECT, true))
    ensures Truncated(s, s'.Resize(n, 0), n) && Inv(s'.Resize(n, 0))
  {
    hide Bit, WordAt;
    var s2 := s'.Resize(n, 0);
    forall b | b in s.owner && s.owner[b].inum == n
      ensures Progress(n, NDIRECT, NINDIRECT, true).Gone(s.owner[b])
    {
      assert OwnedOk(s, b);
    }
    ResizeKeeps(s', n, 0);
    forall m | 0 <= m < |s.inodes| ensures NoHoles(s2, m) {
      assert NoHoles(s, m);
      forall bn: nat | bn * BSIZE < s2.inodes[m].size
        ensures s2.Has(DataSlot(m, bn)) && s2.Addr(DataSlot(m, bn)) != 0
      {
        assert s.Addr(DataSlot(m, bn)) == s2.Addr(DataSlot(m, bn));
      }
    }
  }

  lemma ResizeKeeps(s: Fs, n: nat, size: nat)
    requires Owners(s) && n < |s.inodes|
    ensures Owners(s.Resize(n, size))
    ensures forall u :: s.Has(u) ==> s.Resize(n, size).Has(u) && s.Resize(n, size).Addr(u) == s.Addr(u)
  {
    hide Bit, WordAt;
    var s' := s.Resize(n, size);
    assert forall c: nat :: c < |s.blocks| ==> s'.Used(c) == s.Used(c);
    forall u | s.Has(u) ensures SlotOk(s', u) {
      assert SlotOk(s, u);
    }
    forall c | c in s.owner ensures OwnedOk(s', c) {
      assert OwnedOk(s, c);
    }
  }
}
