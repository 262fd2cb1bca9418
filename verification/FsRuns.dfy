/** A disk on which one chunk of filewrite uses up the whole reservation: every block is
    in use but the last one of each of four free map blocks, and the file's next block is
    its first indirect one. */
module FsRuns {
  import opened Bytes
  import opened FsImage
  import opened FsContents
  import opened FileSystem

  const NMETA := 100
  const INODESTART := 32
  const BMAPSTART := 45

  function Full(): seq<bv8> {
    seq(4096, k requires 0 <= k < 4096 => if k % 1024 == 1023 then 0x7f else 0xff)
  }

  predicate InFile(b: nat) {
    NMETA <= b < NMETA + NDIRECT
  }

  /** One file of twelve blocks, one byte in the last of them. */
  function Tight(): Fs {
    Fs(NMETA, Full(), seq(4 * BPB, _ => Zero()),
       [Inode(11 * BSIZE + 1, seq(NDIRECT + 1, i requires 0 <= i <= NDIRECT => if i < NDIRECT then NMETA + i else 0))],
       map b: nat | b < NMETA + NDIRECT && InFile(b) :: b := Direct(0, b - NMETA))
  }

  lemma ByteBits(k: nat)
    requires k < 8
    ensures 0xff & Mask(k) != 0
    ensures 0x7f & Mask(k) != 0 <==> k != 7
  {
  }

  lemma LastOfEight(b: nat)
    ensures b % 8 == 7 && b / 8 % 1024 == 1023 <==> b % BPB == BPB - 1
  {
  }

  lemma TightUsed(b: nat)
    requires b < 4 * BPB
    ensures Tight().Shape() && (Tight().Used(b) <==> b % BPB != BPB - 1)
  {
    hide Mask;
    ByteBits(b % 8);
    LastOfEight(b);
  }

  lemma TightInv()
    ensures Inv(Tight())
  {
    hide Bit, WordAt;
    var s := Tight();
    TightUsed(0);
    forall b: nat | b < s.nmeta ensures s.Used(b) {
      TightUsed(b);
    }
    forall b | b in s.owner ensures OwnedOk(s, b) {
      TightUsed(b);
    }
    forall t | s.Has(t) ensures SlotOk(s, t) {
      assert s.Addr(t) != 0 ==> InFile(s.Addr(t));
    }
    forall bn: nat | bn * BSIZE < s.inodes[0].size ensures s.Has(DataSlot(0, bn)) && s.Addr(DataSlot(0, bn)) != 0 {
      assert bn < NDIRECT;
    }
    assert NoHoles(s, 0);
  }

  lemma TightFree()
    ensures Tight().Shape() && Free(Tight()) == {BPB - 1, 2 * BPB - 1, 3 * BPB - 1, 4 * BPB - 1}
    ensures |Free(Tight())| == 4
  {
    hide Bit;
    TightUsed(0);
    forall b: nat | b < 4 * BPB
      ensures b in Free(Tight()) <==> b in {BPB - 1, 2 * BPB - 1, 3 * BPB - 1, 4 * BPB - 1}
    {
      TightUsed(b);
      Ends(b);
    }
    var f := {BPB - 1, 2 * BPB - 1, 3 * BPB - 1, 4 * BPB - 1};
    assert |f| == 4;
    assert Free(Tight()) == f;
  }

  lemma Ends(b: nat)
    requires b < 4 * BPB
    ensures b % BPB == BPB - 1 <==> b == BPB - 1 || b == 2 * BPB - 1 || b == 3 * BPB - 1 || b == 4 * BPB - 1
  {
  }

  lemma TightNeed()
    ensures Tight().Shape() && Need(Tight(), 0, 11, 15) == 4
  {
    hide Bit, WordAt;
    TightUsed(0);
    var s, lo := Tight(), 11;
    assert Need(s, 0, lo, lo + 1) == NeedAt(s, 0, lo, lo) == 0;
    assert Need(s, 0, lo, lo + 2) == NeedAt(s, 0, lo, lo + 1) == 2;
    assert Need(s, 0, lo, lo + 3) == 3;
  }

  /** Four blocks that were free lie in four free map blocks. */
  lemma FarApart(a: nat, b: nat)
    requires a in Free(Tight()) && b in Free(Tight()) && a != b
    ensures a / BPB != b / BPB
  {
    hide Bit, Full, Free;
    TightFree();
  }

  /** After the write the four new blocks are four of the free ones. */
  lemma NewFour(s': Fs)
    requires Owners(s') && Filled(Tight(), s', 0, 11, 15) && s'.Has(Pointer(0))
    requires forall bn :: 11 <= bn < 15 ==> s'.Addr(DataSlot(0, bn)) != 0
    ensures s'.Ptr(0) != 0 && s'.Ptr(0) in Free(Tight())
    ensures forall j :: 0 <= j < 3 ==> s'.Addr(Entry(0, j)) in Free(Tight())
  {
    hide Bit, WordAt, Free, Owners, Need;
    TightInv();
    InvShape(Tight());
    NewWasFree(Tight(), s', Pointer(0));
    forall j | 0 <= j < 3 ensures s'.Addr(Entry(0, j)) in Free(Tight()) {
      assert DataSlot(0, 12 + j) == Entry(0, j);
      NewWasFree(Tight(), s', Entry(0, j));
    }
  }

  lemma TenLogged(s': Fs, l: set<nat>)
    requires Owners(s') && Filled(Tight(), s', 0, 11, 15) && s'.Has(Pointer(0))
    requires Logs(BMAPSTART, INODESTART, Tight(), s', 0, 11 * BSIZE + 1, 3 * BSIZE, 3 * BSIZE, {}, l)
    ensures |l| == MAXOPBLOCKS
  {
    hide Bit, WordAt, Full, Free, Need, Owners, WriteSet;
    TightUsed(0);
    OwnersHasShape(s');
    NewFour(s');
    var p, a1, a2, a3 := s'.Ptr(0), s'.Addr(Entry(0, 0)), s'.Addr(Entry(0, 1)), s'.Addr(Entry(0, 2));
    assert a1 == s'.Addr(DataSlot(0, 12)) && a2 == s'.Addr(DataSlot(0, 13)) && a3 == s'.Addr(DataSlot(0, 14));
    OwnsIts(s', Pointer(0));
    OwnsIts(s', Entry(0, 0));
    OwnsIts(s', Entry(0, 1));
    OwnsIts(s', Entry(0, 2));
    FarApart(p, a1);
    FarApart(p, a2);
    FarApart(p, a3);
    FarApart(a1, a2);
    FarApart(a1, a3);
    FarApart(a2, a3);
    ChunkBoundReached(BMAPSTART, INODESTART, Tight(), s', 0, l);
  }

  /** A chunk of three blocks' worth of bytes on this disk logs MAXOPBLOCKS blocks. */
  method ChunkNeedsTen() returns (fs: FileSystem, r: Written)
    ensures r == Wrote(3 * BSIZE) && |fs.logged| == MAXOPBLOCKS
  {
    hide Bit, WordAt, Full, Free, Need, Inv, Owners, WroteBytes, WriteSet, Logs, Filled;
    var s := Tight();
    TightInv();
    InvShape(s);
    TightFree();
    TightNeed();
    fs := new FileSystem(s, BMAPSTART, INODESTART);
    var off := 11 * BSIZE + 1;
    CopiedAll(off, 3 * BSIZE, 3 * BSIZE, 0);
    assert TouchedEnd(off, 3 * BSIZE, 3 * BSIZE) == 15;
    r := fs.Writei(0, off, seq(3 * BSIZE, _ => 7), 3 * BSIZE);
    InvShape(fs.Image());
    FilledHas(s, fs.Image(), 0, 11, 15);
    TenLogged(fs.Image(), fs.logged);
  }

  // ---------- truncation on disks with more than nine free map blocks ----------

  predicate InWide(b: nat) {
    b == NMETA || (b > 0 && b % BPB == 0)
  }

  function WideBlock(i: nat): nat {
    if i == 0 then NMETA else if i < 10 then i * BPB else 0
  }

  /** One file of ten blocks, each with its bit in another free map block, on a full disk. */
  function Wide(size: nat): Fs {
    Fs(NMETA, seq(size / 8 + 1, _ => 0xff), seq(size, _ => Zero()),
       [Inode(10 * BSIZE, seq(NDIRECT + 1, i requires 0 <= i <= NDIRECT => WideBlock(i)))],
       map b: nat | b <= 9 * BPB && InWide(b) :: b := Direct(0, b / BPB))
  }

  lemma WideUsed(size: nat, b: nat)
    requires b < size && 9 * BPB < size <= 0x1_0000_0000
    ensures Wide(size).Shape() && Wide(size).Used(b)
  {
    hide Mask;
    ByteBits(b % 8);
  }

  lemma WideInv(size: nat)
    requires 9 * BPB < size <= 0x1_0000_0000
    ensures Inv(Wide(size))
  {
    hide Bit, WordAt;
    var s := Wide(size);
    WideUsed(size, 0);
    forall b: nat | b < s.nmeta ensures s.Used(b) {
      WideUsed(size, b);
    }
    forall b | b in s.owner ensures OwnedOk(s, b) {
      WideUsed(size, b);
      assert InWide(b);
    }
    forall t | s.Has(t) ensures SlotOk(s, t) {
      assert s.Addr(t) != 0 ==> InWide(s.Addr(t));
    }
    assert NoHoles(s, 0);
  }

  lemma WideMap(size: nat, x: nat)
    requires BMAPSTART <= x < BMAPSTART + 10
    ensures x in Maps(BMAPSTART, BlocksOf(Wide(size), 0))
  {
    var b := WideBlock(x - BMAPSTART);
    assert InWide(b) && b in BlocksOf(Wide(size), 0) && BBlock(BMAPSTART, b) == x;
  }

  lemma {:induction false} AtLeast(k: nat, l: set<nat>)
    requires INODESTART in l && forall x :: BMAPSTART <= x < BMAPSTART + k ==> x in l
    ensures |l| > k
  {
    if k == 0 {
      assert l == (l - {INODESTART}) + {INODESTART};
    } else {
      var x := BMAPSTART + k - 1;
      assert x in l;
      AtLeast(k - 1, l - {x});
      assert l == (l - {x}) + {x};
    }
  }

  lemma WideLogs(size: nat)
    ensures |Maps(BMAPSTART, BlocksOf(Wide(size), 0)) + {IBlock(INODESTART, 0)}| > MAXOPBLOCKS
  {
    hide Maps, BlocksOf;
    var l := Maps(BMAPSTART, BlocksOf(Wide(size), 0)) + {IBlock(INODESTART, 0)};
    forall x: nat | BMAPSTART <= x < BMAPSTART + 10 ensures x in l {
      WideMap(size, x);
    }
    AtLeast(10, l);
  }

  /** On a disk of this size itrunc stays within the reservation, whatever the file. */
  ghost predicate TruncFits(size: nat) {
    forall s: Fs, n: nat, bm: nat, im: nat :: Inv(s) && |s.blocks| == size ==>
      |Maps(bm, BlocksOf(s, n)) + {IBlock(im, n)}| <= MAXOPBLOCKS
  }

  /** That is so exactly for disks of at most nine free map blocks. */
  lemma TruncFitsExactly(size: nat)
    requires size <= 0x1_0000_0000
    ensures TruncFits(size) <==> size <= (MAXOPBLOCKS - 1) * BPB
  {
    hide Inv, Maps, BlocksOf, IBlock;
    if size <= (MAXOPBLOCKS - 1) * BPB {
      forall s: Fs, n: nat, bm: nat, im: nat | Inv(s) && |s.blocks| == size
        ensures |Maps(bm, BlocksOf(s, n)) + {IBlock(im, n)}| <= MAXOPBLOCKS
      {
        InvShape(s);
        TruncBound(bm, im, s, n);
      }
    } else {
      WideInv(size);
      WideLogs(size);
    }
  }

  /** A run of itrunc on such a disk that logs more blocks than a call reserves. */
  method TruncNeedsEleven(size: nat) returns (fs: FileSystem, ok: bool)
    requires 9 * BPB < size <= 0x1_0000_0000
    ensures ok && |fs.blocks| == size && |fs.logged| > MAXOPBLOCKS
  {
    hide Bit, Inv, Truncated, Maps, BlocksOf;
    var s := Wide(size);
    WideInv(size);
    WideLogs(size);
    fs := new FileSystem(s, BMAPSTART, INODESTART);
    ok := fs.Itrunc(0);
    assert {} + Maps(BMAPSTART, BlocksOf(s, 0)) + {IBlock(INODESTART, 0)}
           == Maps(BMAPSTART, BlocksOf(s, 0)) + {IBlock(INODESTART, 0)};
  }
}
