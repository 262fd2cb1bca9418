/** Bytes, 32-bit little-endian words and bitmap bits, as the file system packs them. */
module Bytes {
  const BSIZE := 1024
  const NINDIRECT := 256

  newtype byte = x: int | 0 <= x < 256

  type Block = b: seq<byte> | |b| == BSIZE witness seq(BSIZE, _ => 0)
  type Word = w: int | 0 <= w < 0x1_0000_0000

  function Zero(): Block {
    seq(BSIZE, _ => 0)
  }

  // ---------- words ----------

  function Load(b0: byte, b1: byte, b2: byte, b3: byte): Word {
    b0 as int + 256 * (b1 as int) + 65536 * (b2 as int) + 16777216 * (b3 as int)
  }

  /** Entry i of a block read as an array of 32-bit words. */
  function WordAt(b: Block, i: nat): Word
    requires i < NINDIRECT
  {
    Load(b[4 * i], b[4 * i + 1], b[4 * i + 2], b[4 * i + 3])
  }

  function PutWord(b: Block, i: nat, w: Word): (b': Block)
    requires i < NINDIRECT
  {
    b[4 * i := (w % 256) as byte][4 * i + 1 := (w / 256 % 256) as byte]
     [4 * i + 2 := (w / 65536 % 256) as byte][4 * i + 3 := (w / 16777216) as byte]
  }

  lemma LoadStored(w: Word)
    ensures Load((w % 256) as byte, (w / 256 % 256) as byte, (w / 65536 % 256) as byte, (w / 16777216) as byte) == w
  {
    var q1 := w / 256;
    var q2 := q1 / 256;
    assert w / 65536 == q2 && w / 16777216 == q2 / 256;
    assert w == 256 * q1 + w % 256 && q1 == 256 * q2 + q1 % 256 && q2 == 256 * (q2 / 256) + q2 % 256;
  }

  /** Storing one entry changes that entry and no other. */
  lemma PutWordAt(b: Block, i: nat, w: Word, j: nat)
    requires i < NINDIRECT && j < NINDIRECT
    ensures WordAt(PutWord(b, i, w), j) == if j == i then w else WordAt(b, j)
  {
    LoadStored(w);
  }

  lemma ZeroWords(i: nat)
    requires i < NINDIRECT
    ensures WordAt(Zero(), i) == 0
  {
  }

  // ---------- bits ----------

  function Mask(k: nat): bv8
    requires k < 8
  {
    1 << (k as bv4)
  }

  predicate On(x: bv8, k: nat)
    requires k < 8
  {
    x & Mask(k) != 0
  }

  function With(x: bv8, k: nat): bv8
    requires k < 8
  {
    x | Mask(k)
  }

  function Without(x: bv8, k: nat): bv8
    requires k < 8
  {
    x & !Mask(k)
  }

  lemma MaskBits(x: bv8, k: nat, j: nat)
    requires k < 8 && j < 8
    ensures On(With(x, k), j) <==> j == k || On(x, j)
    ensures On(Without(x, k), j) <==> j != k && On(x, j)
  {
    hide Mask;
    MaskIs(k);
    MaskIs(j);
  }

  lemma MaskIs(k: nat)
    requires k < 8
    ensures Mask(k) == if k == 0 then 1 else if k == 1 then 2 else if k == 2 then 4 else if k == 3 then 8
                       else if k == 4 then 16 else if k == 5 then 32 else if k == 6 then 64 else 128
  {
  }

  /** Bit b of the free map: is block b in use? */
  predicate Bit(bm: seq<bv8>, b: nat)
    requires b < 8 * |bm|
  {
    On(bm[b / 8], b % 8)
  }

  function SetBit(bm: seq<bv8>, b: nat): (r: seq<bv8>)
    requires b < 8 * |bm|
    ensures |r| == |bm|
  {
    bm[b / 8 := With(bm[b / 8], b % 8)]
  }

  function ClearBit(bm: seq<bv8>, b: nat): (r: seq<bv8>)
    requires b < 8 * |bm|
    ensures |r| == |bm|
  {
    bm[b / 8 := Without(bm[b / 8], b % 8)]
  }

  lemma SetBitAt(bm: seq<bv8>, b: nat, c: nat)
    requires b < 8 * |bm| && c < 8 * |bm|
    ensures Bit(SetBit(bm, b), c) <==> c == b || Bit(bm, c)
    ensures Bit(ClearBit(bm, b), c) <==> c != b && Bit(bm, c)
  {
    hide On, With, Without;
    SameByte(b, c);
    if c / 8 == b / 8 {
      MaskBits(bm[b / 8], b % 8, c % 8);
    }
  }

  lemma SameByte(b: nat, c: nat)
    ensures b == c <==> b / 8 == c / 8 && b % 8 == c % 8
  {
  }
}
