/** The on-disk redo log: where it lies, how its header block is laid out, and
    what a disk holds once its log is taken into account. */
module LogDisk {

  const LOGSIZE := 30
  const MAXOPBLOCKS := 10
  const WORDS := 256 // 32-bit words in a block of BSIZE (1024) bytes

  type Word = w: int | 0 <= w < 0x1_0000_0000
  type Block = b: seq<Word> | |b| == WORDS witness seq(WORDS, _ => 0)
  type Disk = seq<Block>

  /** A disk of `size` blocks whose log is the header block `start` followed by
      `nlog - 1` slots. Every other block is a home block. */
  datatype Geometry = Geometry(size: nat, start: nat, nlog: nat) {
    predicate Valid() {
      0 < nlog && start + nlog <= size <= 0x1_0000_0000
    }

    predicate Home(b: int) {
      0 <= b < size && !(start <= b < start + nlog)
    }

    predicate Fits(blocks: seq<int>) {
      && |blocks| <= LOGSIZE
      && |blocks| <= nlog - 1
      && forall t :: 0 <= t < |blocks| ==> Home(blocks[t])
    }

    function Slot(t: nat): nat {
      start + 1 + t
    }
  }

  /** Header block: word 0 is the entry count, word 1 + t the home block of slot t. */
  function HeadBlocks(h: Block): (blocks: seq<Word>)
    requires h[0] <= LOGSIZE
    ensures |blocks| == h[0]
  {
    h[1..1 + h[0]]
  }

  /** Storing a header overwrites only the words it needs: stale entries stay behind it. */
  function PutHead(h: Block, blocks: seq<Word>): (h': Block)
    requires |blocks| <= LOGSIZE
    ensures h'[0] <= LOGSIZE && HeadBlocks(h') == blocks
  {
    [|blocks|] + blocks + h[1 + |blocks|..]
  }

  predicate WellFormed(g: Geometry, d: Disk) {
    && g.Valid()
    && |d| == g.size
    && d[g.start][0] <= LOGSIZE
    && g.Fits(HeadBlocks(d[g.start]))
  }

  function Entries(g: Geometry, d: Disk): (blocks: seq<Word>)
    requires WellFormed(g, d)
    ensures g.Fits(blocks)
  {
    HeadBlocks(d[g.start])
  }

  /** What home block b holds once the first k log entries have been redone:
      the slot of the last such entry for b, or else the block itself. */
  function Lookup(g: Geometry, d: Disk, b: int, k: nat): Block
    requires WellFormed(g, d) && g.Home(b) && k <= |Entries(g, d)|
  {
    if k == 0 then d[b]
    else if Entries(g, d)[k - 1] == b then d[g.Slot(k - 1)]
    else Lookup(g, d, b, k - 1)
  }

  /** A crash now, followed by a complete recovery, leaves exactly `c` in the home blocks. */
  ghost predicate Shows(g: Geometry, d: Disk, c: Disk) {
    && WellFormed(g, d)
    && |c| == g.size
    && forall b :: g.Home(b) ==> Lookup(g, d, b, |Entries(g, d)|) == c[b]
  }

  /** The first k log entries are already reflected in their home blocks. */
  ghost predicate Reflected(g: Geometry, d: Disk, k: nat) {
    && WellFormed(g, d)
    && k <= |Entries(g, d)|
    && forall b :: g.Home(b) ==> Lookup(g, d, b, k) == d[b]
  }

  /** Two disks with the same log give b the same value when they agree on it,
      or when b is logged. */
  lemma {:induction false} LookupAgrees(g: Geometry, d: Disk, d': Disk, b: int, k: nat)
    requires WellFormed(g, d) && WellFormed(g, d') && Entries(g, d) == Entries(g, d')
    requires g.Home(b) && k <= |Entries(g, d)|
    requires forall t: nat :: t < k ==> d[g.Slot(t)] == d'[g.Slot(t)]
    requires d[b] == d'[b] || b in Entries(g, d)[..k]
    ensures Lookup(g, d, b, k) == Lookup(g, d', b, k)
  {
    if k > 0 && Entries(g, d)[k - 1] != b {
      assert Entries(g, d)[..k] == Entries(g, d)[..k - 1] + [Entries(g, d)[k - 1]];
      LookupAgrees(g, d, d', b, k - 1);
    }
  }

  /** write_log: filling slots while the header is empty changes nothing a crash could show. */
  lemma SlotWriteKeepsView(g: Geometry, d: Disk, t: nat, data: Block, c: Disk)
    requires Shows(g, d, c) && Entries(g, d) == [] && t + 1 < g.nlog
    ensures Shows(g, d[g.Slot(t) := data], c)
    ensures Entries(g, d[g.Slot(t) := data]) == []
  {
    var d' := d[g.Slot(t) := data];
    assert d'[g.start] == d[g.start];
    assert forall b :: g.Home(b) ==> d'[b] == d[b];
  }

  /** write_head: one block write switches the view to the logged contents. */
  lemma HeadWriteCommits(g: Geometry, d: Disk, blocks: seq<Word>, c: Disk)
    requires WellFormed(g, d) && g.Fits(blocks) && |c| == g.size
    requires forall t: nat :: t < |blocks| ==> d[g.Slot(t)] == c[blocks[t]]
    requires forall b :: g.Home(b) && b !in blocks ==> d[b] == c[b]
    ensures Shows(g, d[g.start := PutHead(d[g.start], blocks)], c)
    ensures Entries(g, d[g.start := PutHead(d[g.start], blocks)]) == blocks
  {
    var d' := d[g.start := PutHead(d[g.start], blocks)];
    assert WellFormed(g, d') && Entries(g, d') == blocks;
    forall b | g.Home(b) ensures Lookup(g, d', b, |blocks|) == c[b] {
      assert blocks[..|blocks|] == blocks;
      LookupFinds(g, d', b, |blocks|, c);
    }
  }

  lemma {:induction false} LookupFinds(g: Geometry, d: Disk, b: int, k: nat, c: Disk)
    requires WellFormed(g, d) && g.Home(b) && k <= |Entries(g, d)| && |c| == g.size
    requires forall t: nat :: t < k ==> d[g.Slot(t)] == c[Entries(g, d)[t]]
    requires b !in Entries(g, d)[..k] ==> d[b] == c[b]
    ensures Lookup(g, d, b, k) == c[b]
  {
    if k > 0 && Entries(g, d)[k - 1] != b {
      assert Entries(g, d)[..k] == Entries(g, d)[..k - 1] + [Entries(g, d)[k - 1]];
      LookupFinds(g, d, b, k - 1, c);
    }
  }

  /** install_trans: copying entry k home changes nothing a crash could show, and
      extends the installed prefix. */
  lemma InstallKeepsView(g: Geometry, d: Disk, k: nat, c: Disk)
    requires Shows(g, d, c) && Reflected(g, d, k) && k < |Entries(g, d)|
    ensures Shows(g, d[Entries(g, d)[k] := d[g.Slot(k)]], c)
    ensures Reflected(g, d[Entries(g, d)[k] := d[g.Slot(k)]], k + 1)
    ensures Entries(g, d[Entries(g, d)[k] := d[g.Slot(k)]]) == Entries(g, d)
  {
    var es := Entries(g, d);
    var d' := d[es[k] := d[g.Slot(k)]];
    assert d'[g.start] == d[g.start];
    forall b | g.Home(b)
      ensures Lookup(g, d', b, |es|) == c[b] && Lookup(g, d', b, k + 1) == d'[b]
    {
      assert es[..|es|] == es;
      LookupAgrees(g, d, d', b, |es|);
      if es[k] != b {
        LookupAgrees(g, d, d', b, k);
      }
    }
  }

  /** Clearing the header: once every entry is home, the empty log shows the same thing. */
  lemma ClearKeepsView(g: Geometry, d: Disk, c: Disk)
    requires Shows(g, d, c) && Reflected(g, d, |Entries(g, d)|)
    ensures Shows(g, d[g.start := PutHead(d[g.start], [])], c)
    ensures Entries(g, d[g.start := PutHead(d[g.start], [])]) == []
    ensures forall b :: g.Home(b) ==> d[b] == c[b]
  {
    var d' := d[g.start := PutHead(d[g.start], [])];
    assert WellFormed(g, d') && Entries(g, d') == [];
  }

  // ---------- recovery ----------

  /** The disk after the first k log entries have been copied home. */
  function Installed(g: Geometry, d: Disk, k: nat): (r: Disk)
    requires WellFormed(g, d) && k <= |Entries(g, d)|
    ensures WellFormed(g, r) && Entries(g, r) == Entries(g, d)
  {
    if k == 0 then d
    else
      var r := Installed(g, d, k - 1);
      var r' := r[Entries(g, d)[k - 1] := r[g.Slot(k - 1)]];
      assert r'[g.start] == r[g.start];
      r'
  }

  /** The disk when power fails after `writes` block writes of recover_from_log:
      one per entry, then the cleared header. */
  function Boot(g: Geometry, d: Disk, writes: nat): (r: Disk)
    requires WellFormed(g, d)
    ensures WellFormed(g, r)
  {
    var n := |Entries(g, d)|;
    if writes <= n then Installed(g, d, writes)
    else
      var r := Installed(g, d, n);
      var r' := r[g.start := PutHead(r[g.start], [])];
      assert Entries(g, r') == [];
      r'
  }

  /** A series of boots, each cut short after the given number of writes. */
  function Boots(g: Geometry, d: Disk, cuts: seq<nat>): (r: Disk)
    requires WellFormed(g, d)
    ensures WellFormed(g, r)
    decreases |cuts|
  {
    if cuts == [] then d else Boots(g, Boot(g, d, cuts[0]), cuts[1..])
  }

  /** A boot that is not cut short. */
  function Recovered(g: Geometry, d: Disk): Disk
    requires WellFormed(g, d)
  {
    Boot(g, d, |Entries(g, d)| + 1)
  }

  lemma {:induction false} InstalledShows(g: Geometry, d: Disk, k: nat, c: Disk)
    requires Shows(g, d, c) && k <= |Entries(g, d)|
    ensures Shows(g, Installed(g, d, k), c) && Reflected(g, Installed(g, d, k), k)
  {
    if k > 0 {
      InstalledShows(g, d, k - 1, c);
      InstallKeepsView(g, Installed(g, d, k - 1), k - 1, c);
    }
  }

  lemma BootShows(g: Geometry, d: Disk, writes: nat, c: Disk)
    requires Shows(g, d, c)
    ensures Shows(g, Boot(g, d, writes), c)
    ensures writes > |Entries(g, d)| ==>
              && Entries(g, Boot(g, d, writes)) == []
              && forall b :: g.Home(b) ==> Boot(g, d, writes)[b] == c[b]
  {
    var n := |Entries(g, d)|;
    InstalledShows(g, d, if writes <= n then writes else n, c);
    if writes > n {
      ClearKeepsView(g, Installed(g, d, n), c);
    }
  }

  /** Any number of boots cut short anywhere, then one complete recovery, leave
      exactly what the crashed disk showed. */
  lemma {:induction false} RecoveryAfterCrashes(g: Geometry, d: Disk, cuts: seq<nat>, c: Disk)
    requires Shows(g, d, c)
    ensures Shows(g, Boots(g, d, cuts), c)
    ensures Entries(g, Recovered(g, Boots(g, d, cuts))) == []
    ensures forall b :: g.Home(b) ==> Recovered(g, Boots(g, d, cuts))[b] == c[b]
    decreases |cuts|
  {
    if cuts == [] {
      BootShows(g, d, |Entries(g, d)| + 1, c);
    } else {
      BootShows(g, d, cuts[0], c);
      RecoveryAfterCrashes(g, Boot(g, d, cuts[0]), cuts[1..], c);
    }
  }
}
