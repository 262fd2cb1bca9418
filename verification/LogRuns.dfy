/** Runs of the log's code over the cache that end in the "no buffers" panic: the
    condition of `Log.Log.Commit` fails in both of the ways it can. */
module LogRuns {
  import opened LogDisk
  import opened Wrappers
  import LM = LogMachine
  import CM = CacheMachine
  import L = Log
  import BC = BufferCache

  /** Process p has buffer i, nobody has or wants another. */
  ghost predicate Alone(v: CM.Cached, p: nat, i: nat) {
    && |v.buf| == |v.waiting| == CM.NBUF && v.dirty == {} && i < CM.NBUF && v.buf[i].owner == Some(p)
    && forall k :: 0 <= k < CM.NBUF ==> v.waiting[k] == {} && (k != i ==> v.buf[k].owner == None)
  }

  /** A process reads a block, while nobody else has a buffer. */
  method Read(log: L.Log, p: nat, b: nat) returns (i: nat)
    requires log.Valid() && L.Quiet(log.cache.View()) && b < |log.cache.disk|
    requires |log.cache.pinned| < CM.NBUF
    modifies log.cache`buf, log.cache`waiting
    ensures log.Valid() && Alone(log.cache.View(), p, i) && i < |log.cache.buf|
    ensures log.cache.buf[i].Is(CM.ROOTDEV, b) && log.cache.buf[i].valid
  {
    hide LM.Inv, L.PinsFor, BC.Ring, BC.Full, CM.Inv;
    ghost var v := log.cache.View();
    L.HasShape(v);
    L.QuietCanRead(v, b);
    var r := log.cache.Bread(p, CM.ROOTDEV, b);
    i := r.value;
    L.KeepPins(v, log.cache.View(), L.StillPinned(log.m));
  }

  /** The process releases it again. */
  method Release(log: L.Log, p: nat, i: nat)
    requires log.Valid() && Alone(log.cache.View(), p, i)
    modifies log.cache`buf, log.cache`next, log.cache`prev, log.cache`order
    ensures log.Valid() && L.Quiet(log.cache.View())
  {
    hide LM.Inv, L.PinsFor, BC.Ring, BC.Full, CM.Inv;
    ghost var v := log.cache.View();
    L.PinsInRange(v, L.StillPinned(log.m));
    var ok := log.cache.Brelse(p, i);
    L.KeepPins(v, log.cache.View(), L.StillPinned(log.m));
  }

  lemma LogWriteAlone(v: CM.Cached, p: nat, i: nat)
    requires CM.Inv(v) && Alone(v, p, i) && v.buf[i].valid && v.buf[i].blockno < |v.disk|
    ensures CM.Shape(v) && CM.Enabled(v, CM.LogWrite(p, i)) && Alone(CM.Step(v, CM.LogWrite(p, i)), p, i)
  {
  }

  /** One of three open calls logs its next block. */
  method LogNext(log: L.Log, p: nat, i: nat, ghost base: nat)
    requires log.Valid() && Alone(log.cache.View(), p, i) && i < |log.cache.buf| && log.cache.buf[i].valid
    requires log.cache.buf[i].blockno == base + log.n && log.g.Home(base + log.n)
    requires LM.ThreeCallsLogged(log.m, base, log.n) && log.n < LOGSIZE && log.n < log.g.nlog - 1
    modifies log, log.cache
    ensures log.Valid() && Alone(log.cache.View(), p, i) && log.n == old(log.n) + 1
    ensures LM.ThreeCallsLogged(log.m, base, log.n)
  {
    hide LM.Inv, L.PinsFor, BC.Ring, BC.Full, CM.Inv, L.Quiet, L.Log.Valid;
    hide CM.Step, CM.Enabled, Alone, LM.InBounds, LM.LogWriteStep, LM.Enabled, LM.Step, LM.ThreeCallsLogged;
    ghost var k := log.n;
    log.Facts();
    LM.OpenCount(log.g, log.init, log.m);
    LM.Basics(log.g, log.init, log.m);
    LM.LogOneMore(log.g, log.m, base, k, log.cache.buf[i].data);
    LogWriteAlone(log.cache.View(), p, i);
    var ok := log.LogWrite(p, i, k / 10);
    log.Facts();
  }

  /** It reads the block, logs it and releases it. */
  method LogBlock(log: L.Log, p: nat, ghost base: nat, b: nat)
    requires log.Valid() && L.Quiet(log.cache.View()) && b == base + log.n
    requires LM.ThreeCallsLogged(log.m, base, log.n)
    requires log.n < LOGSIZE && log.n < log.g.nlog - 1 && log.g.Home(b)
    modifies log, log.cache
    ensures log.Valid() && L.Quiet(log.cache.View()) && log.n == old(log.n) + 1
    ensures LM.ThreeCallsLogged(log.m, base, log.n)
  {
    hide LM.Inv, L.PinsFor, BC.Ring, BC.Full, CM.Inv, L.Quiet, L.Log.Valid, Alone, LM.ThreeCallsLogged;
    log.Facts();
    LM.CallsRunning(log.m, base, log.n);
    LM.Basics(log.g, log.init, log.m);
    L.PinsInRange(log.cache.View(), log.m.lh);
    var i := Read(log, p, b);
    LogNext(log, p, i, base);
    Release(log, p, i);
  }

  /** Three calls begin. */
  method BeginThree(log: L.Log, ghost base: nat)
    requires log.Valid() && log.m.phase == LM.Running && log.n == 0 && log.outstanding == 0 && !log.committing
    modifies log`m, log`outstanding
    ensures log.Valid() && LM.ThreeCallsLogged(log.m, base, 0)
  {
    hide LM.Inv, L.PinsFor, BC.Ring, BC.Full, CM.Inv;
    LM.OpenCount(log.g, log.init, log.m);
    var ok := log.BeginOp();
    ok := log.BeginOp();
    ok := log.BeginOp();
  }

  /** Three calls begin, log `count` blocks between them, and two of them end. */
  method LogThree(log: L.Log, p: nat, base: nat, count: nat)
    requires log.Valid() && L.Quiet(log.cache.View())
    requires log.m.phase == LM.Running && log.n == 0 && log.outstanding == 0 && !log.committing
    requires count <= LOGSIZE && count <= log.g.nlog - 1
    requires forall b :: base <= b < base + LOGSIZE ==> log.g.Home(b)
    modifies log, log.cache
    ensures log.Valid() && L.Quiet(log.cache.View()) && log.m.phase == LM.Running
    ensures log.outstanding == |log.m.open| == 1 && log.n == count
    ensures forall t :: 0 <= t < count ==> log.block[..count][t] == base + t
  {
    hide LM.Inv, L.PinsFor, BC.Ring, BC.Full, CM.Inv, L.Quiet;
    BeginThree(log, base);
    while log.n < count
      invariant log.Valid() && L.Quiet(log.cache.View()) && log.n <= count
      invariant LM.ThreeCallsLogged(log.m, base, log.n)
    {
      LogBlock(log, p, base, base + log.n);
    }
    ghost var v := log.cache.View();
    var ok := log.EndOp(p, 0);
    L.KeptQuiet(v, log.cache.View());
    ok := log.EndOp(p, 0);
    L.KeptQuiet(v, log.cache.View());
  }

  /** Boot, recovery, and then three calls that log `count` blocks. */
  method Load(g: Geometry, d: Disk, base: nat, count: nat) returns (log: L.Log)
    requires WellFormed(g, d) && count <= LOGSIZE && count <= g.nlog - 1
    requires forall b :: base <= b < base + LOGSIZE ==> g.Home(b)
    ensures fresh(log) && fresh(log.cache) && log.g == g
    ensures log.Valid() && L.Quiet(log.cache.View()) && log.m.phase == LM.Running
    ensures log.outstanding == |log.m.open| == 1 && log.n == count <= |log.block|
    ensures forall t :: 0 <= t < count ==> log.block[..count][t] == base + t
  {
    hide LM.Inv, L.PinsFor, BC.Ring, BC.Full, CM.Inv, L.Quiet;
    log := new L.Log(1, d, g);
    log.RecoverFromLog(1);
    LogThree(log, 1, base, count);
  }

  /** A log of LOGSIZE blocks fills the cache, and the commit finds no buffer. */
  method FullLogPanics(g: Geometry, d: Disk, base: nat) returns (ok: bool)
    requires WellFormed(g, d) && g.nlog > LOGSIZE
    requires forall b :: base <= b < base + LOGSIZE ==> g.Home(b)
    ensures !ok
  {
    hide LM.Inv, L.PinsFor, BC.Ring, BC.Full, CM.Inv, L.Quiet, L.Ready, L.Room, L.Log.Valid;
    var log := Load(g, d, base, LOGSIZE);
    log.Facts();
    LM.Basics(g, log.init, log.m);
    L.QuietReady(log.cache.View(), 1, g, log.block[..log.n]);
    L.QuietRoom(g, log.cache.View(), log.block[..log.n]);
    ok := log.EndOp(1, 0);
  }

  /** The reader's buffer and the pinned ones are all there are. */
  lemma ReaderFills(g: Geometry, v: CM.Cached, q: nat, i: nat, b: nat, lh: seq<Word>)
    requires CM.Inv(v) && Alone(v, q, i) && v.buf[i].Is(CM.ROOTDEV, b)
    requires g.Valid() && g.Fits(lh) && L.PinsFor(v, lh) && g.Home(b) && b !in lh
    requires |lh| == CM.NBUF - 1
    ensures !L.Room(v.buf, g, |lh|)
  {
    var used := v.pinned + {i};
    L.Pigeonhole(used, CM.NBUF);
    forall k: nat | k < CM.NBUF ensures v.buf[k].refcnt > 0 && !v.buf[k].Is(CM.ROOTDEV, g.Slot(0)) {
      assert k in used && CM.Counted(v, k);
    }
    assert !L.CanRead(v.buf, g.Slot(0));
  }

  lemma ReaderElsewhere(g: Geometry, v: CM.Cached, p: nat, q: nat, i: nat, b: nat, lh: seq<Word>)
    requires Alone(v, q, i) && v.buf[i].Is(CM.ROOTDEV, b)
    requires g.Valid() && g.Fits(lh) && g.Home(b) && b !in lh
    ensures L.Ready(v, p, g, lh)
  {
  }

  /** One block less, so that the log of LOGSIZE blocks that the image builder makes is
      long enough, and a process that reads a file meanwhile: the commit panics too. */
  method ReaderPanics(g: Geometry, d: Disk, base: nat) returns (ok: bool)
    requires WellFormed(g, d) && g.nlog >= LOGSIZE
    requires forall b :: base <= b < base + LOGSIZE ==> g.Home(b)
    ensures !ok
  {
    hide LM.Inv, L.PinsFor, BC.Ring, BC.Full, CM.Inv, L.Quiet, L.Ready, L.Room, Alone, L.Log.Valid;
    var log := Load(g, d, base, LOGSIZE - 1);
    log.Facts();
    LM.Basics(g, log.init, log.m);
    L.PinsInRange(log.cache.View(), log.m.lh);
    var b := base + LOGSIZE - 1;
    assert g.Home(b);
    var i := Read(log, 2, b);
    log.Facts();
    ReaderFills(g, log.cache.View(), 2, i, b, log.block[..log.n]);
    ReaderElsewhere(g, log.cache.View(), 1, 2, i, b, log.block[..log.n]);
    ok := log.EndOp(1, 0);
  }

  /** Without the reader the same commit goes through. */
  method AloneCommits(g: Geometry, d: Disk, base: nat) returns (ok: bool)
    requires WellFormed(g, d) && g.nlog >= LOGSIZE
    requires forall b :: base <= b < base + LOGSIZE ==> g.Home(b)
    ensures ok
  {
    hide LM.Inv, L.PinsFor, BC.Ring, BC.Full, CM.Inv, L.Quiet, L.Ready, L.Room, L.Log.Valid;
    var log := Load(g, d, base, LOGSIZE - 1);
    log.Facts();
    LM.Basics(g, log.init, log.m);
    L.QuietReady(log.cache.View(), 1, g, log.block[..log.n]);
    L.QuietRoom(g, log.cache.View(), log.block[..log.n]);
    ok := log.EndOp(1, 0);
  }
}
