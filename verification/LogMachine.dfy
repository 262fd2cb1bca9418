/** The logging layer as a machine of atomic steps: operations open, log blocks
    and close in any interleaving, the last one out commits, and power may fail
    between any two block writes, also during recovery. */
module LogMachine {
  import opened LogDisk

  /** An open file system call and the number of blocks it added to the log. */
  datatype Op = Op(id: nat, spent: nat)

  datatype LoggedWrite = LoggedWrite(op: nat, block: Word, data: Block)

  /** Running covers everything outside the commit and recovery loops; the other
      phases carry the loop index `tail`. */
  datatype Phase = Running | Copying(tail: nat) | Installing(tail: nat) | Recovering(tail: nat)

  /** `cache` is what bread returns for each block. `open`, `hist`, `done` and
      `nextOp` are bookkeeping: the calls in progress, every log_write so far and
      how many of those have been committed. */
  datatype State = State(
    disk: Disk, cache: Disk,
    lh: seq<Word>, outstanding: nat, committing: bool, phase: Phase,
    open: seq<Op>, hist: seq<LoggedWrite>, done: nat, nextOp: nat)

  datatype Action =
    | BeginOp
    | LogWrite(who: nat, block: Word, data: Block)
    | EndOp(who: nat)
    | CopyBlock
    | WriteHead
    | InstallBlock
    | ClearHead
    | FinishCommit
    | Crash

  datatype Outcome = Next(state: State) | Panic

  // ---------- the steps ----------

  /** Waiting conditions of the code, and the callers' discipline: a call adds at
      most MAXOPBLOCKS blocks, all of them home blocks, between begin_op and end_op. */
  predicate Enabled(g: Geometry, s: State, a: Action) {
    match a
    case BeginOp =>
      s.phase == Running && !s.committing
      && |s.lh| + (s.outstanding + 1) * MAXOPBLOCKS <= LOGSIZE
    case LogWrite(who, block, _) =>
      s.phase == Running && who < |s.open| && g.Home(block)
      && (block !in s.lh ==> s.open[who].spent < MAXOPBLOCKS)
    case EndOp(who) => s.phase == Running && who < |s.open|
    case CopyBlock => s.phase.Copying? && s.phase.tail < |s.lh|
    case WriteHead => s.phase == Copying(|s.lh|)
    case InstallBlock => (s.phase.Installing? || s.phase.Recovering?) && s.phase.tail < |s.lh|
    case ClearHead => s.phase == Installing(|s.lh|) || s.phase == Recovering(|s.lh|)
    case FinishCommit => s.phase == Running && s.committing
    case Crash => true
  }

  predicate InBounds(g: Geometry, s: State) {
    && g.Valid() && |s.disk| == |s.cache| == g.size
    && |s.lh| <= LOGSIZE && |s.lh| <= g.nlog - 1
    && (forall t :: 0 <= t < |s.lh| ==> g.Home(s.lh[t]))
    && WellFormed(g, s.disk)
    && s.done <= |s.hist|
  }

  /** bwrite: the block reaches the disk and stays in the cache. */
  function Bwrite(s: State, b: nat, data: Block): State
    requires b < |s.disk| == |s.cache|
  {
    s.(disk := s.disk[b := data], cache := s.cache[b := data])
  }

  function LogWriteStep(g: Geometry, s: State, who: nat, block: Word, data: Block): Outcome
    requires Enabled(g, s, LogWrite(who, block, data)) && InBounds(g, s)
  {
    if |s.lh| >= LOGSIZE || |s.lh| >= g.nlog - 1 then Panic
    else if s.outstanding < 1 then Panic
    else
      var op := s.open[who];
      var s' := s.(cache := s.cache[block := data], hist := s.hist + [LoggedWrite(op.id, block, data)]);
      if block in s.lh then Next(s')
      else Next(s'.(lh := s.lh + [block], open := s.open[who := op.(spent := op.spent + 1)]))
  }

  function EndOpStep(s: State, who: nat): Outcome
    requires who < |s.open|
  {
    if s.committing || s.outstanding == 0 then Panic
    else
      var s' := s.(outstanding := s.outstanding - 1, open := s.open[..who] + s.open[who + 1..]);
      if s'.outstanding > 0 then Next(s')
      else Next(s'.(committing := true, phase := if s.lh == [] then Running else Copying(0)))
  }

  function Step(g: Geometry, s: State, a: Action): Outcome
    requires InBounds(g, s) && Enabled(g, s, a)
  {
    match a
    case BeginOp =>
      Next(s.(outstanding := s.outstanding + 1, open := s.open + [Op(s.nextOp, 0)], nextOp := s.nextOp + 1))
    case LogWrite(who, block, data) => LogWriteStep(g, s, who, block, data)
    case EndOp(who) => EndOpStep(s, who)
    case CopyBlock =>
      Next(Bwrite(s, g.Slot(s.phase.tail), s.cache[s.lh[s.phase.tail]]).(phase := Copying(s.phase.tail + 1)))
    case WriteHead =>
      Next(Bwrite(s, g.start, PutHead(s.cache[g.start], s.lh)).(phase := Installing(0), done := |s.hist|))
    case InstallBlock =>
      var t := s.phase.tail;
      Next(Bwrite(s, s.lh[t], s.cache[g.Slot(t)])
           .(phase := if s.phase.Installing? then Installing(t + 1) else Recovering(t + 1)))
    case ClearHead =>
      Next(Bwrite(s, g.start, PutHead(s.cache[g.start], [])).(lh := [], phase := Running))
    case FinishCommit => Next(s.(committing := false))
    case Crash =>
      // memory is lost; the next boot reads the header back from the disk
      Next(s.(cache := s.disk, lh := Entries(g, s.disk), outstanding := 0, committing := false,
              phase := Recovering(0), open := [], hist := s.hist[..s.done]))
  }

  /** Action a can happen in s and leads to s'. */
  ghost predicate Takes(g: Geometry, s: State, a: Action, s': State) {
    InBounds(g, s) && Enabled(g, s, a) && Step(g, s, a) == Next(s')
  }

  // ---------- meaning ----------

  /** The disk contents after a list of writes. */
  function Replay(init: Disk, writes: seq<LoggedWrite>): (d: Disk)
    ensures |d| == |init|
  {
    if writes == [] then init
    else
      var d := Replay(init, writes[..|writes| - 1]);
      var w := writes[|writes| - 1];
      if w.block < |d| then d[w.block := w.data] else d
  }

  /** What a crash would leave: the effect of the committed writes. */
  function Committed(init: Disk, s: State): Disk
    requires s.done <= |s.hist|
  {
    Replay(init, s.hist[..s.done])
  }

  /** No call has writes on both sides of the commit point. */
  ghost predicate WholeOps(s: State) {
    s.done <= |s.hist|
    && forall i, j :: 0 <= i < s.done <= j < |s.hist| ==> s.hist[i].op != s.hist[j].op
  }

  /** Log blocks still reserved by the open calls. */
  function Unspent(open: seq<Op>): int {
    if open == [] then 0 else MAXOPBLOCKS - open[0].spent + Unspent(open[1..])
  }

  // ---------- invariant ----------

  ghost predicate NoRepeats(blocks: seq<Word>) {
    forall t, u :: 0 <= t < u < |blocks| ==> blocks[t] != blocks[u]
  }

  ghost predicate Counting(s: State) {
    && s.outstanding == |s.open|
    && (s.committing ==> s.open == [])
    && (forall i :: 0 <= i < |s.open| ==> s.open[i].spent <= MAXOPBLOCKS)
    && (s.phase.Recovering? || |s.lh| + Unspent(s.open) <= LOGSIZE)
  }

  ghost predicate Histories(s: State) {
    && WholeOps(s)
    && (forall i :: 0 <= i < |s.open| ==> s.open[i].id < s.nextOp)
    && (forall i, j :: 0 <= i < j < |s.open| ==> s.open[i].id != s.open[j].id)
    && (forall i :: 0 <= i < |s.hist| ==> s.hist[i].op < s.nextOp)
    && (forall i, j :: 0 <= i < s.done && 0 <= j < |s.open| ==> s.hist[i].op != s.open[j].id)
    && (s.phase.Running? || s.phase.Copying?
        ==> forall i :: s.done <= i < |s.hist| ==> s.hist[i].block in s.lh)
  }

  /** The cache: logged blocks hold the newest writes, all others equal the disk. */
  ghost predicate Coherent(g: Geometry, init: Disk, s: State)
    requires InBounds(g, s) && |init| == g.size
  {
    if s.phase.Recovering? then s.cache == s.disk
    else
      && NoRepeats(s.lh)
      && (forall b :: 0 <= b < g.size && b !in s.lh ==> s.cache[b] == s.disk[b])
      && (forall b :: g.Home(b) ==> s.cache[b] == Replay(init, s.hist)[b])
  }

  ghost predicate PhaseOk(g: Geometry, s: State)
    requires InBounds(g, s)
  {
    match s.phase
    case Running => Entries(g, s.disk) == [] && (s.committing || s.open == [] ==> s.lh == [])
    case Copying(k) =>
      && s.committing && Entries(g, s.disk) == [] && k <= |s.lh|
      && forall t: nat :: t < k ==> s.disk[g.Slot(t)] == s.cache[s.lh[t]]
    case Installing(k) =>
      && s.committing && Entries(g, s.disk) == s.lh && Reflected(g, s.disk, k)
      && s.done == |s.hist|
      && forall t: nat :: t < |s.lh| ==> s.disk[g.Slot(t)] == s.cache[s.lh[t]]
    case Recovering(k) =>
      && !s.committing && s.open == [] && s.lh == Entries(g, s.disk) && Reflected(g, s.disk, k)
      && s.done == |s.hist|
  }

  ghost predicate Inv(g: Geometry, init: Disk, s: State) {
    && InBounds(g, s) && |init| == g.size
    && Shows(g, s.disk, Committed(init, s))
    && Counting(s)
    && Histories(s)
    && Coherent(g, init, s)
    && PhaseOk(g, s)
  }

  // ---------- every step keeps the invariant ----------

  lemma {:induction false} UnspentAppend(open: seq<Op>, op: Op)
    ensures Unspent(open + [op]) == Unspent(open) + MAXOPBLOCKS - op.spent
  {
    if open != [] {
      assert (open + [op])[1..] == open[1..] + [op];
      UnspentAppend(open[1..], op);
    }
  }

  lemma {:induction false} UnspentUpdate(open: seq<Op>, i: nat, op: Op)
    requires i < |open|
    ensures Unspent(open[i := op]) == Unspent(open) + open[i].spent - op.spent
  {
    if i > 0 {
      assert open[i := op][1..] == open[1..][i - 1 := op];
      UnspentUpdate(open[1..], i - 1, op);
    }
  }

  lemma {:induction false} UnspentRemove(open: seq<Op>, i: nat)
    requires i < |open|
    ensures Unspent(open[..i] + open[i + 1..]) == Unspent(open) - MAXOPBLOCKS + open[i].spent
  {
    if i == 0 {
      assert open[..0] + open[1..] == open[1..];
    } else {
      assert (open[..i] + open[i + 1..])[1..] == open[1..][..i - 1] + open[1..][i..];
      UnspentRemove(open[1..], i - 1);
    }
  }

  lemma {:induction false} UnspentAtMost(open: seq<Op>)
    ensures Unspent(open) <= |open| * MAXOPBLOCKS
    ensures (forall i :: 0 <= i < |open| ==> open[i].spent <= MAXOPBLOCKS) ==> 0 <= Unspent(open)
  {
    if open != [] {
      UnspentAtMost(open[1..]);
    }
  }

  /** An operation that still has budget finds room in the log. */
  lemma {:induction false} BudgetBelow(open: seq<Op>, who: nat)
    requires who < |open|
    requires forall i :: 0 <= i < |open| ==> open[i].spent <= MAXOPBLOCKS
    ensures MAXOPBLOCKS - open[who].spent <= Unspent(open)
  {
    if who == 0 {
      UnspentAtMost(open[1..]);
    } else {
      BudgetBelow(open[1..], who - 1);
    }
  }

  lemma BeginKeepsInv(g: Geometry, init: Disk, s: State)
    requires Inv(g, init, s) && Enabled(g, s, BeginOp)
    ensures Inv(g, init, Step(g, s, BeginOp).state)
  {
    UnspentAppend(s.open, Op(s.nextOp, 0));
    UnspentAtMost(s.open);
  }

  lemma LogWriteKeepsCounting(g: Geometry, s: State, who: nat, block: Word, data: Block)
    requires InBounds(g, s) && Counting(s) && Enabled(g, s, LogWrite(who, block, data))
    ensures
      var r := Step(g, s, LogWrite(who, block, data));
      r.Next? ==> InBounds(g, r.state) && Counting(r.state)
  {
    var op := s.open[who];
    UnspentUpdate(s.open, who, op.(spent := op.spent + 1));
  }

  lemma LogWriteKeepsHistories(g: Geometry, s: State, who: nat, block: Word, data: Block)
    requires InBounds(g, s) && Histories(s) && Enabled(g, s, LogWrite(who, block, data))
    ensures
      var r := Step(g, s, LogWrite(who, block, data));
      r.Next? ==> Histories(r.state)
  {
    var r := Step(g, s, LogWrite(who, block, data));
    if r.Next? {
      assert r.state.hist == s.hist + [LoggedWrite(s.open[who].id, block, data)];
      assert forall b :: b in s.lh ==> b in r.state.lh;
      assert block in r.state.lh;
      assert forall i :: 0 <= i < |s.open| ==> r.state.open[i].id == s.open[i].id;
    }
  }

  lemma LogWriteKeepsCoherent(g: Geometry, init: Disk, s: State, who: nat, block: Word, data: Block)
    requires InBounds(g, s) && |init| == g.size && s.phase == Running && Coherent(g, init, s)
    requires Enabled(g, s, LogWrite(who, block, data))
    ensures
      var r := Step(g, s, LogWrite(who, block, data));
      r.Next? ==> InBounds(g, r.state) && Coherent(g, init, r.state)
  {
    var r := Step(g, s, LogWrite(who, block, data));
    if r.Next? {
      assert r.state.hist[..|r.state.hist| - 1] == s.hist;
      assert Replay(init, r.state.hist) == Replay(init, s.hist)[block := data];
    }
  }

  lemma LogWriteKeepsInv(g: Geometry, init: Disk, s: State, who: nat, block: Word, data: Block)
    requires Inv(g, init, s) && Enabled(g, s, LogWrite(who, block, data))
    ensures
      var r := Step(g, s, LogWrite(who, block, data));
      r.Next? ==> Inv(g, init, r.state)
  {
    var r := Step(g, s, LogWrite(who, block, data));
    LogWriteKeepsCounting(g, s, who, block, data);
    LogWriteKeepsHistories(g, s, who, block, data);
    if r.Next? {
      LogWriteKeepsCoherent(g, init, s, who, block, data);
      assert r.state.hist[..s.done] == s.hist[..s.done];
    }
  }

  lemma EndKeepsHistories(g: Geometry, s: State, who: nat)
    requires InBounds(g, s) && Counting(s) && Histories(s) && Enabled(g, s, EndOp(who))
    ensures
      var r := Step(g, s, EndOp(who));
      r.Next? && Histories(r.state)
  {
    var s' := Step(g, s, EndOp(who)).state;
    assert forall i :: 0 <= i < |s'.open| ==> s'.open[i] == s.open[if i < who then i else i + 1];
  }

  lemma EndKeepsCounting(g: Geometry, s: State, who: nat)
    requires InBounds(g, s) && Counting(s) && Enabled(g, s, EndOp(who))
    ensures
      var r := Step(g, s, EndOp(who));
      r.Next? && Counting(r.state)
  {
    UnspentRemove(s.open, who);
    var s' := Step(g, s, EndOp(who)).state;
    assert forall i :: 0 <= i < |s'.open| ==> s'.open[i] == s.open[if i < who then i else i + 1];
  }

  lemma EndKeepsInv(g: Geometry, init: Disk, s: State, who: nat)
    requires Inv(g, init, s) && Enabled(g, s, EndOp(who))
    ensures
      var r := Step(g, s, EndOp(who));
      r.Next? && Inv(g, init, r.state)
  {
    EndKeepsHistories(g, s, who);
    EndKeepsCounting(g, s, who);
    var s' := Step(g, s, EndOp(who)).state;
    assert s'.open == [] <==> s'.outstanding == 0;
    assert Committed(init, s') == Committed(init, s);
  }

  lemma CopyKeepsCoherent(g: Geometry, init: Disk, s: State)
    requires Inv(g, init, s) && Enabled(g, s, CopyBlock)
    ensures
      var s' := Step(g, s, CopyBlock).state;
      InBounds(g, s') && Coherent(g, init, s')
  {
    hide PhaseOk, Counting, Histories, Shows, Replay;
  }

  lemma CopyKeepsPhase(g: Geometry, init: Disk, s: State)
    requires Inv(g, init, s) && Enabled(g, s, CopyBlock)
    ensures
      var s' := Step(g, s, CopyBlock).state;
      InBounds(g, s') && PhaseOk(g, s') && Shows(g, s'.disk, Committed(init, s'))
  {
    hide Counting, Histories, Shows, Replay;
    var t := s.phase.tail;
    SlotWriteKeepsView(g, s.disk, t, s.cache[s.lh[t]], Committed(init, s));
  }

  lemma CopyKeepsInv(g: Geometry, init: Disk, s: State)
    requires Inv(g, init, s) && Enabled(g, s, CopyBlock)
    ensures Inv(g, init, Step(g, s, CopyBlock).state)
  {
    hide PhaseOk, Coherent, Shows, Replay;
    CopyKeepsCoherent(g, init, s);
    CopyKeepsPhase(g, init, s);
  }

  /** write_head is the commit: the disk then shows every write made so far. */
  lemma HeadCommits(g: Geometry, init: Disk, s: State)
    requires Inv(g, init, s) && Enabled(g, s, WriteHead)
    ensures
      var d' := Step(g, s, WriteHead).state.disk;
      Shows(g, d', Replay(init, s.hist)) && Entries(g, d') == s.lh
    ensures
      var s' := Step(g, s, WriteHead).state;
      InBounds(g, s') && Committed(init, s') == Replay(init, s.hist)
  {
    assert s.hist[..|s.hist|] == s.hist;
    var c := Replay(init, s.hist);
    forall t: nat | t < |s.lh| ensures s.disk[g.Slot(t)] == c[s.lh[t]] {
      assert g.Home(s.lh[t]);
    }
    HeadWriteCommits(g, s.disk, s.lh, c);
    assert s.cache[g.start] == s.disk[g.start];
  }

  lemma HeadKeepsPhase(g: Geometry, init: Disk, s: State)
    requires Inv(g, init, s) && Enabled(g, s, WriteHead)
    requires
      var d' := Step(g, s, WriteHead).state.disk;
      WellFormed(g, d') && Entries(g, d') == s.lh
    ensures
      var s' := Step(g, s, WriteHead).state;
      Coherent(g, init, s') && PhaseOk(g, s')
  {
  }

  lemma HeadKeepsHistories(g: Geometry, s: State)
    requires InBounds(g, s) && Counting(s) && Histories(s) && Enabled(g, s, WriteHead) && s.committing
    ensures
      var s' := Step(g, s, WriteHead).state;
      Counting(s') && Histories(s')
  {
  }

  lemma HeadKeepsInv(g: Geometry, init: Disk, s: State)
    requires Inv(g, init, s) && Enabled(g, s, WriteHead)
    ensures Inv(g, init, Step(g, s, WriteHead).state)
  {
    HeadCommits(g, init, s);
    HeadKeepsPhase(g, init, s);
    HeadKeepsHistories(g, s);
  }

  lemma InstallKeepsCoherent(g: Geometry, init: Disk, s: State)
    requires Inv(g, init, s) && Enabled(g, s, InstallBlock)
    ensures
      var s' := Step(g, s, InstallBlock).state;
      InBounds(g, s') && Coherent(g, init, s')
  {
    var t := s.phase.tail;
    assert s.cache[g.Slot(t)] == s.disk[g.Slot(t)];
    assert Bwrite(s, s.lh[t], s.cache[g.Slot(t)]).disk[g.start] == s.disk[g.start];
  }

  /** The slot that goes home is as it is on the disk. */
  lemma InstallWrites(g: Geometry, init: Disk, s: State)
    requires Inv(g, init, s) && Enabled(g, s, InstallBlock)
    ensures Step(g, s, InstallBlock).state.disk == s.disk[s.lh[s.phase.tail] := s.disk[g.Slot(s.phase.tail)]]
    ensures s.lh == Entries(g, s.disk) && Reflected(g, s.disk, s.phase.tail)
  {
    hide Shows, Histories, Counting, Reflected;
  }

  lemma InstallKeepsCalls(g: Geometry, s: State)
    requires InBounds(g, s) && Counting(s) && Histories(s) && Enabled(g, s, InstallBlock)
    ensures Counting(Step(g, s, InstallBlock).state) && Histories(Step(g, s, InstallBlock).state)
  {
  }

  lemma InstallKeepsInv(g: Geometry, init: Disk, s: State)
    requires Inv(g, init, s) && Enabled(g, s, InstallBlock)
    ensures Inv(g, init, Step(g, s, InstallBlock).state)
  {
    hide Shows, Coherent, Histories, Counting, Reflected;
    InstallWrites(g, init, s);
    InstallKeepsCalls(g, s);
    InstallKeepsCoherent(g, init, s);
    InstallKeepsView(g, s.disk, s.phase.tail, Committed(init, s));
    InstallKeepsPhase(g, init, s);
  }

  lemma InstallKeepsPhase(g: Geometry, init: Disk, s: State)
    requires Inv(g, init, s) && Enabled(g, s, InstallBlock) && InBounds(g, Step(g, s, InstallBlock).state)
    ensures PhaseOk(g, Step(g, s, InstallBlock).state)
  {
    hide Shows, Histories, Counting, Reflected;
    InstallWrites(g, init, s);
    InstallKeepsView(g, s.disk, s.phase.tail, Committed(init, s));
  }

  lemma ClearKeepsInv(g: Geometry, init: Disk, s: State)
    requires Inv(g, init, s) && Enabled(g, s, ClearHead)
    ensures Inv(g, init, Step(g, s, ClearHead).state)
  {
    assert s.hist[..s.done] == s.hist;
    ClearKeepsView(g, s.disk, Committed(init, s));
  }

  lemma CrashKeepsInv(g: Geometry, init: Disk, s: State)
    requires Inv(g, init, s)
    ensures Inv(g, init, Step(g, s, Crash).state)
  {
    var s' := Step(g, s, Crash).state;
    assert s'.hist[..s'.done] == s.hist[..s.done];
  }

  lemma StepKeepsInv(g: Geometry, init: Disk, s: State, a: Action)
    requires Inv(g, init, s) && Enabled(g, s, a)
    ensures Step(g, s, a).Next? ==> Inv(g, init, Step(g, s, a).state)
  {
    match a
    case BeginOp => BeginKeepsInv(g, init, s);
    case LogWrite(who, block, data) => LogWriteKeepsInv(g, init, s, who, block, data);
    case EndOp(who) => EndKeepsInv(g, init, s, who);
    case CopyBlock => CopyKeepsInv(g, init, s);
    case WriteHead => HeadKeepsInv(g, init, s);
    case InstallBlock => InstallKeepsInv(g, init, s);
    case ClearHead => ClearKeepsInv(g, init, s);
    case FinishCommit =>
    case Crash => CrashKeepsInv(g, init, s);
  }

  lemma Basics(g: Geometry, init: Disk, s: State)
    requires Inv(g, init, s)
    ensures g.Valid() && |s.disk| == |s.cache| == g.size && g.Fits(s.lh) && s.done <= |s.hist|
    ensures !s.phase.Recovering? ==> NoRepeats(s.lh)
    ensures s.phase.Installing? || s.phase.Recovering? ==> s.done == |s.hist| && s.open == []
    ensures Shows(g, s.disk, Committed(init, s))
  {
  }

  lemma OpenCount(g: Geometry, init: Disk, s: State)
    requires Inv(g, init, s)
    ensures InBounds(g, s) && |s.open| == s.outstanding
  {
  }

  /** The disk-writing steps spelled out. */
  lemma CopyTakes(g: Geometry, init: Disk, s: State, s': State)
    requires Inv(g, init, s) && Enabled(g, s, CopyBlock)
    requires |s.cache| == |s.disk| == g.size && g.Fits(s.lh)
    requires s' == Bwrite(s, g.Slot(s.phase.tail), s.cache[s.lh[s.phase.tail]]).(phase := Copying(s.phase.tail + 1))
    ensures Takes(g, s, CopyBlock, s') && Inv(g, init, s')
  {
    CopyKeepsInv(g, init, s);
  }

  lemma LogWriteTakes(g: Geometry, init: Disk, s: State, who: nat, block: Word, data: Block)
    requires Inv(g, init, s) && InBounds(g, s) && Enabled(g, s, LogWrite(who, block, data))
    ensures
      var r := LogWriteStep(g, s, who, block, data);
      && (r.Next? <==> |s.lh| < LOGSIZE && |s.lh| < g.nlog - 1 && s.outstanding >= 1)
      && (r.Next? ==>
          && Takes(g, s, LogWrite(who, block, data), r.state) && Inv(g, init, r.state)
          && r.state.disk == s.disk && r.state.cache == s.cache[block := data]
          && r.state.lh == (if block in s.lh then s.lh else s.lh + [block])
          && r.state.outstanding == s.outstanding && r.state.committing == s.committing && r.state.phase == Running)
  {
    LogWriteKeepsInv(g, init, s, who, block, data);
  }

  lemma HeadTakes(g: Geometry, init: Disk, s: State, s': State)
    requires Inv(g, init, s) && Enabled(g, s, WriteHead)
    requires |s.cache| == |s.disk| == g.size && g.Valid() && g.Fits(s.lh)
    requires s' == Bwrite(s, g.start, PutHead(s.cache[g.start], s.lh)).(phase := Installing(0), done := |s.hist|)
    ensures Takes(g, s, WriteHead, s') && Inv(g, init, s')
  {
    HeadKeepsInv(g, init, s);
  }

  lemma InstallTakes(g: Geometry, init: Disk, s: State, s': State)
    requires Inv(g, init, s) && Enabled(g, s, InstallBlock)
    requires |s.cache| == |s.disk| == g.size && g.Fits(s.lh)
    requires s' == Bwrite(s, s.lh[s.phase.tail], s.cache[g.Slot(s.phase.tail)])
                   .(phase := if s.phase.Installing? then Installing(s.phase.tail + 1)
                       else Recovering(s.phase.tail + 1))
    ensures Takes(g, s, InstallBlock, s') && Inv(g, init, s')
  {
    InstallKeepsInv(g, init, s);
  }

  lemma ClearTakes(g: Geometry, init: Disk, s: State, s': State)
    requires Inv(g, init, s) && Enabled(g, s, ClearHead)
    requires |s.cache| == |s.disk| == g.size && g.Valid()
    requires s' == Bwrite(s, g.start, PutHead(s.cache[g.start], [])).(lh := [], phase := Running)
    ensures Takes(g, s, ClearHead, s') && Inv(g, init, s')
  {
    ClearKeepsInv(g, init, s);
  }

  // ---------- whole runs ----------

  /** The machine at power-on, whatever transaction the disk's log still holds. */
  function Start(g: Geometry, d: Disk): State
    requires WellFormed(g, d)
  {
    State(d, d, Entries(g, d), 0, false, Recovering(0), [], [], 0, 0)
  }

  /** `s'` is reached from `s` by the given actions, none of them panicking. */
  ghost predicate Reaches(g: Geometry, s: State, acts: seq<Action>, s': State)
    decreases |acts|
  {
    if acts == [] then s' == s
    else
      && InBounds(g, s) && Enabled(g, s, acts[0]) && Step(g, s, acts[0]).Next?
      && Reaches(g, Step(g, s, acts[0]).state, acts[1..], s')
  }

  lemma StartInv(g: Geometry, d: Disk)
    requires WellFormed(g, d)
    ensures Inv(g, Recovered(g, d), Start(g, d))
  {
    var c := seq(|d|, b requires 0 <= b < |d| =>
      if g.Home(b) then Lookup(g, d, b, |Entries(g, d)|) else d[b]);
    BootShows(g, d, |Entries(g, d)| + 1, c);
  }

  lemma {:induction false} RunKeepsInv(g: Geometry, init: Disk, s: State, acts: seq<Action>, s': State)
    requires Inv(g, init, s) && Reaches(g, s, acts, s')
    ensures Inv(g, init, s')
    decreases |acts|
  {
    if acts != [] {
      StepKeepsInv(g, init, s, acts[0]);
      RunKeepsInv(g, init, Step(g, s, acts[0]).state, acts[1..], s');
    }
  }

  /** Crash atomicity. Stop any run anywhere, let any number of boots be cut short:
      one complete recovery leaves the effect of the committed writes and nothing
      else, and no call is split by the commit point. */
  lemma CrashAtomicity(g: Geometry, d: Disk, acts: seq<Action>, s: State, cuts: seq<nat>)
    requires WellFormed(g, d) && Reaches(g, Start(g, d), acts, s)
    ensures WholeOps(s) && WellFormed(g, s.disk)
    ensures forall b :: g.Home(b) ==>
              Recovered(g, Boots(g, s.disk, cuts))[b] == Replay(Recovered(g, d), s.hist[..s.done])[b]
  {
    StartInv(g, d);
    RunKeepsInv(g, Recovered(g, d), Start(g, d), acts, s);
    RecoveryAfterCrashes(g, s.disk, cuts, Committed(Recovered(g, d), s));
  }

  lemma StepKeepsCommits(g: Geometry, s: State, a: Action)
    requires InBounds(g, s) && Enabled(g, s, a) && Step(g, s, a).Next?
    ensures
      var s' := Step(g, s, a).state;
      s.done <= s'.done <= |s'.hist| && s.hist[..s.done] <= s'.hist[..s'.done]
  {
    var s' := Step(g, s, a).state;
    assert s.hist[..s.done] == s'.hist[..s.done];
  }

  /** What has been committed stays committed, through any later steps and crashes. */
  lemma {:induction false} CommitsAreForever(g: Geometry, init: Disk, s: State, acts: seq<Action>, s': State)
    requires Inv(g, init, s) && Reaches(g, s, acts, s')
    ensures s.done <= |s.hist| && s'.done <= |s'.hist|
    ensures s.hist[..s.done] <= s'.hist[..s'.done]
    decreases |acts|
  {
    if acts != [] {
      StepKeepsInv(g, init, s, acts[0]);
      StepKeepsCommits(g, s, acts[0]);
      CommitsAreForever(g, init, Step(g, s, acts[0]).state, acts[1..], s');
    }
  }

  lemma PendingIsLogged(s: State)
    requires Histories(s) && s.phase == Running && s.done < |s.hist|
    ensures s.lh != []
  {
    assert s.hist[s.done].block in s.lh;
  }

  lemma IdleDisk(g: Geometry, init: Disk, s: State)
    requires Inv(g, init, s) && s.phase == Running && s.open == []
    ensures s.done == |s.hist| && |s.disk| == g.size && s.lh == []
    ensures forall b :: g.Home(b) ==> s.disk[b] == Replay(init, s.hist)[b]
  {
    if s.done < |s.hist| {
      PendingIsLogged(s);
      assert false;
    }
  }

  /** Once the last open call has ended and its commit is over, every write made so
      far is in its home block. */
  lemma IdleIsDurable(g: Geometry, d: Disk, acts: seq<Action>, s: State)
    requires WellFormed(g, d) && Reaches(g, Start(g, d), acts, s)
    requires s.phase == Running && s.open == []
    ensures s.done == |s.hist| && |s.disk| == g.size
    ensures forall b :: g.Home(b) ==> s.disk[b] == Replay(Recovered(g, d), s.hist)[b]
  {
    StartInv(g, d);
    RunKeepsInv(g, Recovered(g, d), Start(g, d), acts, s);
    IdleDisk(g, Recovered(g, d), s);
  }

  /** Group commit: reservations never overflow the log, a commit has no call open,
      and every block is logged once. */
  lemma GroupCommit(g: Geometry, d: Disk, acts: seq<Action>, s: State)
    requires WellFormed(g, d) && Reaches(g, Start(g, d), acts, s)
    requires !s.phase.Recovering?
    ensures |s.lh| + Unspent(s.open) <= LOGSIZE && 0 <= Unspent(s.open)
    ensures s.outstanding == |s.open|
    ensures s.committing || s.phase != Running ==> s.open == []
    ensures NoRepeats(s.lh)
    ensures forall b :: g.Home(b) ==> |s.cache| == g.size && s.cache[b] == Replay(Recovered(g, d), s.hist)[b]
  {
    StartInv(g, d);
    RunKeepsInv(g, Recovered(g, d), Start(g, d), acts, s);
    UnspentAtMost(s.open);
  }

  /** Group commit lets one more call in, when the log is not being committed, exactly if
      all open calls and the new one could each still add ten blocks to what is logged. */
  lemma AdmitsExactly(g: Geometry, d: Disk, acts: seq<Action>, s: State)
    requires WellFormed(g, d) && Reaches(g, Start(g, d), acts, s)
    ensures Enabled(g, s, BeginOp) <==>
              s.phase == Running && !s.committing && 30 - |s.lh| >= 10 * |s.open| + 10
    ensures Enabled(g, s, BeginOp) ==>
              exists s' :: Takes(g, s, BeginOp, s') && |s'.open| == |s.open| + 1 && s'.open[..|s.open|] == s.open
  {
    hide Coherent, Histories;
    StartInv(g, d);
    RunKeepsInv(g, Recovered(g, d), Start(g, d), acts, s);
    if Enabled(g, s, BeginOp) {
      assert Takes(g, s, BeginOp, Step(g, s, BeginOp).state);
    }
  }

  // ---------- progress ----------

  /** A step of a commit or of recovery. */
  predicate Internal(a: Action) {
    a.CopyBlock? || a.WriteHead? || a.InstallBlock? || a.ClearHead? || a.FinishCommit?
  }

  /** Steps left until the commit or the recovery is over. */
  function Left(s: State): int {
    match s.phase
    case Running => if s.committing then 1 else 0
    case Copying(t) => 2 * |s.lh| - t + 3
    case Installing(t) => |s.lh| - t + 2
    case Recovering(t) => |s.lh| - t + 1
  }

  /** A call in progress can always end, and can log any home block while it has one of
      its ten blocks left; outside a commit and recovery nothing else is going on. */
  lemma CallsGoOn(g: Geometry, d: Disk, acts: seq<Action>, s: State, who: nat, block: Word, data: Block)
    requires WellFormed(g, d) && Reaches(g, Start(g, d), acts, s) && who < |s.open|
    ensures Enabled(g, s, EndOp(who)) && Left(s) == 0
    ensures g.Home(block) && s.open[who].spent < 10 ==> Enabled(g, s, LogWrite(who, block, data))
    ensures g.Home(block) && block in s.lh ==> Enabled(g, s, LogWrite(who, block, data))
  {
    hide Coherent, Histories;
    StartInv(g, d);
    RunKeepsInv(g, Recovered(g, d), Start(g, d), acts, s);
  }

  lemma Advances(g: Geometry, init: Disk, s: State) returns (a: Action)
    requires Inv(g, init, s) && Left(s) != 0
    ensures Left(s) > 0 && Internal(a) && InBounds(g, s) && Enabled(g, s, a) && Step(g, s, a).Next?
    ensures
      var s' := Step(g, s, a).state;
      Left(s') == Left(s) - 1 && s'.hist == s.hist && s'.open == s.open
    ensures forall b :: Internal(b) && Enabled(g, s, b) ==> b == a
  {
    hide Coherent, Histories, Shows, Committed, Counting;
    a := match s.phase
    case Running => FinishCommit
    case Copying(t) => if t < |s.lh| then CopyBlock else WriteHead
    case Installing(t) => if t < |s.lh| then InstallBlock else ClearHead
    case Recovering(t) => if t < |s.lh| then InstallBlock else ClearHead;
  }

  lemma {:induction false} Completes(g: Geometry, init: Disk, s: State) returns (more: seq<Action>, s': State)
    requires Inv(g, init, s)
    ensures Left(s) >= 0 && |more| == Left(s) && (forall i :: 0 <= i < |more| ==> Internal(more[i]))
    ensures Reaches(g, s, more, s') && Inv(g, init, s') && Left(s') == 0 && s'.hist == s.hist
    ensures s.open == [] ==> s'.open == []
    decreases Left(s)
  {
    hide Inv, Left, Step, Enabled, InBounds;
    more, s' := [], s;
    if Left(s) != 0 {
      var a := Advances(g, init, s);
      StepKeepsInv(g, init, s, a);
      var rest;
      rest, s' := Completes(g, init, Step(g, s, a).state);
      more := [a] + rest;
      assert more[1..] == rest;
    }
  }

  /** From any state of any run, the commit or recovery in progress has one step to take at
      a time, always has it, and after Left(s) of them is over: the log is empty and every
      write made so far is on disk. */
  lemma CommitEnds(g: Geometry, d: Disk, acts: seq<Action>, s: State) returns (more: seq<Action>, s': State)
    requires WellFormed(g, d) && Reaches(g, Start(g, d), acts, s) && s.open == []
    ensures |more| == Left(s) <= 2 * |s.lh| + 3 && (forall i :: 0 <= i < |more| ==> Internal(more[i]))
    ensures Reaches(g, s, more, s') && s'.phase == Running && !s'.committing
    ensures s'.lh == [] && s'.hist == s.hist && |s'.disk| == g.size
    ensures forall b :: g.Home(b) ==> s'.disk[b] == Replay(Recovered(g, d), s.hist)[b]
  {
    hide Inv, Reaches, Replay, Recovered;
    StartInv(g, d);
    RunKeepsInv(g, Recovered(g, d), Start(g, d), acts, s);
    more, s' := Completes(g, Recovered(g, d), s);
    LeftRange(g, Recovered(g, d), s);
    LeftRange(g, Recovered(g, d), s');
    IdleDisk(g, Recovered(g, d), s');
  }

  lemma RecoveryStep(g: Geometry, d: Disk, s: State, k: nat) returns (a: Action)
    requires WellFormed(g, d) && k <= |Entries(g, d)| && InBounds(g, s) && s.cache == s.disk == Boot(g, d, k)
    requires s.phase == Recovering(k) && s.lh == Entries(g, d)
    ensures Internal(a) && Enabled(g, s, a) && Step(g, s, a).Next?
    ensures
      var s' := Step(g, s, a).state;
      && s'.cache == s'.disk == Boot(g, d, k + 1)
      && (if k < |Entries(g, d)| then s'.phase == Recovering(k + 1) && s'.lh == s.lh else s'.phase == Running)
  {
    a := if k < |Entries(g, d)| then InstallBlock else ClearHead;
  }

  /** The disk a boot leaves when it is cut short after k block writes is the disk after k
      steps of the machine from power-on. */
  lemma {:induction false} BootIsRecovery(g: Geometry, d: Disk, k: nat) returns (acts: seq<Action>, s: State)
    requires WellFormed(g, d) && k <= |Entries(g, d)| + 1
    ensures |acts| == k && (forall i :: 0 <= i < k ==> Internal(acts[i])) && Reaches(g, Start(g, d), acts, s)
    ensures s.cache == s.disk == Boot(g, d, k) && (k > |Entries(g, d)| ==> s.phase == Running)
    ensures k <= |Entries(g, d)| ==> s.phase == Recovering(k) && s.lh == Entries(g, d)
  {
    hide Boot, Enabled, Step, Inv;
    if k == 0 {
      acts, s := [], Start(g, d);
      BootNothing(g, d);
    } else {
      acts, s := BootIsRecovery(g, d, k - 1);
      StartInv(g, d);
      RunKeepsInv(g, Recovered(g, d), Start(g, d), acts, s);
      OpenCount(g, Recovered(g, d), s);
      var a := RecoveryStep(g, d, s, k - 1);
      ReachesThen(g, Start(g, d), acts, s, a);
      acts, s := acts + [a], Step(g, s, a).state;
    }
  }

  lemma BootNothing(g: Geometry, d: Disk)
    requires WellFormed(g, d)
    ensures Boot(g, d, 0) == d
  {
  }

  lemma LeftRange(g: Geometry, init: Disk, s: State)
    requires Inv(g, init, s)
    ensures 0 <= Left(s) <= 2 * |s.lh| + 3 && (Left(s) == 0 <==> s.phase == Running && !s.committing)
  {
    hide Coherent, Histories;
  }

  // ---------- the panics ----------

  /** In any run, end_op never panics; log_write panics exactly when the log is at
      one of its two limits; and a call within its budget never hits the limit with a
      block new to the log, provided the disk has more than LOGSIZE log blocks. */
  lemma PanicsExactly(g: Geometry, d: Disk, acts: seq<Action>, s: State, a: Action)
    requires WellFormed(g, d) && Reaches(g, Start(g, d), acts, s)
    requires InBounds(g, s) && Enabled(g, s, a)
    ensures Step(g, s, a) == Panic <==> a.LogWrite? && (|s.lh| == LOGSIZE || |s.lh| == g.nlog - 1)
    ensures a.LogWrite? && a.block !in s.lh && g.nlog > LOGSIZE ==> Step(g, s, a).Next?
  {
    StartInv(g, d);
    RunKeepsInv(g, Recovered(g, d), Start(g, d), acts, s);
    if a.LogWrite? {
      BudgetBelow(s.open, a.who);
    }
  }

  lemma {:induction false} ReachesThen(g: Geometry, s: State, acts: seq<Action>, s': State, a: Action)
    requires Reaches(g, s, acts, s') && InBounds(g, s') && Enabled(g, s', a) && Step(g, s', a).Next?
    ensures Reaches(g, s, acts + [a], Step(g, s', a).state)
    decreases |acts|
  {
    if acts == [] {
      assert ([] + [a])[1..] == [];
    } else {
      assert (acts + [a])[1..] == acts[1..] + [a];
      ReachesThen(g, Step(g, s, acts[0]).state, acts[1..], s', a);
    }
  }

  ghost predicate ThreeCallsLogged(s: State, base: nat, k: nat) {
    && s.phase == Running && !s.committing && |s.open| == s.outstanding == 3
    && |s.lh| == k && (forall t :: 0 <= t < k ==> s.lh[t] == base + t)
    && forall i :: 0 <= i < 3 ==>
         s.open[i].spent == if k <= 10 * i then 0 else if k >= 10 * i + 10 then 10 else k - 10 * i
  }

  lemma CallsRunning(s: State, base: nat, k: nat)
    requires ThreeCallsLogged(s, base, k)
    ensures s.phase == Running && |s.lh| == k
  {
  }

  lemma OpenThree(g: Geometry, d: Disk, base: nat) returns (acts: seq<Action>, s: State)
    requires WellFormed(g, d) && Entries(g, d) == []
    ensures Reaches(g, Start(g, d), acts, s) && InBounds(g, s) && ThreeCallsLogged(s, base, 0)
  {
    StartInv(g, d);
    acts, s := [], Start(g, d);
    var todo := [ClearHead, BeginOp, BeginOp, BeginOp];
    for i := 0 to 4
      invariant Reaches(g, Start(g, d), acts, s) && Inv(g, Recovered(g, d), s) && s.lh == []
      invariant s.phase == (if i == 0 then Recovering(0) else Running) && !s.committing
      invariant |s.open| == s.outstanding == if i == 0 then 0 else i - 1
      invariant forall j :: 0 <= j < |s.open| ==> s.open[j].spent == 0
    {
      StepKeepsInv(g, Recovered(g, d), s, todo[i]);
      ReachesThen(g, Start(g, d), acts, s, todo[i]);
      acts, s := acts + [todo[i]], Step(g, s, todo[i]).state;
    }
  }

  lemma LogOneMore(g: Geometry, s: State, base: nat, k: nat, data: Block)
    requires InBounds(g, s) && ThreeCallsLogged(s, base, k) && g.Home(base + k)
    requires k < LOGSIZE && k < g.nlog - 1
    ensures
      var a := LogWrite(k / 10, base + k, data);
      && Enabled(g, s, a) && Step(g, s, a).Next? && Step(g, s, a) == LogWriteStep(g, s, k / 10, base + k, data)
      && InBounds(g, Step(g, s, a).state) && ThreeCallsLogged(Step(g, s, a).state, base, k + 1)
      && |Step(g, s, a).state.lh| == k + 1
  {
  }

  /** Three calls open and log k fresh blocks, ten each at most. */
  lemma {:induction false} FillLog(g: Geometry, d: Disk, base: nat, k: nat)
    returns (acts: seq<Action>, s: State)
    requires WellFormed(g, d) && Entries(g, d) == []
    requires k <= LOGSIZE && k <= g.nlog - 1
    requires forall b :: base <= b < base + LOGSIZE ==> g.Home(b)
    ensures Reaches(g, Start(g, d), acts, s) && InBounds(g, s) && ThreeCallsLogged(s, base, k)
  {
    if k == 0 {
      acts, s := OpenThree(g, d, base);
    } else {
      acts, s := FillLog(g, d, base, k - 1);
      assert g.Home(base + (k - 1));
      LogOneMore(g, s, base, k - 1, d[0]);
      var a := LogWrite((k - 1) / 10, base + (k - 1), d[0]);
      ReachesThen(g, Start(g, d), acts, s, a);
      acts, s := acts + [a], Step(g, s, a).state;
    }
  }

  /** With at most LOGSIZE log blocks (the image builder makes exactly that many) the
      reservation is not enough: a call within its budget panics on a fresh block. */
  lemma ShortLogPanics(g: Geometry, d: Disk, base: nat) returns (acts: seq<Action>, s: State, a: Action)
    requires WellFormed(g, d) && Entries(g, d) == [] && g.nlog <= LOGSIZE
    requires forall b :: base <= b < base + LOGSIZE ==> g.Home(b)
    ensures Reaches(g, Start(g, d), acts, s) && InBounds(g, s) && Enabled(g, s, a)
    ensures a.LogWrite? && a.block !in s.lh && Step(g, s, a) == Panic
  {
    var k := g.nlog - 1;
    acts, s := FillLog(g, d, base, k);
    assert g.Home(base + k);
    a := LogWrite(k / 10, base + k, d[0]);
  }

  /** The limit is tested before absorption: on a full log even a block that is
      already logged, and so needs no room, makes log_write panic. */
  lemma AbsorbedWritePanics(g: Geometry, d: Disk, base: nat) returns (acts: seq<Action>, s: State, a: Action)
    requires WellFormed(g, d) && Entries(g, d) == [] && g.nlog > 1
    requires forall b :: base <= b < base + LOGSIZE ==> g.Home(b)
    ensures Reaches(g, Start(g, d), acts, s) && InBounds(g, s) && Enabled(g, s, a)
    ensures a.LogWrite? && a.block in s.lh && Step(g, s, a) == Panic
  {
    acts, s := FillLog(g, d, base, if g.nlog > LOGSIZE then LOGSIZE else g.nlog - 1);
    a := LogWrite(0, s.lh[0], d[0]);
  }
}
