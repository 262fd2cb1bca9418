/** What wait, kill and fork do in every run of the process table: when wait sleeps, who
    wakes it, what it reaps, and which kill it misses. */
module WaitRuns {
  import opened Wrappers
  import opened ExitWait

  // ---------- a step, entry by entry ----------

  /** The entry of the process that takes the step. */
  function Self(s: State, p: nat, a: Action): Proc
    requires Sized(s) && Enabled(s, p, a)
  {
    var x := s.procs[p];
    match a
    case Schedule => x.(st := Running)
    case Yield => x.(st := Runnable)
    case OtherSleep => x.(st := Sleeping, chan := Elsewhere)
    case OtherWake => x.(st := Runnable)
    case Kill => x.(killed := true, st := if x.st == Sleeping then Runnable else x.st)
    case ForkAlloc(np) => x.(pc := Forking(np))
    case ForkFail => x.(pc := Idle)
    case ForkUnlock => x.(pc := Forked(x.pc.np))
    case ForkLink => x.(pc := Linked(x.pc.np))
    case ForkStart => x.(pc := Idle)
    case ExitBegin => x.(pc := Reparent(0))
    case ReparentStep =>
      if x.pc.k >= NPROC then x.(pc := WakeParent(0))
      else if s.procs[x.pc.k].parent != Some(p) then x.(pc := Reparent(x.pc.k + 1))
      else x.(pc := WakeInit(x.pc.k, 0))
    case WakeInitStep => x.(pc := if x.pc.j >= NPROC then Reparent(x.pc.k + 1) else WakeInit(x.pc.k, x.pc.j + 1))
    case WakeParentStep => x.(pc := if x.pc.j >= NPROC then Dying else WakeParent(x.pc.j + 1))
    case ExitZombie => x.(st := Zombie, held := true, pc := Dead1)
    case ExitRelease => x.(pc := Dead2)
    case ExitSwitch => x.(pc := Dead, held := false)
    case WaitBegin => x.(pc := Scan(0, false))
    case ScanStep(_) =>
      var y := s.procs[x.pc.k];
      if y.parent == Some(p) && y.st == Zombie then x.(pc := Idle)
      else x.(pc := Scan(x.pc.k + 1, x.pc.havekids || y.parent == Some(p)))
    case ScanEnd => x.(pc := if x.pc.havekids && !x.killed then Sleep0 else Idle)
    case SleepLock => x.(pc := Sleep1, held := true)
    case SleepRelease => x.(pc := Sleep2)
    case SleepSet => x.(pc := Asleep, chan := OnProc(p), st := Sleeping)
    case SleepSwitch => x.(held := false)
    case Wake => x.(chan := NoChan, pc := Rewait)
    case Relock => x.(pc := Scan(0, false))
  }

  /** Any other entry. */
  function Other(s: State, p: nat, a: Action, q: nat): Proc
    requires Sized(s) && Enabled(s, p, a) && q < NPROC
  {
    var x, y := s.procs[p], s.procs[q];
    match a
    case ForkAlloc(np) => if q == np then y.(st := Used, pid := s.nextpid, held := true) else y
    case ForkFail => if q == x.pc.np then FreeProc(y) else y
    case ForkUnlock => if q == x.pc.np then y.(held := false) else y
    case ForkLink => if q == x.pc.np then y.(parent := Some(p)) else y
    case ForkStart => if q == x.pc.np then y.(st := Runnable) else y
    case ReparentStep => if q == x.pc.k && y.parent == Some(p) then y.(parent := Some(s.init)) else y
    case WakeInitStep => if q == x.pc.j then Awake(y, OnProc(s.init)) else y
    case WakeParentStep => if q == x.pc.j && x.parent.Some? then Awake(y, OnProc(x.parent.value)) else y
    case ScanStep(copyFails) =>
      if q == x.pc.k && y.parent == Some(p) && y.st == Zombie && !copyFails then FreeProc(y) else y
    case _ => y
  }

  /** The steps that can change another entry. */
  predicate TouchesOther(a: Action) {
    || a.ForkAlloc? || a.ForkFail? || a.ForkUnlock? || a.ForkLink? || a.ForkStart?
    || a.ReparentStep? || a.WakeInitStep? || a.WakeParentStep? || a.ScanStep?
  }

  lemma StepAlone(s: State, p: nat, a: Action, q: nat)
    requires Sized(s) && Enabled(s, p, a) && q < NPROC && !TouchesOther(a)
    ensures Sized(Step(s, p, a)) && Step(s, p, a).procs[q] == if q == p then Self(s, p, a) else s.procs[q]
  {
  }

  lemma StepForks(s: State, p: nat, a: Action, q: nat)
    requires Sized(s) && Enabled(s, p, a) && q < NPROC
    requires a.ForkAlloc? || a.ForkFail? || a.ForkUnlock? || a.ForkLink? || a.ForkStart?
    ensures Sized(Step(s, p, a)) && Step(s, p, a).procs[q] == if q == p then Self(s, p, a) else Other(s, p, a, q)
  {
  }

  lemma StepLoops(s: State, p: nat, a: Action, q: nat)
    requires Sized(s) && Enabled(s, p, a) && q < NPROC && s.procs[p].parent != Some(p)
    requires a.ReparentStep? || a.WakeInitStep? || a.WakeParentStep? || a.ScanStep?
    ensures Sized(Step(s, p, a)) && Step(s, p, a).procs[q] == if q == p then Self(s, p, a) else Other(s, p, a, q)
  {
  }

  lemma StepAt(s: State, p: nat, a: Action, q: nat)
    requires Sized(s) && Enabled(s, p, a) && q < NPROC && Inv(s)
    ensures p < NPROC
    ensures Sized(Step(s, p, a)) && Step(s, p, a).procs[q] == if q == p then Self(s, p, a) else Other(s, p, a, q)
  {
    hide Inv, Step, Self;
    if s.procs[p].parent == Some(p) {
      NotOwnChild(s, p);
    }
    if !TouchesOther(a) {
      StepAlone(s, p, a, q);
    } else if a.ForkAlloc? || a.ForkFail? || a.ForkUnlock? || a.ForkLink? || a.ForkStart? {
      StepForks(s, p, a, q);
    } else {
      StepLoops(s, p, a, q);
    }
  }

  // ---------- parents under wait_lock ----------

  ghost predicate HasChild(s: State, p: nat, k: nat) {
    exists c :: 0 <= c < k && c < |s.procs| && s.procs[c].parent == Some(p)
  }

  /** havekids says whether a slot already passed holds a child. */
  predicate ScanSized(pc: Pc) {
    pc.Scan? ==> pc.k <= NPROC
  }

  ghost predicate ScanOk(s: State, p: nat)
    requires Sized(s) && p < NPROC
  {
    var pc := s.procs[p].pc;
    ScanSized(pc) && (pc.Scan? ==> (pc.havekids <==> HasChild(s, p, pc.k)))
  }

  predicate ForksSlot(x: Proc, c: nat) {
    Forks(x.pc) && x.pc.np == c
  }

  predicate Unlinked(x: Proc) {
    (x.pc.Forking? || x.pc.Forked?) && x.pc.np < NPROC
  }

  ghost predicate InFork(s: State, c: nat) {
    exists p :: 0 <= p < |s.procs| && ForksSlot(s.procs[p], c)
  }

  /** fork holds the lock of the new process until everything but its parent is set. */
  predicate HoldsChild(s: State, p: nat)
    requires Sized(s) && p < NPROC
  {
    Forks(s.procs[p].pc) && s.procs[p].pc.np < NPROC ==> (s.procs[s.procs[p].pc.np].held <==> s.procs[p].pc.Forking?)
  }

  /** A half-made process is being made by some fork; it has no parent before it is linked. */
  ghost predicate HalfMade(s: State)
    requires Sized(s)
  {
    && (forall c :: 0 <= c < NPROC && s.procs[c].st == Used ==> InFork(s, c))
    && (forall p :: 0 <= p < NPROC && Unlinked(s.procs[p]) ==> s.procs[s.procs[p].pc.np].parent == None)
    && (forall p :: 0 <= p < NPROC ==> HoldsChild(s, p))
  }

  ghost predicate Kids(s: State)
    requires Sized(s)
  {
    HalfMade(s) && forall p :: 0 <= p < NPROC ==> ScanOk(s, p)
  }

  /** While another process holds wait_lock no parent changes. */
  lemma ParentsFixed(s: State, p: nat, a: Action, q: nat)
    requires Inv(s) && Sized(s) && HalfMade(s) && Enabled(s, p, a)
    requires s.waitLock == Some(q) && q != p && q < NPROC
    ensures
      var s' := Step(s, p, a);
      && Sized(s') && s'.procs[q].pc == s.procs[q].pc
      && forall c :: 0 <= c < NPROC ==> s'.procs[c].parent == s.procs[c].parent
  {
    hide Inv, Step;
    EntryHere(s, p);
    EntryHere(s, q);
    if Forks(s.procs[p].pc) {
      ForkChild(s, p);
    }
    StepAt(s, p, a, q);
    var s' := Step(s, p, a);
    forall c | 0 <= c < NPROC ensures s'.procs[c].parent == s.procs[c].parent {
      StepAt(s, p, a, c);
    }
  }

  lemma SameChildren(s: State, s': State, p: nat, k: nat)
    requires Sized(s) && Sized(s') && forall c :: 0 <= c < NPROC ==> s'.procs[c].parent == s.procs[c].parent
    ensures HasChild(s', p, k) <==> HasChild(s, p, k)
  {
    forall c | 0 <= c < k && c < NPROC ensures s'.procs[c].parent == Some(p) <==> s.procs[c].parent == Some(p) {
    }
  }

  lemma ScanOkOther(s: State, p: nat, a: Action, q: nat)
    requires Inv(s) && Sized(s) && Kids(s) && Enabled(s, p, a) && q < NPROC && q != p
    ensures Sized(Step(s, p, a)) && ScanOk(Step(s, p, a), q)
  {
    hide Inv, Step, HalfMade, HasChild;
    var s' := Step(s, p, a);
    PcsKept(s, p, a, q);
    EntryHere(s, q);
    if s.procs[q].pc.Scan? {
      ParentsFixed(s, p, a, q);
      SameChildren(s, s', q, s.procs[q].pc.k);
      assert ScanOk(s, q);
    }
  }

  /** A step leaves everybody else where it is; a freed slot is nowhere. */
  lemma PcsKept(s: State, p: nat, a: Action, q: nat)
    requires Sized(s) && Enabled(s, p, a) && q < NPROC && q != p && Inv(s)
    ensures Sized(Step(s, p, a)) && (Step(s, p, a).procs[q].pc == s.procs[q].pc || Step(s, p, a).procs[q].pc == Idle)
  {
    hide Inv, Step, Self;
    StepAt(s, p, a, q);
  }

  lemma ScanOkSelf(s: State, p: nat, a: Action)
    requires Inv(s) && Sized(s) && Kids(s) && Enabled(s, p, a)
    ensures Sized(Step(s, p, a)) && ScanOk(Step(s, p, a), p)
  {
    hide Inv, HalfMade, HasChild, Step;
    StepAt(s, p, a, p);
    var s' := Step(s, p, a);
    if s'.procs[p].pc.Scan? {
      assert ScanOk(s, p);
      if a.WaitBegin? || a.Relock? {
        NoSlot(s', p);
      } else {
        ScanParents(s, p, a);
        SameChildren(s, s', p, s.procs[p].pc.k);
        if a.ScanStep? {
          OneMoreSlot(s', p, s.procs[p].pc.k);
        }
      }
    }
  }

  /** Nor does the scan itself change a parent before it ends. */
  lemma ScanParents(s: State, p: nat, a: Action)
    requires Sized(s) && Enabled(s, p, a) && Inv(s) && Self(s, p, a).pc.Scan?
    ensures
      var s' := Step(s, p, a);
      Sized(s') && forall c :: 0 <= c < NPROC ==> s'.procs[c].parent == s.procs[c].parent
  {
    hide Inv, Step;
    EntryHere(s, p);
    StepAt(s, p, a, p);
    var s' := Step(s, p, a);
    forall c | 0 <= c < NPROC ensures s'.procs[c].parent == s.procs[c].parent {
      StepAt(s, p, a, c);
    }
  }

  lemma OneMoreSlot(s: State, p: nat, k: nat)
    requires Sized(s) && k < NPROC
    ensures HasChild(s, p, k + 1) <==> HasChild(s, p, k) || s.procs[k].parent == Some(p)
  {
  }

  lemma NoSlot(s: State, p: nat)
    ensures !HasChild(s, p, 0)
  {
  }

  // ---------- half-made processes ----------

  lemma ForkStays(s: State, p: nat, a: Action, q: nat, c: nat)
    requires Inv(s) && Sized(s) && Enabled(s, p, a) && q < NPROC && q != p && ForksSlot(s.procs[q], c)
    ensures Sized(Step(s, p, a)) && ForksSlot(Step(s, p, a).procs[q], c)
  {
    hide Inv, Step, Self;
    EntryHere(s, q);
    if Forks(s.procs[p].pc) {
      ForkChild(s, p);
    }
    StepAt(s, p, a, q);
  }

  /** A slot in use but not started is of a fork that goes on, or is the one just taken. */
  lemma ForkEnds(s: State, p: nat, a: Action, c: nat)
    requires Inv(s) && Sized(s) && Enabled(s, p, a) && c < NPROC
    ensures
      var s' := Step(s, p, a);
      && Sized(s')
      && (s'.procs[c].st == Used ==>
          ForksSlot(s'.procs[p], c) || (s.procs[c].st == Used && !ForksSlot(s.procs[p], c)))
  {
    hide Inv, Step, Self, Other, Enabled;
    StepAt(s, p, a, c);
    StepAt(s, p, a, p);
    EntryHere(s, p);
    SlotTaken(s, p, a);
    if c != p {
      UsedAfter(s, p, a, c);
    } else if ForksSlot(s.procs[p], c) {
      ForkChild(s, p);
    }
  }

  lemma SlotTaken(s: State, p: nat, a: Action)
    requires Sized(s) && Enabled(s, p, a)
    ensures a.ForkAlloc? ==> ForksSlot(Self(s, p, a), a.np)
    ensures Forks(s.procs[p].pc) && !a.ForkFail? && !a.ForkStart? ==>
              ForksSlot(Self(s, p, a), s.procs[p].pc.np)
    ensures Self(s, p, a).st == Used ==> s.procs[p].st == Used
  {
  }

  lemma UsedAfter(s: State, p: nat, a: Action, c: nat)
    requires Sized(s) && Enabled(s, p, a) && c < NPROC
    ensures Other(s, p, a, c).st == Used ==>
              || a == ForkAlloc(c)
              || (s.procs[c].st == Used && (a.ForkFail? || a.ForkStart? ==> !ForksSlot(s.procs[p], c)))
  {
  }

  lemma UsedKept(s: State, p: nat, a: Action, c: nat)
    requires Inv(s) && Sized(s) && HalfMade(s) && Enabled(s, p, a) && c < NPROC
    ensures Sized(Step(s, p, a)) && (Step(s, p, a).procs[c].st == Used ==> InFork(Step(s, p, a), c))
  {
    hide Inv, Step, ForksSlot;
    var s' := Step(s, p, a);
    PcsKept(s, p, a, if p == 0 then 1 else 0);
    if s'.procs[c].st == Used {
      ForkEnds(s, p, a, c);
      if !ForksSlot(s'.procs[p], c) {
        assert InFork(s, c);
        var q :| 0 <= q < |s.procs| && ForksSlot(s.procs[q], c);
        ForkStays(s, p, a, q, c);
      }
    }
  }

  lemma OwnParent(s: State, p: nat, a: Action)
    requires Sized(s) && Enabled(s, p, a)
    ensures Self(s, p, a).parent == s.procs[p].parent
  {
  }

  /** Only fork gives a parent to a slot that has none. */
  lemma ParentGained(s: State, p: nat, a: Action, c: nat)
    requires Inv(s) && Sized(s) && Enabled(s, p, a) && c < NPROC && s.procs[c].parent == None
    ensures Sized(Step(s, p, a))
    ensures Step(s, p, a).procs[c].parent == None || (a.ForkLink? && ForksSlot(s.procs[p], c))
  {
    hide Inv, Step, Self;
    StepAt(s, p, a, c);
    if c == p {
      OwnParent(s, p, a);
    }
  }

  /** How a process can be in fork after its step. */
  lemma ForkMoves(s: State, p: nat, a: Action)
    requires Sized(s) && Enabled(s, p, a)
    ensures
      var x, y := s.procs[p], Self(s, p, a);
      Forks(y.pc) ==>
        || (a == ForkAlloc(y.pc.np) && y.pc.Forking? && !Forks(x.pc) && s.procs[y.pc.np].st == Unused)
        || (a == ForkUnlock && y.pc.Forked? && x.pc == Forking(y.pc.np))
        || (a == ForkLink && y.pc.Linked? && x.pc == Forked(y.pc.np))
        || (Plain(a) && y.pc == x.pc)
  {
  }

  /** fork's slots before they are linked, after a step. */
  lemma UnlinkedKept(s: State, p: nat, a: Action, q: nat)
    requires Inv(s) && Sized(s) && HalfMade(s) && Enabled(s, p, a) && q < NPROC
    ensures
      var s' := Step(s, p, a);
      Sized(s') && (Unlinked(s'.procs[q]) ==> s'.procs[s'.procs[q].pc.np].parent == None)
  {
    hide Inv, Step, Self, Other, Enabled, InFork, HoldsChild;
    StepAt(s, p, a, q);
    ForkMoves(s, p, a);
    if q != p {
      PcsKept(s, p, a, q);
    }
    var s' := Step(s, p, a);
    if Unlinked(s'.procs[q]) {
      var c := s'.procs[q].pc.np;
      EntryHere(s, c);
      ParentGained(s, p, a, c);
      if q != p && ForksSlot(s.procs[p], c) {
        ForksApart(s, p, q);
      }
    }
  }

  lemma ForksApart(s: State, p: nat, q: nat)
    requires Inv(s) && Sized(s) && p < NPROC && q < NPROC && p != q && Forks(s.procs[p].pc) && Forks(s.procs[q].pc)
    ensures s.procs[p].pc.np != s.procs[q].pc.np
  {
    hide Entries, Parents, Wakes, Pids;
  }

  /** Only its own fork touches the lock of a half-made process. */
  lemma HeldKept(s: State, p: nat, a: Action, c: nat)
    requires Inv(s) && Sized(s) && Enabled(s, p, a) && c < NPROC && s.procs[c].st == Used && !ForksSlot(s.procs[p], c)
    ensures Sized(Step(s, p, a)) && Step(s, p, a).procs[c].held == s.procs[c].held
  {
    hide Inv, Step;
    EntryHere(s, c);
    EntryHere(s, p);
    StepAt(s, p, a, c);
  }

  lemma HoldsChildSelf(s: State, p: nat, a: Action)
    requires Sized(s) && p < NPROC && HoldsChild(s, p) && Enabled(s, p, a) && Inv(s)
    ensures Sized(Step(s, p, a)) && HoldsChild(Step(s, p, a), p)
  {
    hide Inv, Step, Self, Other, Enabled;
    StepAt(s, p, a, p);
    var y := Step(s, p, a).procs[p];
    if Forks(y.pc) && y.pc.np < NPROC {
      ForkMoves(s, p, a);
      if Forks(s.procs[p].pc) {
        ForkChild(s, p);
      } else {
        TakesOther(s, p, a);
      }
      StepAt(s, p, a, y.pc.np);
      HeldAfter(s, p, a, y.pc.np);
    }
  }

  lemma TakesOther(s: State, p: nat, a: Action)
    requires Sized(s) && Enabled(s, p, a) && a.ForkAlloc?
    ensures a.np != p
  {
  }

  lemma HeldAfter(s: State, p: nat, a: Action, q: nat)
    requires Sized(s) && Enabled(s, p, a) && q < NPROC
    ensures a == ForkAlloc(q) ==> Other(s, p, a, q).held
    ensures a.ForkUnlock? && ForksSlot(s.procs[p], q) ==> !Other(s, p, a, q).held
    ensures a.ForkLink? || Plain(a) ==> Other(s, p, a, q).held == s.procs[q].held
  {
  }

  lemma HoldsChildKept(s: State, p: nat, a: Action, q: nat)
    requires Inv(s) && Sized(s) && HalfMade(s) && Enabled(s, p, a) && q < NPROC
    ensures Sized(Step(s, p, a)) && HoldsChild(Step(s, p, a), q)
  {
    hide Inv, Step, InFork, Unlinked;
    assert HoldsChild(s, p) && HoldsChild(s, q);
    if q == p {
      HoldsChildSelf(s, p, a);
    } else {
      PcsKept(s, p, a, q);
      if Forks(s.procs[q].pc) {
        ForkChild(s, q);
        if ForksSlot(s.procs[p], s.procs[q].pc.np) {
          ForksApart(s, p, q);
        }
        HeldKept(s, p, a, s.procs[q].pc.np);
      }
    }
  }

  lemma StepKeepsKids(s: State, p: nat, a: Action)
    requires Inv(s) && Sized(s) && Kids(s) && Enabled(s, p, a)
    ensures Sized(Step(s, p, a)) && Kids(Step(s, p, a))
  {
    hide Inv, Step, InFork, ScanOk, HoldsChild;
    var s' := Step(s, p, a);
    ScanOkSelf(s, p, a);
    forall q | 0 <= q < NPROC ensures ScanOk(s', q) {
      if q != p {
        ScanOkOther(s, p, a, q);
      }
    }
    forall c | 0 <= c < NPROC && s'.procs[c].st == Used ensures InFork(s', c) {
      UsedKept(s, p, a, c);
    }
    forall q | 0 <= q < NPROC ensures HoldsChild(s', q) {
      HoldsChildKept(s, p, a, q);
    }
    forall q | 0 <= q < NPROC && Unlinked(s'.procs[q]) ensures s'.procs[s'.procs[q].pc.np].parent == None {
      UnlinkedKept(s, p, a, q);
    }
  }

  lemma {:induction false} RunKeepsKids(trace: seq<State>, steps: seq<(nat, Action)>, n: nat)
    requires Run(trace, steps) && n < |trace|
    ensures Inv(trace[n]) && Sized(trace[n]) && Kids(trace[n])
  {
    hide Inv, Step, Kids, Boot;
    RunKeepsInv(trace, steps, n);
    if n == 0 {
      BootKids(trace[0]);
    } else {
      RunKeepsKids(trace, steps, n - 1);
      StepKeepsKids(trace[n - 1], steps[n - 1].0, steps[n - 1].1);
    }
  }

  lemma BootKids(s: State)
    requires Boot(s)
    ensures Sized(s) && Kids(s)
  {
  }

  /** A process that is in use but not yet runnable is being made by one fork. */
  lemma MadeByOneFork(trace: seq<State>, steps: seq<(nat, Action)>, n: nat, c: nat)
    requires Run(trace, steps) && n < |trace| && c < NPROC && Sized(trace[n]) && trace[n].procs[c].st == Used
    ensures exists p :: 0 <= p < NPROC && ForksSlot(trace[n].procs[p], c)
    ensures forall p, q ::
              0 <= p < q < NPROC && ForksSlot(trace[n].procs[p], c) ==> !ForksSlot(trace[n].procs[q], c)
  {
    hide Inv, Run;
    RunKeepsKids(trace, steps, n);
    assert InFork(trace[n], c);
    forall p, q | 0 <= p < q < NPROC && ForksSlot(trace[n].procs[p], c) ensures !ForksSlot(trace[n].procs[q], c) {
      if ForksSlot(trace[n].procs[q], c) {
        ForksApart(trace[n], p, q);
      }
    }
  }

  // ---------- wait ----------

  /** At the end of its scan wait returns -1 exactly when the caller is killed or no slot
      at all holds a child of it; otherwise it goes to sleep, and then no child is a zombie. */
  lemma WaitSleepsExactly(trace: seq<State>, steps: seq<(nat, Action)>, n: nat)
    requires Run(trace, steps) && n < |steps| && steps[n].1 == ScanEnd
    ensures
      var s, s', p := trace[n], trace[n + 1], steps[n].0;
      && Sized(s) && Sized(s') && p < NPROC
      && (s'.procs[p].pc == Idle <==>
          s.procs[p].killed || forall c :: 0 <= c < NPROC ==> s.procs[c].parent != Some(p))
      && (s'.procs[p].pc == Sleep0 <==> s'.procs[p].pc != Idle)
      && (forall c :: 0 <= c < NPROC && s.procs[c].parent == Some(p) ==> s.procs[c].st != Zombie)
  {
    hide Inv, HalfMade, HasChild;
    var s, p := trace[n], steps[n].0;
    RunKeepsKids(trace, steps, n);
    assert ScanOk(s, p);
    NoChildIn(s, p);
    forall c | 0 <= c < NPROC && s.procs[c].parent == Some(p) ensures s.procs[c].st != Zombie {
      NoZombiePassed(s, p, c);
    }
  }

  lemma NoChildIn(s: State, p: nat)
    requires Sized(s)
    ensures !HasChild(s, p, NPROC) <==> forall c :: 0 <= c < NPROC ==> s.procs[c].parent != Some(p)
  {
  }

  lemma NoZombiePassed(s: State, p: nat, c: nat)
    requires Inv(s) && Sized(s) && p < NPROC && c < NPROC && s.procs[c].parent == Some(p)
    requires s.procs[p].pc.Scan? && c < s.procs[p].pc.k
    ensures s.procs[c].st != Zombie
  {
    hide Entries, Children, Parents, Pids;
    assert WakeOk(s, c);
  }

  predicate WokenBy(s: State, q: nat, a: Action, p: nat)
    requires Sized(s) && q < NPROC
  {
    || (a == Kill && q == p)
    || (a == WakeParentStep && s.procs[q].pc == WakeParent(p) && s.procs[q].parent == Some(p))
    || (a == WakeInitStep && p == s.init && s.procs[q].pc.WakeInit? && s.procs[q].pc.j == p)
  }

  lemma WokenStep(s: State, q: nat, a: Action, p: nat)
    requires Inv(s) && Sized(s) && Enabled(s, q, a) && p < NPROC
    requires s.procs[p].pc == Asleep && s.procs[p].st == Sleeping
    ensures
      var s' := Step(s, q, a);
      Sized(s') && (s'.procs[p].st != Sleeping <==> WokenBy(s, q, a, p))
  {
    hide Inv, Step, Self, Other, WokenBy, Enabled;
    EntryHere(s, p);
    StepAt(s, q, a, p);
    if q == p {
      WokenSelf(s, a, p);
    } else {
      if ForksSlot(s.procs[q], p) {
        ForkChild(s, q);
      }
      WokenOther(s, q, a, p);
    }
  }

  lemma WokenSelf(s: State, a: Action, p: nat)
    requires Sized(s) && Enabled(s, p, a)
    requires s.procs[p].pc == Asleep && s.procs[p].st == Sleeping && s.procs[p].chan == OnProc(p)
    ensures Self(s, p, a).st != Sleeping <==> WokenBy(s, p, a, p)
  {
  }

  lemma WokenOther(s: State, q: nat, a: Action, p: nat)
    requires Sized(s) && Enabled(s, q, a) && p < NPROC
    requires s.procs[p].st == Sleeping && s.procs[p].chan == OnProc(p) && !ForksSlot(s.procs[q], p) && q != p
    ensures Other(s, q, a, p).st != Sleeping <==> WokenBy(s, q, a, p)
  {
  }

  /** A process asleep in wait is woken by three steps only: it is killed, its own child is
      in exit, or it is init and has been given a child. */
  lemma WokenExactly(trace: seq<State>, steps: seq<(nat, Action)>, n: nat, p: nat)
    requires Run(trace, steps) && n < |steps| && p < NPROC && Sized(trace[n])
    requires trace[n].procs[p].pc == Asleep && trace[n].procs[p].st == Sleeping
    ensures
      var s, s', q, a := trace[n], trace[n + 1], steps[n].0, steps[n].1;
      Sized(s') && q < NPROC && (s'.procs[p].st != Sleeping <==> WokenBy(s, q, a, p))
  {
    hide Inv, Step;
    RunKeepsInv(trace, steps, n);
    WokenStep(trace[n], steps[n].0, steps[n].1, p);
  }

  /** The slot wait looks at next holds a zombie child of the caller. */
  predicate AtZombie(s: State, p: nat) {
    && Sized(s) && p < NPROC && s.procs[p].pc.Scan? && s.procs[p].pc.k < NPROC
    && s.procs[s.procs[p].pc.k].parent == Some(p) && s.procs[s.procs[p].pc.k].st == Zombie
  }

  /** wait stops at a zombie child and only there: it reaps it, freeing its slot, if the
      status can be copied out, and otherwise leaves it as it is. Nothing else is reaped. */
  lemma ReapsExactly(trace: seq<State>, steps: seq<(nat, Action)>, n: nat)
    requires Run(trace, steps) && n < |steps|
    ensures
      var s, s', p, a := trace[n], trace[n + 1], steps[n].0, steps[n].1;
      && Sized(s) && Sized(s') && p < NPROC
      && (a.ScanStep? ==> (s'.procs[p].pc == Idle <==> AtZombie(s, p)))
      && (s'.reaped != s.reaped <==> a == ScanStep(false) && AtZombie(s, p))
      && (a.ScanStep? && AtZombie(s, p) ==>
          var k := s.procs[p].pc.k;
          if a.copyFails then s'.procs[k] == s.procs[k]
          else
            && s'.reaped == s.reaped + [s.procs[k].pid]
            && s'.procs[k] == Proc(Unused, NoChan, false, 0, None, Idle, false))
  {
    hide Inv, Step, AtZombie, Self, Other;
    var s, p, a := trace[n], steps[n].0, steps[n].1;
    RunKeepsInv(trace, steps, n);
    ReapedAfter(s, p, a);
    StepAt(s, p, a, p);
    if a.ScanStep? {
      ScanAfter(s, p, a);
      StepAt(s, p, a, s.procs[p].pc.k);
      NotOwnChild(s, p);
    }
  }

  lemma ReapedAfter(s: State, p: nat, a: Action)
    requires Sized(s) && Enabled(s, p, a)
    ensures Step(s, p, a).reaped ==
              if a == ScanStep(false) && AtZombie(s, p) then s.reaped + [s.procs[s.procs[p].pc.k].pid] else s.reaped
  {
  }

  lemma ScanAfter(s: State, p: nat, a: Action)
    requires Sized(s) && Enabled(s, p, a) && a.ScanStep?
    ensures Self(s, p, a).pc == Idle <==> AtZombie(s, p)
    ensures
      var k := s.procs[p].pc.k;
      AtZombie(s, p) ==>
        && s.procs[k].parent == Some(p)
        && Other(s, p, a, k) ==
           if a.copyFails then s.procs[k] else Proc(Unused, NoChan, false, 0, None, Idle, false)
  {
  }

  // ---------- kill ----------

  lemma QuietKilledSelf(s: State, p: nat, a: Action)
    requires Inv(s) && Sized(s) && Enabled(s, p, a)
    ensures
      var s' := Step(s, p, a);
      && Sized(s') && var x, y := s.procs[p], s'.procs[p];
      && (Quiet(y) && y.killed <==> (Quiet(x) && x.killed && Quiet(y)) || (a == Kill && x.pc == Sleep0))
  {
    hide Inv, Step;
    EntryHere(s, p);
    StepAt(s, p, a, p);
  }

  lemma QuietKilledOther(s: State, p: nat, a: Action, q: nat)
    requires Inv(s) && Sized(s) && Enabled(s, p, a) && q < NPROC && q != p
    ensures
      var s' := Step(s, p, a);
      && Sized(s') && var x, y := s.procs[q], s'.procs[q];
      Quiet(y) ==> Quiet(x) && y.killed == x.killed
  {
    hide Inv, Step, Self;
    EntryHere(s, q);
    if Forks(s.procs[p].pc) {
      ForkChild(s, p);
    }
    StepAt(s, p, a, q);
  }

  /** How a process can be asleep or on its way there, and killed: it was so before, or the
      kill comes between wait's test and its lock. */
  lemma QuietKilled(s: State, p: nat, a: Action, q: nat)
    requires Inv(s) && Sized(s) && Enabled(s, p, a) && q < NPROC
    ensures
      var s' := Step(s, p, a);
      && Sized(s') && var x, y := s.procs[q], s'.procs[q];
      && (Quiet(y) && y.killed <==>
          (Quiet(x) && x.killed && Quiet(y)) || (p == q && a == Kill && x.pc == Sleep0))
  {
    hide Inv, Step, Quiet;
    if p == q {
      QuietKilledSelf(s, p, a);
    } else {
      QuietKilledOther(s, p, a, q);
    }
  }

  /** Since the step at m, a kill of p just after wait's test, p has been going to sleep or
      asleep. */
  ghost predicate LateKill(trace: seq<State>, steps: seq<(nat, Action)>, m: nat, n: nat, p: nat) {
    && m < n < |trace| && m < |steps| && steps[m] == (p, Kill)
    && (forall i :: m <= i <= n ==> p < |trace[i].procs|) && trace[m].procs[p].pc == Sleep0
    && forall i :: m < i <= n ==> Quiet(trace[i].procs[p])
  }

  ghost predicate MissedKill(trace: seq<State>, steps: seq<(nat, Action)>, n: nat, p: nat) {
    exists m :: LateKill(trace, steps, m, n, p)
  }

  /** A killed process sleeps in wait exactly when the kill fell between the test of killed
      and the lock in sleep, since when it has not been woken. */
  lemma {:induction false} KilledAsleep(trace: seq<State>, steps: seq<(nat, Action)>, n: nat, p: nat)
    requires Run(trace, steps) && n < |trace| && p < NPROC
    ensures Sized(trace[n])
    ensures Quiet(trace[n].procs[p]) && trace[n].procs[p].killed <==> MissedKill(trace, steps, n, p)
  {
    hide Inv, Step, Quiet, Boot, Kids, Enabled, MissedKill;
    RunKeepsKids(trace, steps, n);
    if n == 0 {
      BootQuiet(trace[0], p);
      LateKillNone(trace, steps, p);
    } else {
      KilledAsleep(trace, steps, n - 1, p);
      RunKeepsKids(trace, steps, n - 1);
      QuietKilled(trace[n - 1], steps[n - 1].0, steps[n - 1].1, p);
      LateKillMore(trace, steps, n, p);
    }
  }

  lemma LateKillNone(trace: seq<State>, steps: seq<(nat, Action)>, p: nat)
    ensures !MissedKill(trace, steps, 0, p)
  {
  }

  lemma LateKillMore(trace: seq<State>, steps: seq<(nat, Action)>, n: nat, p: nat)
    requires 0 < n < |trace| == |steps| + 1 && p < NPROC && Sized(trace[n - 1]) && Sized(trace[n])
    ensures
      MissedKill(trace, steps, n, p) <==>
      && Quiet(trace[n].procs[p])
      && (MissedKill(trace, steps, n - 1, p) || (steps[n - 1] == (p, Kill) && trace[n - 1].procs[p].pc == Sleep0))
  {
    hide Quiet;
    var k := n - 1;
    if Quiet(trace[n].procs[p]) && MissedKill(trace, steps, k, p) {
      var m: nat :| LateKill(trace, steps, m, k, p);
      assert LateKill(trace, steps, m, n, p);
    }
    if Quiet(trace[n].procs[p]) && steps[k] == (p, Kill) && trace[k].procs[p].pc == Sleep0 {
      assert LateKill(trace, steps, k, n, p);
    }
    if MissedKill(trace, steps, n, p) {
      var m: nat :| LateKill(trace, steps, m, n, p);
      assert m < k ==> LateKill(trace, steps, m, k, p);
    }
  }

  lemma BootQuiet(s: State, p: nat)
    requires Boot(s) && p < NPROC
    ensures !Quiet(s.procs[p])
  {
  }

  // ---------- a run that sleeps ----------

  /** One more step at the end of a run. */
  lemma Then(trace: seq<State>, steps: seq<(nat, Action)>, p: nat, a: Action)
    returns (trace': seq<State>, steps': seq<(nat, Action)>)
    requires Run(trace, steps) && Sized(trace[|steps|]) && Enabled(trace[|steps|], p, a)
    ensures Run(trace', steps') && trace'[|steps'|] == Step(trace[|steps|], p, a)
  {
    hide Step, Enabled, Boot;
    trace', steps' := trace + [Step(trace[|steps|], p, a)], steps + [(p, a)];
  }

  /** init has forked the process in slot np, and its scan has come to slot k. */
  predicate Scanned(s: State, np: nat, k: nat) {
    && Sized(s) && np < NPROC && np != s.init && s.waitLock == Some(s.init)
    && s.procs[s.init] == Proc(Running, NoChan, false, 1, None, Scan(k, k > np), false)
    && s.procs[np] == Proc(Runnable, NoChan, false, 2, Some(s.init), Idle, false)
    && forall c :: 0 <= c < NPROC && c != np ==> s.procs[c].parent == None
  }

  /** init has the new process in slot np, and has to link it. */
  predicate HalfWay(s: State, np: nat) {
    && Sized(s) && np < NPROC && np != s.init && s.waitLock == None
    && s.procs[s.init] == Proc(Running, NoChan, false, 1, None, Forked(np), false)
    && s.procs[np] == Proc(Used, NoChan, false, 2, None, Idle, false)
    && forall c :: 0 <= c < NPROC ==> s.procs[c].parent == None
  }

  lemma ForksHalfWay(s: State, np: nat) returns (trace: seq<State>, steps: seq<(nat, Action)>)
    requires Boot(s) && np < NPROC && np != s.init
    ensures Run(trace, steps) && HalfWay(trace[|steps|], np) && trace[|steps|].init == s.init
  {
    trace, steps := [s], [];
    assert Run(trace, steps);
    hide Run;
    trace, steps := Then(trace, steps, s.init, Schedule);
    trace, steps := Then(trace, steps, s.init, ForkAlloc(np));
    trace, steps := Then(trace, steps, s.init, ForkUnlock);
  }

  lemma ForksAndWaits(s: State, np: nat) returns (trace: seq<State>, steps: seq<(nat, Action)>)
    requires Boot(s) && np < NPROC && np != s.init
    ensures Run(trace, steps) && Scanned(trace[|steps|], np, 0) && trace[|steps|].init == s.init
  {
    hide Run, Boot;
    trace, steps := ForksHalfWay(s, np);
    trace, steps := Then(trace, steps, s.init, ForkLink);
    trace, steps := Then(trace, steps, s.init, ForkStart);
    trace, steps := Then(trace, steps, s.init, WaitBegin);
  }

  lemma ScansAll(s: State, np: nat, k: nat) returns (trace: seq<State>, steps: seq<(nat, Action)>)
    requires Boot(s) && np < NPROC && np != s.init && k <= NPROC
    ensures Run(trace, steps) && Scanned(trace[|steps|], np, k) && trace[|steps|].init == s.init
  {
    hide Run, Boot;
    if k == 0 {
      trace, steps := ForksAndWaits(s, np);
    } else {
      trace, steps := ScansAll(s, np, k - 1);
      trace, steps := Then(trace, steps, s.init, ScanStep(false));
    }
  }

  /** sleep, from the decision on. */
  lemma FallsAsleep(trace: seq<State>, steps: seq<(nat, Action)>, p: nat)
    returns (trace': seq<State>, steps': seq<(nat, Action)>)
    requires Run(trace, steps) && Sized(trace[|steps|]) && p < NPROC
    requires trace[|steps|].procs[p].pc == Sleep0 && !trace[|steps|].procs[p].held
    ensures Run(trace', steps')
    ensures
      var s, y := trace[|steps|], trace[|steps|].procs[p].(pc := Asleep, st := Sleeping, chan := OnProc(p));
      trace'[|steps'|] == Solo(s, p, y, None)
  {
    hide Run;
    trace', steps' := Then(trace, steps, p, SleepLock);
    trace', steps' := Then(trace', steps', p, SleepRelease);
    trace', steps' := Then(trace', steps', p, SleepSet);
    trace', steps' := Then(trace', steps', p, SleepSwitch);
  }

  lemma BootAt(i: nat) returns (s: State)
    requires i < NPROC
    ensures Boot(s) && s.init == i
  {
    var unused := Proc(Unused, NoChan, false, 0, None, Idle, false);
    var procs := seq(NPROC, _ => unused)[i := Proc(Runnable, NoChan, false, 1, None, Idle, false)];
    s := State(procs, None, 2, i, {}, []);
  }

  /** init, in slot i, forks, waits and goes to sleep beside its running child; killed just
      after wait's test, it sleeps all the same. */
  lemma SleepsInWait(i: nat, np: nat, kill: bool) returns (trace: seq<State>, steps: seq<(nat, Action)>)
    requires i < NPROC && np < NPROC && np != i
    ensures Run(trace, steps)
    ensures
      var last := trace[|steps|];
      && Sized(last) && last.init == i && last.waitLock == None && last.procs[np].parent == Some(i)
      && last.procs[i].st == Sleeping && last.procs[i].chan == OnProc(i)
      && last.procs[i].killed == kill && !last.procs[i].held
  {
    hide Run, Boot;
    var s := BootAt(i);
    trace, steps := ScansAll(s, np, NPROC);
    trace, steps := Then(trace, steps, i, ScanEnd);
    if kill {
      trace, steps := Then(trace, steps, i, Kill);
    }
    trace, steps := FallsAsleep(trace, steps, i);
  }

  // ---------- no deadlock ----------

  /** A step of the process's own code in fork, exit or wait. */
  predicate Own(a: Action) {
    !Plain(a)
  }

  ghost predicate Moves(s: State, p: nat) {
    Sized(s) && exists a :: Own(a) && Enabled(s, p, a)
  }

  /** Process w has the lock of slot c: it is the process there, or the fork making it. */
  predicate LockedBy(s: State, c: nat, w: nat)
    requires Sized(s) && c < NPROC && w < NPROC
  {
    s.procs[c].held && (if s.procs[c].st == Used then ForksSlot(s.procs[w], c) else w == c)
  }

  /** Who has a process lock can go on. */
  lemma HeldMoves(s: State, c: nat) returns (w: nat)
    requires Inv(s) && Sized(s) && HalfMade(s) && c < NPROC && s.procs[c].held
    ensures w < NPROC && LockedBy(s, c, w) && Moves(s, w)
  {
    hide Inv;
    EntryHere(s, c);
    if s.procs[c].st == Used {
      assert InFork(s, c);
      w :| 0 <= w < |s.procs| && ForksSlot(s.procs[w], c);
      assert HoldsChild(s, w);
      EntryHere(s, w);
      assert Own(ForkUnlock) && Enabled(s, w, ForkUnlock);
    } else {
      w := c;
      var a := match s.procs[c].pc
      case Dead1 => ExitRelease
      case Dead2 => ExitSwitch
      case Sleep1 => SleepRelease
      case Sleep2 => SleepSet
      case _ => SleepSwitch;
      assert Own(a) && Enabled(s, w, a);
    }
  }

  /** The process whose lock p acquires next, in the loops of exit and wait. */
  predicate Wants(s: State, p: nat, c: nat)
    requires Sized(s) && p < NPROC
  {
    c < NPROC && c != p &&
    match s.procs[p].pc
    case WakeInit(_, j) => c == j
    case WakeParent(j) => c == j
    case Scan(k, _) => c == k && s.procs[c].parent == Some(p)
    case _ => false
  }

  lemma HolderMoves(s: State, p: nat)
    requires Sized(s) && p < NPROC && s.waitLock == Some(p) && Inv(s)
    ensures Moves(s, p) || exists c: nat :: c < NPROC && Wants(s, p, c) && s.procs[c].held
  {
    hide Inv;
    EntryHere(s, p);
    var a := match s.procs[p].pc
    case Reparent(_) => ReparentStep
    case WakeInit(_, _) => WakeInitStep
    case WakeParent(_) => WakeParentStep
    case Dying => ExitZombie
    case Dead1 => ExitRelease
    case Scan(k, _) => if k < NPROC then ScanStep(false) else ScanEnd
    case Sleep0 => SleepLock
    case _ => SleepRelease;
    if !Enabled(s, p, a) {
      var c := match s.procs[p].pc
      case WakeInit(_, j) => j
      case WakeParent(j) => j
      case Scan(k, _) => k
      case _ => 0;
      assert Wants(s, p, c) && s.procs[c].held;
    }
    assert Own(a);
  }

  /** No deadlock. At every moment of every run the process that has wait_lock can take its
      next step, or waits for the lock of one process that somebody has who can. */
  lemma NoDeadlock(trace: seq<State>, steps: seq<(nat, Action)>, n: nat, p: nat) returns (c: nat, w: nat)
    requires Run(trace, steps) && n < |trace| && p < NPROC && trace[n].waitLock == Some(p)
    ensures Sized(trace[n]) && c < NPROC && w < NPROC && Moves(trace[n], w)
    ensures w == p || (Wants(trace[n], p, c) && LockedBy(trace[n], c, w))
  {
    hide Run, Inv, Moves, Wants, LockedBy, ScanOk;
    RunKeepsKids(trace, steps, n);
    HolderMoves(trace[n], p);
    c, w := p, p;
    if !Moves(trace[n], p) {
      c :| 0 <= c < NPROC && Wants(trace[n], p, c) && trace[n].procs[c].held;
      w := HeldMoves(trace[n], c);
    }
  }

  /** A process in fork or wait that does not have wait_lock takes its next step unless it
      is just that lock it needs and another has it. */
  lemma CallMoves(trace: seq<State>, steps: seq<(nat, Action)>, n: nat, p: nat)
    requires Run(trace, steps) && n < |trace| && p < NPROC && Sized(trace[n]) && trace[n].waitLock != Some(p)
    requires trace[n].procs[p].st == Running && trace[n].procs[p].pc != Idle
    ensures
      var pc := trace[n].procs[p].pc;
      Moves(trace[n], p) <==> (pc.Forked? || pc == Rewait ==> trace[n].waitLock == None)
  {
    hide Run, Inv, ScanOk;
    RunKeepsKids(trace, steps, n);
    CallStep(trace[n], p);
  }

  lemma CallStep(s: State, p: nat)
    requires Sized(s) && p < NPROC && s.waitLock != Some(p) && s.procs[p].st == Running && s.procs[p].pc != Idle
    requires HoldsChild(s, p) && Inv(s)
    ensures Moves(s, p) <==> (s.procs[p].pc.Forked? || s.procs[p].pc == Rewait ==> s.waitLock == None)
  {
    hide Inv;
    EntryHere(s, p);
    if Forks(s.procs[p].pc) {
      ForkChild(s, p);
    }
    var a := match s.procs[p].pc
    case Forking(_) => ForkUnlock
    case Forked(_) => ForkLink
    case Linked(_) => ForkStart
    case Sleep2 => SleepSet
    case Asleep => Wake
    case _ => Relock;
    assert Own(a);
  }

  /** A process that runs outside these calls can fork into any unused slot, and can wait,
      and exit if it is not init, whenever wait_lock is free. */
  lemma CallsBegin(trace: seq<State>, steps: seq<(nat, Action)>, n: nat, p: nat, np: nat)
    requires Run(trace, steps) && n < |trace| && p < NPROC && np < NPROC && Sized(trace[n])
    requires trace[n].procs[p].st == Running && trace[n].procs[p].pc == Idle
    ensures Enabled(trace[n], p, ForkAlloc(np)) <==> trace[n].procs[np].st == Unused
    ensures Enabled(trace[n], p, WaitBegin) <==> trace[n].waitLock == None
    ensures Enabled(trace[n], p, ExitBegin) <==> trace[n].waitLock == None && p != trace[n].init
  {
    hide Run, Inv;
    RunKeepsInv(trace, steps, n);
    EntryHere(trace[n], np);
  }
}
