/** fork, exit, wait, kill, sleep and wakeup as interleaved steps of the processes in the
    table. A step is a section of code under one lock, or an acquire or release of
    wait_lock; a process lock that stays held across steps is shown in `held`. */
module ExitWait {
  import opened Wrappers

  const NPROC := 64

  datatype St = Unused | Used | Sleeping | Runnable | Running | Zombie
  datatype Chan = NoChan | OnProc(p: nat) | Elsewhere

  /** Where a process is in fork, exit or wait. */
  datatype Pc =
    | Idle                          // in none of them
    | Forking(np: nat) | Forked(np: nat) | Linked(np: nat)
    | Reparent(k: nat)              // exit: next slot of reparent's loop
    | WakeInit(k: nat, j: nat)      // ... and the next slot of its wakeup(initproc)
    | WakeParent(j: nat)            // exit: next slot of wakeup(p->parent)
    | Dying | Dead1 | Dead2 | Dead  // exit: up to the last swtch
    | Scan(k: nat, havekids: bool)  // wait: next slot of its loop
    | Sleep0                        // wait: has found children and no reason to stop
    | Sleep1 | Sleep2               // sleep: holding p->lock, then also without wait_lock
    | Asleep | Rewait               // sleeping, or woken and about to take wait_lock

  datatype Proc = Proc(st: St, chan: Chan, killed: bool, pid: nat, parent: Option<nat>, pc: Pc, held: bool)

  datatype State = State(
    procs: seq<Proc>, waitLock: Option<nat>, nextpid: nat, init: nat, exited: set<nat>, reaped: seq<nat>)

  datatype Action =
    | Schedule | Yield | OtherSleep | OtherWake | Kill
    | ForkAlloc(np: nat) | ForkFail | ForkUnlock | ForkLink | ForkStart
    | ExitBegin | ReparentStep | WakeInitStep | WakeParentStep | ExitZombie | ExitRelease | ExitSwitch
    | WaitBegin | ScanStep(copyFails: bool) | ScanEnd
    | SleepLock | SleepRelease | SleepSet | SleepSwitch | Wake | Relock

  predicate Sized(s: State) {
    |s.procs| == NPROC && s.init < NPROC
  }

  // ---------- steps ----------

  function Put(s: State, p: nat, x: Proc): State
    requires p < |s.procs|
  {
    s.(procs := s.procs[p := x])
  }

  /** One slot of wakeup(chan). */
  function Awake(x: Proc, chan: Chan): Proc {
    if x.st == Sleeping && x.chan == chan then x.(st := Runnable) else x
  }

  function FreeProc(x: Proc): Proc {
    Proc(Unused, NoChan, false, 0, None, Idle, false)
  }

  /** Process p may take step a now. */
  predicate Enabled(s: State, p: nat, a: Action)
    requires Sized(s)
  {
    p < NPROC &&
    var x := s.procs[p];
    match a
    case Schedule => x.st == Runnable && !x.held
    case Yield => x.st == Running && !x.held && (x.pc == Idle || x.pc.Forked? || x.pc.Linked? || x.pc == Rewait)
    case OtherSleep => x.st == Running && !x.held && x.pc == Idle
    case OtherWake => x.st == Sleeping && x.chan == Elsewhere && !x.held
    case Kill => !x.held
    case ForkAlloc(np) => x.st == Running && x.pc == Idle && np < NPROC && s.procs[np].st == Unused && !s.procs[np].held
    case ForkFail => x.st == Running && x.pc.Forking? && x.pc.np < NPROC
    case ForkUnlock => x.st == Running && x.pc.Forking? && x.pc.np < NPROC
    case ForkLink => x.st == Running && x.pc.Forked? && x.pc.np < NPROC && s.waitLock == None
    case ForkStart => x.st == Running && x.pc.Linked? && x.pc.np < NPROC && !s.procs[x.pc.np].held
    case ExitBegin => x.st == Running && x.pc == Idle && p != s.init && s.waitLock == None
    case ReparentStep => x.pc.Reparent?
    case WakeInitStep => x.pc.WakeInit? && (x.pc.j < NPROC && x.pc.j != p ==> !s.procs[x.pc.j].held)
    case WakeParentStep => x.pc.WakeParent? && (x.pc.j < NPROC && x.pc.j != p ==> !s.procs[x.pc.j].held)
    case ExitZombie => x.pc == Dying && !x.held
    case ExitRelease => x.pc == Dead1
    case ExitSwitch => x.pc == Dead2
    case WaitBegin => x.st == Running && x.pc == Idle && s.waitLock == None
    case ScanStep(_) => x.pc.Scan? && x.pc.k < NPROC && (s.procs[x.pc.k].parent == Some(p) ==> !s.procs[x.pc.k].held)
    case ScanEnd => x.pc.Scan? && x.pc.k >= NPROC
    case SleepLock => x.pc == Sleep0 && !x.held
    case SleepRelease => x.pc == Sleep1
    case SleepSet => x.pc == Sleep2
    case SleepSwitch => x.pc == Asleep && x.st == Sleeping && x.held
    case Wake => x.pc == Asleep && x.st == Running
    case Relock => x.pc == Rewait && x.st == Running && s.waitLock == None
  }

  function Step(s: State, p: nat, a: Action): State
    requires Sized(s) && Enabled(s, p, a)
  {
    var x := s.procs[p];
    match a
    case Schedule => Put(s, p, x.(st := Running))
    case Yield => Put(s, p, x.(st := Runnable))
    case OtherSleep => Put(s, p, x.(st := Sleeping, chan := Elsewhere))
    case OtherWake => Put(s, p, x.(st := Runnable))
    case Kill => Put(s, p, x.(killed := true, st := if x.st == Sleeping then Runnable else x.st))
    case ForkAlloc(np) =>
      Put(Put(s, np, s.procs[np].(st := Used, pid := s.nextpid, held := true)), p, x.(pc := Forking(np)))
      .(nextpid := s.nextpid + 1)
    case ForkFail => Put(Put(s, x.pc.np, FreeProc(s.procs[x.pc.np])), p, x.(pc := Idle))
    case ForkUnlock => Put(Put(s, x.pc.np, s.procs[x.pc.np].(held := false)), p, x.(pc := Forked(x.pc.np)))
    case ForkLink => Put(Put(s, x.pc.np, s.procs[x.pc.np].(parent := Some(p))), p, x.(pc := Linked(x.pc.np)))
    case ForkStart => Put(Put(s, x.pc.np, s.procs[x.pc.np].(st := Runnable)), p, x.(pc := Idle))
    case ExitBegin => Put(s, p, x.(pc := Reparent(0))).(waitLock := Some(p))
    case ReparentStep =>
      var k := x.pc.k;
      if k >= NPROC then Put(s, p, x.(pc := WakeParent(0)))
      else if s.procs[k].parent != Some(p) then Put(s, p, x.(pc := Reparent(k + 1)))
      else var s1 := Put(s, k, s.procs[k].(parent := Some(s.init)));
        Put(s1, p, s1.procs[p].(pc := WakeInit(k, 0)))
    case WakeInitStep =>
      var k, j := x.pc.k, x.pc.j;
      if j >= NPROC then Put(s, p, x.(pc := Reparent(k + 1)))
      else if j == p then Put(s, p, x.(pc := WakeInit(k, j + 1)))
      else Put(Put(s, j, Awake(s.procs[j], OnProc(s.init))), p, x.(pc := WakeInit(k, j + 1)))
    case WakeParentStep =>
      var j := x.pc.j;
      if j >= NPROC then Put(s, p, x.(pc := Dying))
      else if j == p then Put(s, p, x.(pc := WakeParent(j + 1)))
      else Put(Put(s, j, if x.parent.Some? then Awake(s.procs[j], OnProc(x.parent.value)) else s.procs[j]), p,
          x.(pc := WakeParent(j + 1)))
    case ExitZombie => Put(s, p, x.(st := Zombie, held := true, pc := Dead1)).(exited := s.exited + {x.pid})
    case ExitRelease => Put(s, p, x.(pc := Dead2)).(waitLock := None)
    case ExitSwitch => Put(s, p, x.(pc := Dead, held := false))
    case WaitBegin => Put(s, p, x.(pc := Scan(0, false))).(waitLock := Some(p))
    case ScanStep(copyFails) =>
      var k := x.pc.k;
      if s.procs[k].parent != Some(p) then Put(s, p, x.(pc := Scan(k + 1, x.pc.havekids)))
      else if s.procs[k].st != Zombie then Put(s, p, x.(pc := Scan(k + 1, true)))
      else if copyFails then Put(s, p, x.(pc := Idle)).(waitLock := None)
      else Put(Put(s, k, FreeProc(s.procs[k])), p, x.(pc := Idle))
           .(waitLock := None, reaped := s.reaped + [s.procs[k].pid])
    case ScanEnd =>
      if !x.pc.havekids || x.killed then Put(s, p, x.(pc := Idle)).(waitLock := None)
      else Put(s, p, x.(pc := Sleep0))
    case SleepLock => Put(s, p, x.(pc := Sleep1, held := true))
    case SleepRelease => Put(s, p, x.(pc := Sleep2)).(waitLock := None)
    case SleepSet => Put(s, p, x.(pc := Asleep, chan := OnProc(p), st := Sleeping))
    case SleepSwitch => Put(s, p, x.(held := false))
    case Wake => Put(s, p, x.(chan := NoChan, pc := Rewait))
    case Relock => Put(s, p, x.(pc := Scan(0, false))).(waitLock := Some(p))
  }

  // ---------- invariant ----------

  predicate HoldsWait(pc: Pc) {
    pc.Reparent? || pc.WakeInit? || pc.WakeParent? || pc == Dying || pc == Dead1 || pc.Scan?
    || pc == Sleep0 || pc == Sleep1
  }

  predicate Exited(pc: Pc) {
    pc == Dead1 || pc == Dead2 || pc == Dead
  }

  predicate Live(st: St) {
    st == Sleeping || st == Runnable || st == Running
  }

  /** What one table entry says by itself. */
  predicate EntryOk(x: Proc, p: nat) {
    && (x.st == Zombie <==> Exited(x.pc))
    && (x.st == Unused || x.st == Used ==> x.pc == Idle)
    && (x.st == Unused ==> x.parent == None)
    && (x.st == Sleeping ==> x.pc == Idle || x.pc == Asleep)
    && (x.st == Sleeping && x.pc == Asleep ==> x.chan == OnProc(p))
    && (x.st == Sleeping && x.pc == Idle ==> x.chan == Elsewhere)
    && ((HoldsWait(x.pc) && x.pc != Dead1) || x.pc == Sleep2 || x.pc.Forking? ==> x.st == Running)
    && (x.pc == Dead1 || x.pc == Dead2 || x.pc == Sleep1 || x.pc == Sleep2 ==> x.held)
    && (x.pc == Asleep && x.held ==> x.st == Sleeping)
    && (x.held ==> x.st == Used || x.pc == Dead1 || x.pc == Dead2 || x.pc == Sleep1 || x.pc == Sleep2 || x.pc == Asleep)
  }

  ghost predicate Entries(s: State) {
    && Sized(s)
    && (forall p :: 0 <= p < NPROC ==> EntryOk(s.procs[p], p))
    && (forall p :: 0 <= p < NPROC ==> (HoldsWait(s.procs[p].pc) <==> s.waitLock == Some(p)))
  }

  predicate Forks(pc: Pc) {
    pc.Forking? || pc.Forked? || pc.Linked?
  }

  /** A process in fork has a half-made child of its own. */
  ghost predicate Children(s: State)
    requires Sized(s)
  {
    && (forall p :: 0 <= p < NPROC && Forks(s.procs[p].pc) ==>
          s.procs[p].pc.np < NPROC && s.procs[s.procs[p].pc.np].st == Used)
    && (forall p, q :: 0 <= p < q < NPROC && Forks(s.procs[p].pc) && Forks(s.procs[q].pc) ==>
          s.procs[p].pc.np != s.procs[q].pc.np)
    && (forall p :: 0 <= p < NPROC && s.procs[p].pc.Linked? && s.procs[p].pc.np < NPROC ==>
          s.procs[s.procs[p].pc.np].parent == Some(p))
  }

  /** exit has taken slot c away from the process at pc. */
  predicate Bereft(pc: Pc, c: nat) {
    || (pc.Reparent? && c < pc.k) || (pc.WakeInit? && c <= pc.k)
    || pc.WakeParent? || pc == Dying || Exited(pc)
  }

  predicate Exits(pc: Pc) {
    pc.Reparent? || pc.WakeInit? || pc.WakeParent? || pc == Dying || Exited(pc)
  }

  predicate ParentOk(s: State, c: nat)
    requires Sized(s) && c < NPROC
  {
    s.procs[c].parent.Some? ==>
      var q := s.procs[c].parent.value;
      q < NPROC && q != c && Live(s.procs[q].st) && !Bereft(s.procs[q].pc, c)
  }

  /** Every started process but init has a live parent. */
  ghost predicate Parents(s: State)
    requires Sized(s)
  {
    && (forall c :: 0 <= c < NPROC ==> ParentOk(s, c))
    && (forall c :: 0 <= c < NPROC && c != s.init && (Live(s.procs[c].st) || s.procs[c].st == Zombie) ==>
        s.procs[c].parent.Some?)
    && Live(s.procs[s.init].st) && !Exits(s.procs[s.init].pc) && s.procs[s.init].parent == None
  }

  /** p is asleep in wait, or on its way there. */
  predicate Quiet(x: Proc) {
    x.pc == Sleep0 || x.pc == Sleep1 || x.pc == Sleep2 || (x.pc == Asleep && x.st == Sleeping)
  }

  /** wakeup(initproc) has yet to reach init. */
  predicate InitPending(s: State)
    requires Sized(s)
  {
    s.waitLock.Some? && s.waitLock.value < NPROC
    && var pc := s.procs[s.waitLock.value].pc;
    pc.WakeInit? && pc.j <= s.init
  }

  predicate WakeOk(s: State, c: nat)
    requires Sized(s) && c < NPROC
  {
    s.procs[c].parent.Some? && s.procs[c].parent.value < NPROC ==>
      var p, x := s.procs[c].parent.value, s.procs[c];
      var y := s.procs[p];
      && (x.st == Zombie && Quiet(y) ==> p == s.init && InitPending(s))
      && (x.st == Zombie && y.pc.Scan? ==> c >= y.pc.k)
      && ((x.pc.WakeParent? && p < x.pc.j) || x.pc == Dying ==> !Quiet(y))
  }

  ghost predicate Wakes(s: State)
    requires Sized(s)
  {
    forall c :: 0 <= c < NPROC ==> WakeOk(s, c)
  }

  ghost predicate HasZombie(s: State, n: nat)
    requires Sized(s)
  {
    exists p :: 0 <= p < NPROC && s.procs[p].st == Zombie && s.procs[p].pid == n
  }

  predicate ZombieOf(x: Proc, n: nat) {
    x.st == Zombie && x.pid == n
  }

  /** A pid names one process, and has been reaped or not. */
  ghost predicate Pids(s: State)
    requires Sized(s)
  {
    && (forall p :: 0 <= p < NPROC && s.procs[p].st != Unused ==>
        s.procs[p].pid < s.nextpid && s.procs[p].pid !in s.reaped)
    && (forall p, q :: 0 <= p < q < NPROC && s.procs[p].st != Unused && s.procs[q].st != Unused ==>
          s.procs[p].pid != s.procs[q].pid)
    && (forall j, k :: 0 <= j < k < |s.reaped| ==> s.reaped[j] != s.reaped[k])
    && (forall k :: 0 <= k < |s.reaped| ==> s.reaped[k] < s.nextpid && s.reaped[k] in s.exited)
    && (forall p :: 0 <= p < NPROC && s.procs[p].st != Unused ==>
        (s.procs[p].st == Zombie <==> s.procs[p].pid in s.exited))
    && (forall n :: n in s.exited ==> n < s.nextpid && (n in s.reaped || HasZombie(s, n)))
  }

  ghost predicate Inv(s: State) {
    Entries(s) && Children(s) && Parents(s) && Wakes(s) && Pids(s)
  }

  // ---------- steps that keep everybody's kind ----------

  predicate SameId(x: Proc, y: Proc) {
    y.pid == x.pid && (y.st == Unused <==> x.st == Unused) && (y.st == Zombie <==> x.st == Zombie)
  }

  /** The entry stays the same process of the same kind, with no new half-made child. */
  predicate Kin(x: Proc, y: Proc) {
    && SameId(x, y) && y.parent == x.parent && (y.st == Used <==> x.st == Used)
    && (Forks(y.pc) ==> Forks(x.pc) && y.pc.np == x.pc.np && (y.pc.Linked? ==> x.pc.Linked?))
  }

  /** No child is newly taken away by its parent's exit. */
  predicate KeepsChild(s: State, s': State, c: nat)
    requires Sized(s) && Sized(s') && c < NPROC
  {
    s.procs[c].parent.Some? && s.procs[c].parent.value < NPROC ==>
      var q := s.procs[c].parent.value;
      Bereft(s'.procs[q].pc, c) ==> Bereft(s.procs[q].pc, c)
  }

  ghost predicate KinStep(s: State, s': State) {
    && Sized(s) && Sized(s') && s'.init == s.init && s'.nextpid == s.nextpid && s'.exited == s.exited
    && s'.reaped == s.reaped
    && (forall i :: 0 <= i < NPROC ==> Kin(s.procs[i], s'.procs[i]))
    && (forall c :: 0 <= c < NPROC ==> KeepsChild(s, s', c))
    && (Exits(s'.procs[s.init].pc) ==> Exits(s.procs[s.init].pc))
  }

  lemma KinChildren(s: State, s': State)
    requires Sized(s) && Children(s) && KinStep(s, s')
    ensures Children(s')
  {
    hide KeepsChild, Exits;
    assert forall i :: 0 <= i < NPROC ==> Kin(s.procs[i], s'.procs[i]);
  }

  lemma KinParents(s: State, s': State)
    requires Sized(s) && Parents(s) && KinStep(s, s')
    ensures Parents(s')
  {
    hide Forks;
    forall c | 0 <= c < NPROC ensures ParentOk(s', c) {
      assert ParentOk(s, c) && Kin(s.procs[c], s'.procs[c]) && KeepsChild(s, s', c);
    }
  }

  lemma PidsKept(s: State, s': State)
    requires Sized(s) && Sized(s') && Pids(s) && s'.nextpid == s.nextpid && s'.exited == s.exited
    requires s'.reaped == s.reaped
    requires forall i :: 0 <= i < NPROC ==> SameId(s.procs[i], s'.procs[i])
    ensures Pids(s')
  {
    forall n | n in s'.exited && n !in s'.reaped ensures HasZombie(s', n) {
      assert HasZombie(s, n);
      var q :| 0 <= q < NPROC && s.procs[q].st == Zombie && s.procs[q].pid == n;
      assert SameId(s.procs[q], s'.procs[q]);
    }
  }

  lemma KinKeeps(s: State, s': State)
    requires Inv(s) && KinStep(s, s') && Entries(s') && Wakes(s')
    ensures Inv(s')
  {
    hide Entries, Children, Parents, Wakes, Pids, Forks, KeepsChild, Exits;
    EntriesSized(s);
    KinChildren(s, s');
    KinParents(s, s');
    PidsKept(s, s');
  }

  lemma EntriesSized(s: State)
    requires Entries(s)
    ensures Sized(s)
  {
  }

  /** wait_lock is taken or left by p, or not touched. */
  predicate LockMove(s: State, p: nat, y: Pc, lock: Option<nat>) {
    && (HoldsWait(y) <==> lock == Some(p))
    && (lock == s.waitLock || (s.waitLock == None && lock == Some(p)) || (s.waitLock == Some(p) && lock == None))
  }

  /** p may be at y in its exit: the children it has passed are no longer its own, and
      it is not init. */
  predicate ExitGoes(s: State, p: nat, y: Pc)
    requires Sized(s) && p < NPROC
  {
    && (forall c :: 0 <= c < NPROC && Bereft(y, c) ==> Bereft(s.procs[p].pc, c) || s.procs[c].parent != Some(p))
    && (p == s.init && Exits(y) ==> Exits(s.procs[p].pc))
  }

  /** p's entry becomes y and entry k becomes z. */
  function Duo(s: State, p: nat, y: Proc, k: nat, z: Proc, lock: Option<nat>): State
    requires Sized(s) && p < NPROC && k < NPROC
  {
    Put(Put(s, k, z), p, y).(waitLock := lock)
  }

  lemma DuoEntries(s: State, p: nat, y: Proc, k: nat, z: Proc, lock: Option<nat>)
    requires Sized(s) && p < NPROC && k < NPROC && k != p && EntryOk(y, p) && LockMove(s, p, y.pc, lock)
    requires EntryOk(z, k) && z.pc == s.procs[k].pc && Inv(s)
    ensures Entries(Duo(s, p, y, k, z, lock))
  {
    hide Inv, EntryOk, HoldsWait;
    var s' := Duo(s, p, y, k, z, lock);
    forall i | 0 <= i < NPROC
      ensures EntryOk(s'.procs[i], i) && (HoldsWait(s'.procs[i].pc) <==> s'.waitLock == Some(i))
    {
      EntryHere(s, i);
    }
  }

  lemma DuoKeeps(s: State, p: nat, y: Proc, k: nat, z: Proc, lock: Option<nat>)
    requires Sized(s) && p < NPROC && k < NPROC && k != p
    requires EntryOk(y, p) && Kin(s.procs[p], y) && LockMove(s, p, y.pc, lock)
    requires EntryOk(z, k) && Kin(s.procs[k], z) && z.pc == s.procs[k].pc
    requires ExitGoes(s, p, y.pc)
    requires Wakes(Duo(s, p, y, k, z, lock)) && Inv(s)
    ensures Inv(Duo(s, p, y, k, z, lock))
  {
    hide Inv, Wakes, Exits, Forks, Bereft, EntryOk, LockMove, HoldsWait;
    var s' := Duo(s, p, y, k, z, lock);
    DuoEntries(s, p, y, k, z, lock);
    forall i | 0 <= i < NPROC ensures Kin(s.procs[i], s'.procs[i]) {
      KinSelf(s.procs[i]);
    }
    KinKeeps(s, s');
  }

  function Solo(s: State, p: nat, y: Proc, lock: Option<nat>): State
    requires Sized(s) && p < NPROC
  {
    Put(s, p, y).(waitLock := lock)
  }

  lemma SoloKeeps(s: State, p: nat, y: Proc, lock: Option<nat>)
    requires Inv(s) && p < NPROC
    requires EntryOk(y, p) && Kin(s.procs[p], y) && LockMove(s, p, y.pc, lock)
    requires ExitGoes(s, p, y.pc)
    requires Wakes(Solo(s, p, y, lock))
    ensures Inv(Solo(s, p, y, lock))
  {
    hide Inv, Kin, EntryOk, Wakes, ExitGoes;
    var k := if p == 0 then 1 else 0;
    EntryHere(s, k);
    KinSelf(s.procs[k]);
    assert Duo(s, p, y, k, s.procs[k], lock) == Solo(s, p, y, lock);
    DuoKeeps(s, p, y, k, s.procs[k], lock);
  }

  lemma OkAt(s: State, c: nat)
    requires Inv(s) && c < NPROC
    ensures Sized(s) && ParentOk(s, c) && WakeOk(s, c)
  {
    hide Children, Pids, ParentOk, WakeOk;
  }

  lemma EntryHere(s: State, k: nat)
    requires Inv(s) && k < NPROC
    ensures Sized(s) && EntryOk(s.procs[k], k)
    ensures HoldsWait(s.procs[k].pc) <==> s.waitLock == Some(k)
  {
    hide Children, Parents, Wakes, Pids;
  }

  lemma KinSelf(x: Proc)
    ensures Kin(x, x)
  {
  }

  // ---------- steps that make nobody miss a wakeup ----------

  /** No new sleeper, and no progress in a scan or in the wakeup of a parent. */
  predicate Calm(x: Proc, y: Proc) {
    && y.parent == x.parent && (y.st == Zombie <==> x.st == Zombie) && (Quiet(y) ==> Quiet(x))
    && (y.pc.Scan? ==> (x.pc.Scan? && y.pc.k <= x.pc.k) || y.pc.k == 0)
    && (y.pc.WakeParent? ==> (x.pc.WakeParent? && y.pc.j <= x.pc.j) || y.pc.j == 0) && (y.pc == Dying ==> x.pc == Dying)
  }

  lemma CalmWakes(s: State, s': State)
    requires Sized(s) && Wakes(s) && Sized(s') && s'.init == s.init
    requires forall i :: 0 <= i < NPROC ==> Calm(s.procs[i], s'.procs[i])
    requires InitPending(s) ==> InitPending(s') || !Quiet(s'.procs[s.init])
    ensures Wakes(s')
  {
    hide InitPending, Quiet;
    forall c | 0 <= c < NPROC ensures WakeOk(s', c) {
      assert WakeOk(s, c) && Calm(s.procs[c], s'.procs[c]);
    }
  }

  /** exit does not advance at all, or begins. */
  lemma ExitStays(s: State, p: nat, y: Pc)
    requires Sized(s) && p < NPROC
    requires || !Exits(y) || y == s.procs[p].pc || (Exited(y) && Exited(s.procs[p].pc))
             || (y == Reparent(0) && p != s.init)
    ensures ExitGoes(s, p, y)
  {
  }

  /** A step of p alone that is calm and no progress of exit. */
  lemma CalmSolo(s: State, p: nat, y: Proc, lock: Option<nat>)
    requires Inv(s) && p < NPROC
    requires EntryOk(y, p) && Kin(s.procs[p], y) && Calm(s.procs[p], y) && LockMove(s, p, y.pc, lock)
    requires || !Exits(y.pc) || y.pc == s.procs[p].pc || (Exited(y.pc) && Exited(s.procs[p].pc))
             || (y.pc == Reparent(0) && p != s.init)
    requires InitPending(s) && s.waitLock == Some(p) ==> y.pc == s.procs[p].pc && lock == s.waitLock
    ensures Inv(Solo(s, p, y, lock))
  {
    hide Children, Parents, Pids, Forks, Quiet, ExitGoes;
    var s' := Solo(s, p, y, lock);
    forall i | 0 <= i < NPROC ensures Calm(s.procs[i], s'.procs[i]) {
    }
    CalmWakes(s, s');
    ExitStays(s, p, y.pc);
    SoloKeeps(s, p, y, lock);
  }

  /** Scheduling, kill and sleeping elsewhere. */
  predicate Plain(a: Action) {
    a.Schedule? || a.Yield? || a.OtherSleep? || a.OtherWake? || a.Kill?
  }

  lemma PlainKeeps(s: State, p: nat, a: Action)
    requires Inv(s) && Sized(s) && Enabled(s, p, a) && Plain(a)
    ensures Inv(Step(s, p, a))
  {
    hide Inv;
    EntryHere(s, p);
    var s' := Step(s, p, a);
    CalmSolo(s, p, s'.procs[p], s'.waitLock);
  }

  /** The steps of exit that only take or leave a lock or the processor. */
  lemma ExitPassingKeeps(s: State, p: nat, a: Action)
    requires Inv(s) && Sized(s) && Enabled(s, p, a) && (a.ExitBegin? || a.ExitRelease? || a.ExitSwitch?)
    ensures Inv(Step(s, p, a))
  {
    hide Inv;
    EntryHere(s, p);
    var s' := Step(s, p, a);
    CalmSolo(s, p, s'.procs[p], s'.waitLock);
  }

  /** The steps of wait of that kind. */
  lemma WaitPassingKeeps(s: State, p: nat, a: Action)
    requires Inv(s) && Sized(s) && Enabled(s, p, a) && (a.WaitBegin? || a.Relock?)
    ensures Inv(Step(s, p, a))
  {
    hide Inv;
    EntryHere(s, p);
    var s' := Step(s, p, a);
    CalmSolo(s, p, s'.procs[p], s'.waitLock);
  }

  /** sleep, from its first lock on. */
  lemma SleepKeeps(s: State, p: nat, a: Action)
    requires Inv(s) && Sized(s) && Enabled(s, p, a)
    requires a.SleepLock? || a.SleepRelease? || a.SleepSet? || a.SleepSwitch?
    ensures Inv(Step(s, p, a))
  {
    hide Inv;
    EntryHere(s, p);
    var s' := Step(s, p, a);
    CalmSolo(s, p, s'.procs[p], s'.waitLock);
  }

  /** The end of sleep, after a wakeup. */
  lemma WokenKeeps(s: State, p: nat)
    requires Inv(s) && Sized(s) && Enabled(s, p, Wake)
    ensures Inv(Step(s, p, Wake))
  {
    hide Inv;
    EntryHere(s, p);
    var s' := Step(s, p, Wake);
    CalmSolo(s, p, s'.procs[p], s'.waitLock);
  }

  // ---------- exit ----------

  /** reparent passes a slot that is no child, or is done. */
  lemma ReparentPasses(s: State, p: nat)
    requires Inv(s) && Sized(s) && Enabled(s, p, ReparentStep)
    requires var k := s.procs[p].pc.k; k >= NPROC || s.procs[k].parent != Some(p)
    ensures Inv(Step(s, p, ReparentStep))
  {
    hide Inv, ExitGoes;
    EntryHere(s, p);
    var s' := Step(s, p, ReparentStep);
    CalmExit(s, p, s'.procs[p]);
    BereftMore(s, p, s'.procs[p].pc);
    SoloKeeps(s, p, s'.procs[p], s'.waitLock);
  }

  lemma BereftMore(s: State, p: nat, y: Pc)
    requires Sized(s) && p < NPROC && s.procs[p].pc.Reparent?
    requires var k := s.procs[p].pc.k;
             (y == Reparent(k + 1) && k < NPROC && s.procs[k].parent != Some(p)) || (k >= NPROC && y == WakeParent(0))
    ensures ExitGoes(s, p, y)
  {
  }

  /** A calm step of the exiting process p that is not waking init. */
  lemma CalmExit(s: State, p: nat, y: Proc)
    requires Inv(s) && Sized(s) && p < NPROC && Calm(s.procs[p], y) && !InitPending(s)
    ensures Wakes(Solo(s, p, y, s.waitLock))
  {
    hide Children, Parents, Pids, Entries, Quiet, InitPending;
    forall i | 0 <= i < NPROC ensures Calm(s.procs[i], Solo(s, p, y, s.waitLock).procs[i]) {
    }
    CalmWakes(s, Solo(s, p, y, s.waitLock));
  }

  /** One slot of wakeup(initproc). */
  lemma WakeInitKeeps(s: State, p: nat)
    requires Inv(s) && Sized(s) && Enabled(s, p, WakeInitStep)
    ensures Inv(Step(s, p, WakeInitStep))
  {
    hide Inv, ExitGoes;
    EntryHere(s, p);
    var s' := Step(s, p, WakeInitStep);
    var j := s.procs[p].pc.j;
    WakeInitWakes(s, p);
    WakeInitGoes(s, p, s'.procs[p].pc);
    if j >= NPROC || j == p {
      SoloKeeps(s, p, s'.procs[p], s'.waitLock);
    } else {
      EntryHere(s, j);
      DuoKeeps(s, p, s'.procs[p], j, s'.procs[j], s'.waitLock);
    }
  }

  lemma WakeInitGoes(s: State, p: nat, y: Pc)
    requires Sized(s) && p < NPROC && s.procs[p].pc.WakeInit?
    requires y == Reparent(s.procs[p].pc.k + 1) || y == WakeInit(s.procs[p].pc.k, s.procs[p].pc.j + 1)
    ensures ExitGoes(s, p, y)
  {
  }

  lemma WakeInitCalm(s: State, p: nat, i: nat)
    requires Sized(s) && Enabled(s, p, WakeInitStep) && i < NPROC
    ensures Sized(Step(s, p, WakeInitStep)) && Calm(s.procs[i], Step(s, p, WakeInitStep).procs[i])
  {
  }

  lemma InvParts(s: State)
    requires Inv(s)
    ensures Sized(s) && Entries(s) && Children(s) && Parents(s) && Wakes(s) && Pids(s)
  {
    hide Entries, Children, Parents, Wakes, Pids;
    EntriesSized(s);
  }

  /** wakeup(initproc) comes closer to init, or wakes it. */
  lemma WakeInitPending(s: State, p: nat)
    requires Sized(s) && Enabled(s, p, WakeInitStep) && Inv(s)
    ensures
      var s' := Step(s, p, WakeInitStep);
      && Sized(s') && s'.init == s.init && (InitPending(s) ==> InitPending(s') || !Quiet(s'.procs[s.init]))
  {
    hide Inv;
    EntryHere(s, p);
    EntryHere(s, s.init);
  }

  lemma WakeInitWakes(s: State, p: nat)
    requires Sized(s) && Enabled(s, p, WakeInitStep) && Inv(s)
    ensures Sized(Step(s, p, WakeInitStep)) && Wakes(Step(s, p, WakeInitStep))
  {
    hide Inv, Wakes, Calm, Step, InitPending, Quiet;
    InvParts(s);
    var s' := Step(s, p, WakeInitStep);
    WakeInitPending(s, p);
    forall i | 0 <= i < NPROC ensures Calm(s.procs[i], s'.procs[i]) {
      WakeInitCalm(s, p, i);
    }
    CalmWakes(s, s');
  }

  /** One slot of wakeup(p->parent): the parent is not asleep once its slot is done. */
  lemma WakeParentKeeps(s: State, p: nat)
    requires Inv(s) && Sized(s) && Enabled(s, p, WakeParentStep)
    ensures Inv(Step(s, p, WakeParentStep))
  {
    hide Inv, ExitGoes, Wakes, Bereft;
    EntryHere(s, p);
    var s' := Step(s, p, WakeParentStep);
    var j := s.procs[p].pc.j;
    RousesWakes(s, s', p);
    WakeParentGoes(s, p, s'.procs[p].pc);
    if j >= NPROC || j == p {
      SoloKeeps(s, p, s'.procs[p], s'.waitLock);
    } else {
      EntryHere(s, j);
      DuoKeeps(s, p, s'.procs[p], j, s'.procs[j], s'.waitLock);
    }
  }

  lemma WakeParentGoes(s: State, p: nat, y: Pc)
    requires Sized(s) && p < NPROC && s.procs[p].pc.WakeParent? && (y.WakeParent? || y == Dying)
    ensures ExitGoes(s, p, y)
  {
  }

  /** wakeup(p->parent) has done slot j. */
  predicate Rouses(s: State, s': State, p: nat) {
    && Sized(s) && p < NPROC && s.procs[p].pc.WakeParent?
    && var x, j := s.procs[p], s.procs[p].pc.j;
    if j >= NPROC then s' == Put(s, p, x.(pc := Dying))
    else if j == p then s' == Put(s, p, x.(pc := WakeParent(j + 1)))
    else !s.procs[j].held
         && s' == Put(Put(s, j, if x.parent.Some? then Awake(s.procs[j], OnProc(x.parent.value)) else s.procs[j]),
                      p, x.(pc := WakeParent(j + 1)))
  }

  lemma RousesWakes(s: State, s': State, p: nat)
    requires Inv(s) && Rouses(s, s', p)
    ensures Sized(s') && Wakes(s')
  {
    hide Inv, Bereft, Exits, Forks;
    EntryHere(s, p);
    forall c | 0 <= c < NPROC ensures WakeOk(s', c) {
      OkAt(s, c);
      if s.procs[c].parent.Some? {
        EntryHere(s, s.procs[c].parent.value);
      }
    }
  }

  /** reparent finds a child. */
  predicate Adopts(s: State, s': State, p: nat) {
    && Sized(s) && p < NPROC && s.procs[p].pc.Reparent? && s.procs[p].pc.k < NPROC && s.procs[p].pc.k != p
    && var k := s.procs[p].pc.k;
    && s.procs[k].parent == Some(p)
    && s' == s.(procs := s.procs[k := s.procs[k].(parent := Some(s.init))][p := s.procs[p].(pc := WakeInit(k, 0))])
  }

  lemma AdoptsEntries(s: State, s': State, p: nat)
    requires Inv(s) && Adopts(s, s', p)
    ensures Sized(s') && Entries(s')
  {
    hide Inv, Children, Parents, Wakes, Pids;
    InvParts(s);
    EntryHere(s, p);
    forall i | 0 <= i < NPROC
      ensures EntryOk(s'.procs[i], i) && (HoldsWait(s'.procs[i].pc) <==> s'.waitLock == Some(i))
    {
      EntryHere(s, i);
    }
  }

  lemma AdoptsChildren(s: State, s': State, p: nat)
    requires Inv(s) && Adopts(s, s', p)
    ensures Sized(s') && Children(s')
  {
    hide Inv, Entries, Parents, Wakes, Pids;
    InvParts(s);
    hide Parents, Wakes, Pids, Entries;
  }

  lemma AdoptsParents(s: State, s': State, p: nat)
    requires Inv(s) && Adopts(s, s', p)
    ensures Sized(s') && Parents(s')
  {
    hide Inv, Entries, Children, Wakes, Pids, Forks;
    InvParts(s);
    assert ParentOk(s, s.procs[p].pc.k);
    forall c | 0 <= c < NPROC ensures ParentOk(s', c) {
      assert ParentOk(s, c);
    }
  }

  lemma AdoptsWakes(s: State, s': State, p: nat)
    requires Inv(s) && Adopts(s, s', p)
    ensures Sized(s') && Wakes(s')
  {
    hide Inv, Bereft, Exits, Forks;
    EntryHere(s, p);
    EntryHere(s, s.procs[p].pc.k);
    EntryHere(s, s.init);
    forall c | 0 <= c < NPROC ensures WakeOk(s', c) {
      OkAt(s, c);
    }
  }

  lemma AdoptsPids(s: State, s': State, p: nat)
    requires Inv(s) && Adopts(s, s', p)
    ensures Sized(s') && Pids(s')
  {
    hide Inv, Entries, Children, Parents, Wakes, Pids;
    InvParts(s);
    EntryHere(s, p);
    PidsKept(s, s');
  }

  /** reparent gives a child to init, who may be asleep and is about to be woken. */
  lemma AdoptsKeeps(s: State, p: nat)
    requires Inv(s) && Sized(s) && Enabled(s, p, ReparentStep)
    requires var k := s.procs[p].pc.k; k < NPROC && s.procs[k].parent == Some(p)
    ensures Inv(Step(s, p, ReparentStep))
  {
    hide Entries, Children, Parents, Wakes, Pids;
    EntryHere(s, p);
    NotOwnChild(s, s.procs[p].pc.k);
    var s' := Step(s, p, ReparentStep);
    assert Adopts(s, s', p);
    AdoptsEntries(s, s', p);
    AdoptsChildren(s, s', p);
    AdoptsParents(s, s', p);
    AdoptsWakes(s, s', p);
    AdoptsPids(s, s', p);
  }

  lemma NotOwnChild(s: State, c: nat)
    requires Inv(s) && Sized(s) && c < NPROC
    ensures s.procs[c].parent != Some(c)
  {
    hide Entries, Children, Wakes, Pids;
    assert ParentOk(s, c);
  }

  /** The last step of exit under wait_lock. */
  predicate Dies(s: State, s': State, p: nat) {
    && Sized(s) && p < NPROC && s.procs[p].pc == Dying && !s.procs[p].held
    && s' == s.(procs := s.procs[p := s.procs[p].(st := Zombie, held := true, pc := Dead1)],
        exited := s.exited + {s.procs[p].pid})
  }

  lemma DiesEntries(s: State, s': State, p: nat)
    requires Inv(s) && Dies(s, s', p)
    ensures Sized(s') && Entries(s')
  {
    hide Inv, Children, Parents, Wakes, Pids;
    InvParts(s);
    EntryHere(s, p);
    forall i | 0 <= i < NPROC
      ensures EntryOk(s'.procs[i], i) && (HoldsWait(s'.procs[i].pc) <==> s'.waitLock == Some(i))
    {
      EntryHere(s, i);
    }
  }

  lemma DiesChildren(s: State, s': State, p: nat)
    requires Inv(s) && Dies(s, s', p)
    ensures Sized(s') && Children(s')
  {
    hide Inv, Entries, Parents, Wakes, Pids;
    InvParts(s);
    EntryHere(s, p);
  }

  lemma DiesParents(s: State, s': State, p: nat)
    requires Inv(s) && Dies(s, s', p)
    ensures Sized(s') && Parents(s')
  {
    hide Inv, Entries, Children, Wakes, Pids;
    InvParts(s);
    EntryHere(s, p);
    forall c | 0 <= c < NPROC ensures ParentOk(s', c) {
      assert ParentOk(s, c);
    }
  }

  lemma DiesWakes(s: State, s': State, p: nat)
    requires Inv(s) && Dies(s, s', p)
    ensures Sized(s') && Wakes(s')
  {
    hide Inv, Bereft, Exits, Forks;
    EntryHere(s, p);
    forall c | 0 <= c < NPROC ensures WakeOk(s', c) {
      OkAt(s, c);
      if s.procs[c].parent.Some? {
        EntryHere(s, s.procs[c].parent.value);
      }
    }
  }

  lemma DiesPids(s: State, s': State, p: nat)
    requires Inv(s) && Dies(s, s', p)
    ensures Sized(s') && Pids(s')
  {
    hide Inv, Entries, Children, Parents, Wakes;
    InvParts(s);
    EntryHere(s, p);
    forall n | n in s'.exited && n !in s'.reaped ensures HasZombie(s', n) {
      if n == s.procs[p].pid {
        assert s'.procs[p].st == Zombie;
      } else {
        assert HasZombie(s, n);
        var q :| 0 <= q < NPROC && s.procs[q].st == Zombie && s.procs[q].pid == n;
        assert s'.procs[q] == s.procs[q];
      }
    }
  }

  /** The process becomes a zombie: it has no children, and its parent is not asleep. */
  lemma DiesKeeps(s: State, p: nat)
    requires Inv(s) && Sized(s) && Enabled(s, p, ExitZombie)
    ensures Inv(Step(s, p, ExitZombie))
  {
    hide Entries, Children, Parents, Wakes, Pids;
    EntryHere(s, p);
    var s' := Step(s, p, ExitZombie);
    assert Dies(s, s', p);
    DiesEntries(s, s', p);
    DiesChildren(s, s', p);
    DiesParents(s, s', p);
    DiesWakes(s, s', p);
    DiesPids(s, s', p);
  }

  // ---------- wait ----------

  /** The scan goes on past a slot that is no zombie child, or wait gives up. */
  lemma ScanKeeps(s: State, p: nat, copyFails: bool)
    requires Inv(s) && Sized(s) && Enabled(s, p, ScanStep(copyFails))
    requires var k := s.procs[p].pc.k; s.procs[k].parent != Some(p) || s.procs[k].st != Zombie || copyFails
    ensures Inv(Step(s, p, ScanStep(copyFails)))
  {
    hide Inv;
    EntryHere(s, p);
    var s' := Step(s, p, ScanStep(copyFails));
    var k := s.procs[p].pc.k;
    if s.procs[k].parent == Some(p) && s.procs[k].st == Zombie {
      CalmSolo(s, p, s'.procs[p], s'.waitLock);
    } else {
      ScanWakes(s, p, s'.procs[p]);
      ExitStays(s, p, s'.procs[p].pc);
      SoloKeeps(s, p, s'.procs[p], s'.waitLock);
    }
  }

  lemma ScanWakes(s: State, p: nat, y: Proc)
    requires Sized(s) && p < NPROC && s.procs[p].pc.Scan? && s.procs[p].pc.k < NPROC
    requires var k := s.procs[p].pc.k; s.procs[k].parent != Some(p) || s.procs[k].st != Zombie
    requires y == s.procs[p].(pc := y.pc) && y.pc.Scan? && y.pc.k == s.procs[p].pc.k + 1 && Inv(s)
    ensures Wakes(Solo(s, p, y, s.waitLock))
  {
    hide Inv, WakeOk;
    EntryHere(s, p);
    forall c | 0 <= c < NPROC ensures WakeOk(Solo(s, p, y, s.waitLock), c) {
      OkAt(s, c);
      ScanWakeOk(s, p, y, c);
    }
  }

  lemma ScanWakeOk(s: State, p: nat, y: Proc, c: nat)
    requires Sized(s) && p < NPROC && s.procs[p].pc.Scan? && s.procs[p].pc.k < NPROC && c < NPROC && WakeOk(s, c)
    requires var k := s.procs[p].pc.k; s.procs[k].parent != Some(p) || s.procs[k].st != Zombie
    requires y == s.procs[p].(pc := y.pc) && y.pc.Scan? && y.pc.k == s.procs[p].pc.k + 1 && s.waitLock == Some(p)
    ensures WakeOk(Solo(s, p, y, s.waitLock), c)
  {
  }

  /** wait gives up, or goes to sleep: then no child is a zombie, and none can become one
      without wait_lock. */
  lemma ScanEndKeeps(s: State, p: nat)
    requires Inv(s) && Sized(s) && Enabled(s, p, ScanEnd)
    ensures Inv(Step(s, p, ScanEnd))
  {
    hide Inv;
    EntryHere(s, p);
    var s' := Step(s, p, ScanEnd);
    if s'.procs[p].pc == Idle {
      CalmSolo(s, p, s'.procs[p], s'.waitLock);
    } else {
      ToSleepWakes(s, p, s'.procs[p]);
      ExitStays(s, p, Sleep0);
      SoloKeeps(s, p, s'.procs[p], s'.waitLock);
    }
  }

  lemma ToSleepWakes(s: State, p: nat, y: Proc)
    requires Inv(s) && Sized(s) && p < NPROC && s.procs[p].pc.Scan? && s.procs[p].pc.k >= NPROC
    requires y == s.procs[p].(pc := Sleep0)
    ensures Wakes(Solo(s, p, y, s.waitLock))
  {
    hide Inv, Bereft, Exits, Forks;
    EntryHere(s, p);
    forall c | 0 <= c < NPROC ensures WakeOk(Solo(s, p, y, s.waitLock), c) {
      OkAt(s, c);
      EntryHere(s, c);
    }
  }

  /** wait finds a zombie child. */
  predicate Reaps(s: State, s': State, p: nat) {
    && Sized(s) && p < NPROC && s.procs[p].pc.Scan? && s.procs[p].pc.k < NPROC && s.procs[p].pc.k != p
    && var k := s.procs[p].pc.k;
    && s.procs[k].parent == Some(p) && s.procs[k].st == Zombie
    && s' == s.(procs := s.procs[k := FreeProc(s.procs[k])][p := s.procs[p].(pc := Idle)], waitLock := None,
                reaped := s.reaped + [s.procs[k].pid])
  }

  lemma ReapsEntries(s: State, s': State, p: nat)
    requires Inv(s) && Reaps(s, s', p)
    ensures Sized(s') && Entries(s')
  {
    hide Inv, Children, Parents, Wakes, Pids;
    InvParts(s);
    EntryHere(s, p);
    forall i | 0 <= i < NPROC
      ensures EntryOk(s'.procs[i], i) && (HoldsWait(s'.procs[i].pc) <==> s'.waitLock == Some(i))
    {
      EntryHere(s, i);
    }
  }

  lemma ReapsChildren(s: State, s': State, p: nat)
    requires Inv(s) && Reaps(s, s', p)
    ensures Sized(s') && Children(s')
  {
    hide Inv, Entries, Parents, Wakes, Pids;
    InvParts(s);
    EntryHere(s, p);
  }

  lemma ReapsParents(s: State, s': State, p: nat)
    requires Inv(s) && Reaps(s, s', p)
    ensures Sized(s') && Parents(s')
  {
    hide Inv, Entries, Children, Wakes, Pids;
    InvParts(s);
    EntryHere(s, p);
    forall c | 0 <= c < NPROC ensures ParentOk(s', c) {
      assert ParentOk(s, c);
    }
  }

  lemma ReapsWakes(s: State, s': State, p: nat)
    requires Inv(s) && Reaps(s, s', p)
    ensures Sized(s') && Wakes(s')
  {
    hide Inv, Bereft, Exits, Forks;
    EntryHere(s, p);
    forall c | 0 <= c < NPROC ensures WakeOk(s', c) {
      OkAt(s, c);
    }
  }

  lemma ReapsPids(s: State, s': State, p: nat)
    requires Inv(s) && Reaps(s, s', p)
    ensures Sized(s') && Pids(s')
  {
    hide Inv, Entries, Children, Parents, Wakes;
    InvParts(s);
    EntryHere(s, p);
    forall n | n in s'.exited && n !in s'.reaped ensures HasZombie(s', n) {
      assert HasZombie(s, n);
      var q :| 0 <= q < NPROC && s.procs[q].st == Zombie && s.procs[q].pid == n;
      assert s'.procs[q].st == Zombie && s'.procs[q].pid == n;
    }
  }

  /** wait finds a zombie child: its slot is free, and its pid is reaped for the first time. */
  lemma ReapsKeeps(s: State, p: nat)
    requires Inv(s) && Sized(s) && Enabled(s, p, ScanStep(false))
    requires s.procs[s.procs[p].pc.k].parent == Some(p) && s.procs[s.procs[p].pc.k].st == Zombie
    ensures Inv(Step(s, p, ScanStep(false)))
  {
    hide Entries, Children, Parents, Wakes, Pids;
    EntryHere(s, p);
    NotOwnChild(s, s.procs[p].pc.k);
    var s' := Step(s, p, ScanStep(false));
    assert Reaps(s, s', p);
    ReapsEntries(s, s', p);
    ReapsChildren(s, s', p);
    ReapsParents(s, s', p);
    ReapsWakes(s, s', p);
    ReapsPids(s, s', p);
  }

  // ---------- fork ----------

  /** The half-made child of a process in fork. */
  lemma ForkChild(s: State, p: nat)
    requires Inv(s) && Sized(s) && p < NPROC && Forks(s.procs[p].pc)
    ensures
      var np := s.procs[p].pc.np;
      && np < NPROC && np != p && s.procs[np].st == Used && s.procs[np].pc == Idle && EntryOk(s.procs[p], p)
      && (s.procs[p].pc.Linked? ==> s.procs[np].parent == Some(p)) && Live(s.procs[p].st) && np != s.init
  {
    hide Wakes, Pids, ParentOk;
    assert EntryOk(s.procs[p], p) && EntryOk(s.procs[s.procs[p].pc.np], s.procs[p].pc.np);
  }

  /** allocproc in fork. */
  predicate Allocates(s: State, s': State, p: nat, np: nat) {
    && Sized(s) && p < NPROC && np < NPROC && s.procs[p].st == Running && s.procs[p].pc == Idle
    && s.procs[np].st == Unused
    && s' == s.(procs := s.procs[np := s.procs[np].(st := Used, pid := s.nextpid, held := true)]
                                [p := s.procs[p].(pc := Forking(np))], nextpid := s.nextpid + 1)
  }

  lemma AllocatesEntries(s: State, s': State, p: nat, np: nat)
    requires Inv(s) && Allocates(s, s', p, np)
    ensures Sized(s') && Entries(s')
  {
    hide Inv, Children, Parents, Wakes, Pids;
    InvParts(s);
    forall i | 0 <= i < NPROC
      ensures EntryOk(s'.procs[i], i) && (HoldsWait(s'.procs[i].pc) <==> s'.waitLock == Some(i))
    {
      EntryHere(s, i);
    }
  }

  lemma AllocatesChildren(s: State, s': State, p: nat, np: nat)
    requires Inv(s) && Allocates(s, s', p, np)
    ensures Sized(s') && Children(s')
  {
    hide Inv, Entries, Parents, Wakes, Pids;
    InvParts(s);
    hide Parents, Wakes, Pids;
  }

  lemma AllocatesParents(s: State, s': State, p: nat, np: nat)
    requires Inv(s) && Allocates(s, s', p, np)
    ensures Sized(s') && Parents(s')
  {
    hide Inv, Entries, Children, Wakes, Pids;
    InvParts(s);
    EntryHere(s, p);
    forall c | 0 <= c < NPROC ensures ParentOk(s', c) {
      assert ParentOk(s, c);
    }
  }

  lemma AllocatesWakes(s: State, s': State, p: nat, np: nat)
    requires Inv(s) && Allocates(s, s', p, np)
    ensures Sized(s') && Wakes(s')
  {
    hide Inv, Bereft, Exits, Forks;
    EntryHere(s, p);
    forall c | 0 <= c < NPROC ensures WakeOk(s', c) {
      OkAt(s, c);
    }
  }

  lemma AllocatesPids(s: State, s': State, p: nat, np: nat)
    requires Inv(s) && Allocates(s, s', p, np)
    ensures Sized(s') && Pids(s')
  {
    hide Inv, Entries, Children, Parents, Wakes;
    InvParts(s);
    forall n | n in s'.exited && n !in s'.reaped ensures HasZombie(s', n) {
      assert HasZombie(s, n);
      var q :| 0 <= q < NPROC && s.procs[q].st == Zombie && s.procs[q].pid == n;
      assert s'.procs[q].st == Zombie && s'.procs[q].pid == n;
    }
  }

  /** fork takes an unused slot. */
  lemma AllocatesKeeps(s: State, p: nat, np: nat)
    requires Inv(s) && Sized(s) && Enabled(s, p, ForkAlloc(np))
    ensures Inv(Step(s, p, ForkAlloc(np)))
  {
    hide Entries, Children, Parents, Wakes, Pids;
    EntryHere(s, p);
    var s' := Step(s, p, ForkAlloc(np));
    assert Allocates(s, s', p, np);
    AllocatesEntries(s, s', p, np);
    AllocatesChildren(s, s', p, np);
    AllocatesParents(s, s', p, np);
    AllocatesWakes(s, s', p, np);
    AllocatesPids(s, s', p, np);
  }

  /** freeproc in fork. */
  predicate GivesUp(s: State, s': State, p: nat) {
    && Sized(s) && p < NPROC && s.procs[p].st == Running && s.procs[p].pc.Forking? && s.procs[p].pc.np < NPROC
    && s.procs[p].pc.np != p
    && var x, np := s.procs[p], s.procs[p].pc.np;
    s' == s.(procs := s.procs[np := FreeProc(s.procs[np])][p := x.(pc := Idle)])
  }

  lemma GivesUpEntries(s: State, s': State, p: nat)
    requires Inv(s) && GivesUp(s, s', p)
    ensures Sized(s') && Entries(s')
  {
    hide Inv, Children, Parents, Wakes, Pids;
    InvParts(s);
    ForkChild(s, p);
    forall i | 0 <= i < NPROC
      ensures EntryOk(s'.procs[i], i) && (HoldsWait(s'.procs[i].pc) <==> s'.waitLock == Some(i))
    {
      EntryHere(s, i);
    }
  }

  lemma GivesUpChildren(s: State, s': State, p: nat)
    requires Inv(s) && GivesUp(s, s', p)
    ensures Sized(s') && Children(s')
  {
    hide Inv, Entries, Parents, Wakes, Pids;
    InvParts(s);
    ForkChild(s, p);
  }

  lemma GivesUpParents(s: State, s': State, p: nat)
    requires Inv(s) && GivesUp(s, s', p)
    ensures Sized(s') && Parents(s')
  {
    hide Inv, Entries, Children, Wakes, Pids;
    InvParts(s);
    ForkChild(s, p);
    forall c | 0 <= c < NPROC ensures ParentOk(s', c) {
      assert ParentOk(s, c);
    }
  }

  lemma GivesUpWakes(s: State, s': State, p: nat)
    requires Inv(s) && GivesUp(s, s', p)
    ensures Sized(s') && Wakes(s')
  {
    hide Inv, Bereft, Exits;
    ForkChild(s, p);
    forall c | 0 <= c < NPROC ensures WakeOk(s', c) {
      OkAt(s, c);
    }
  }

  lemma GivesUpPids(s: State, s': State, p: nat)
    requires Inv(s) && GivesUp(s, s', p)
    ensures Sized(s') && Pids(s')
  {
    hide Inv, Entries, Children, Parents, Wakes;
    InvParts(s);
    ForkChild(s, p);
    forall n | n in s'.exited && n !in s'.reaped ensures HasZombie(s', n) {
      assert HasZombie(s, n);
      var q :| 0 <= q < NPROC && s.procs[q].st == Zombie && s.procs[q].pid == n;
      assert s'.procs[q].st == Zombie && s'.procs[q].pid == n;
    }
  }

  /** fork gives the slot back. */
  lemma GivesUpKeeps(s: State, p: nat)
    requires Inv(s) && Sized(s) && Enabled(s, p, ForkFail)
    ensures Inv(Step(s, p, ForkFail))
  {
    hide Entries, Children, Parents, Wakes, Pids;
    ForkChild(s, p);
    var s' := Step(s, p, ForkFail);
    assert GivesUp(s, s', p);
    GivesUpEntries(s, s', p);
    GivesUpChildren(s, s', p);
    GivesUpParents(s, s', p);
    GivesUpWakes(s, s', p);
    GivesUpPids(s, s', p);
  }

  /** fork sets the parent. */
  predicate Adds(s: State, s': State, p: nat) {
    && Sized(s) && p < NPROC && s.procs[p].st == Running && s.procs[p].pc.Forked? && s.procs[p].pc.np < NPROC
    && s.procs[p].pc.np != p
    && var x, np := s.procs[p], s.procs[p].pc.np;
    && s.waitLock == None
    && s' == s.(procs := s.procs[np := s.procs[np].(parent := Some(p))][p := x.(pc := Linked(np))])
  }

  lemma AddsEntries(s: State, s': State, p: nat)
    requires Inv(s) && Adds(s, s', p)
    ensures Sized(s') && Entries(s')
  {
    hide Inv, Children, Parents, Wakes, Pids;
    InvParts(s);
    ForkChild(s, p);
    forall i | 0 <= i < NPROC
      ensures EntryOk(s'.procs[i], i) && (HoldsWait(s'.procs[i].pc) <==> s'.waitLock == Some(i))
    {
      EntryHere(s, i);
    }
  }

  lemma AddsChildren(s: State, s': State, p: nat)
    requires Inv(s) && Adds(s, s', p)
    ensures Sized(s') && Children(s')
  {
    hide Inv, Entries, Parents, Wakes, Pids;
    InvParts(s);
    ForkChild(s, p);
  }

  lemma AddsParents(s: State, s': State, p: nat)
    requires Inv(s) && Adds(s, s', p)
    ensures Sized(s') && Parents(s')
  {
    hide Inv, Entries, Children, Wakes, Pids;
    InvParts(s);
    ForkChild(s, p);
    forall c | 0 <= c < NPROC ensures ParentOk(s', c) {
      assert ParentOk(s, c);
    }
  }

  lemma AddsWakes(s: State, s': State, p: nat)
    requires Inv(s) && Adds(s, s', p)
    ensures Sized(s') && Wakes(s')
  {
    hide Inv, Bereft, Exits;
    ForkChild(s, p);
    forall c | 0 <= c < NPROC ensures WakeOk(s', c) {
      OkAt(s, c);
    }
  }

  lemma AddsPids(s: State, s': State, p: nat)
    requires Inv(s) && Adds(s, s', p)
    ensures Sized(s') && Pids(s')
  {
    hide Inv, Entries, Children, Parents, Wakes, Pids;
    InvParts(s);
    ForkChild(s, p);
    PidsKept(s, s');
  }

  /** fork makes itself the parent. */
  lemma AddsKeeps(s: State, p: nat)
    requires Inv(s) && Sized(s) && Enabled(s, p, ForkLink)
    ensures Inv(Step(s, p, ForkLink))
  {
    hide Entries, Children, Parents, Wakes, Pids;
    ForkChild(s, p);
    var s' := Step(s, p, ForkLink);
    assert Adds(s, s', p);
    AddsEntries(s, s', p);
    AddsChildren(s, s', p);
    AddsParents(s, s', p);
    AddsWakes(s, s', p);
    AddsPids(s, s', p);
  }

  /** fork makes the child runnable. */
  predicate Starts(s: State, s': State, p: nat) {
    && Sized(s) && p < NPROC && s.procs[p].st == Running && s.procs[p].pc.Linked? && s.procs[p].pc.np < NPROC
    && s.procs[p].pc.np != p
    && var x, np := s.procs[p], s.procs[p].pc.np;
    && !s.procs[np].held
    && s' == s.(procs := s.procs[np := s.procs[np].(st := Runnable)][p := x.(pc := Idle)])
  }

  lemma StartsEntries(s: State, s': State, p: nat)
    requires Inv(s) && Starts(s, s', p)
    ensures Sized(s') && Entries(s')
  {
    hide Inv, Children, Parents, Wakes, Pids;
    InvParts(s);
    ForkChild(s, p);
    forall i | 0 <= i < NPROC
      ensures EntryOk(s'.procs[i], i) && (HoldsWait(s'.procs[i].pc) <==> s'.waitLock == Some(i))
    {
      EntryHere(s, i);
    }
  }

  lemma StartsChildren(s: State, s': State, p: nat)
    requires Inv(s) && Starts(s, s', p)
    ensures Sized(s') && Children(s')
  {
    hide Inv, Entries, Parents, Wakes, Pids;
    InvParts(s);
    ForkChild(s, p);
  }

  lemma StartsParents(s: State, s': State, p: nat)
    requires Inv(s) && Starts(s, s', p)
    ensures Sized(s') && Parents(s')
  {
    hide Inv, Entries, Children, Wakes, Pids;
    InvParts(s);
    ForkChild(s, p);
    forall c | 0 <= c < NPROC ensures ParentOk(s', c) {
      assert ParentOk(s, c);
    }
  }

  lemma StartsWakes(s: State, s': State, p: nat)
    requires Inv(s) && Starts(s, s', p)
    ensures Sized(s') && Wakes(s')
  {
    hide Children, Parents, Pids, Entries, WakeOk;
    ForkChild(s, p);
    CalmWakes(s, s');
  }

  lemma StartsPids(s: State, s': State, p: nat)
    requires Inv(s) && Starts(s, s', p)
    ensures Sized(s') && Pids(s')
  {
    hide Inv, Entries, Children, Parents, Wakes, Pids;
    InvParts(s);
    ForkChild(s, p);
    PidsKept(s, s');
  }

  /** fork lets the child run. */
  lemma StartsKeeps(s: State, p: nat)
    requires Inv(s) && Sized(s) && Enabled(s, p, ForkStart)
    ensures Inv(Step(s, p, ForkStart))
  {
    hide Entries, Children, Parents, Wakes, Pids;
    ForkChild(s, p);
    var s' := Step(s, p, ForkStart);
    assert Starts(s, s', p);
    StartsEntries(s, s', p);
    StartsChildren(s, s', p);
    StartsParents(s, s', p);
    StartsWakes(s, s', p);
    StartsPids(s, s', p);
  }

  /** fork lets go of the child's lock. */
  lemma ForkUnlockKeeps(s: State, p: nat)
    requires Inv(s) && Sized(s) && Enabled(s, p, ForkUnlock)
    ensures Inv(Step(s, p, ForkUnlock))
  {
    hide Inv;
    ForkChild(s, p);
    EntryHere(s, p);
    EntryHere(s, s.procs[p].pc.np);
    var s' := Step(s, p, ForkUnlock);
    ForkUnlockWakes(s, p);
    ExitStays(s, p, s'.procs[p].pc);
    DuoKeeps(s, p, s'.procs[p], s.procs[p].pc.np, s'.procs[s.procs[p].pc.np], s'.waitLock);
  }

  lemma ForkUnlockWakes(s: State, p: nat)
    requires Inv(s) && Sized(s) && Enabled(s, p, ForkUnlock)
    ensures Sized(Step(s, p, ForkUnlock)) && Wakes(Step(s, p, ForkUnlock))
  {
    hide Children, Parents, Pids, Entries, WakeOk;
    ForkChild(s, p);
    CalmWakes(s, Step(s, p, ForkUnlock));
  }

  // ---------- runs ----------

  lemma StepKeepsInv(s: State, p: nat, a: Action)
    requires Inv(s) && Sized(s) && Enabled(s, p, a)
    ensures Inv(Step(s, p, a))
  {
    hide Inv, Step;
    match a {
      case Schedule => PlainKeeps(s, p, a);
      case Yield => PlainKeeps(s, p, a);
      case OtherSleep => PlainKeeps(s, p, a);
      case OtherWake => PlainKeeps(s, p, a);
      case Kill => PlainKeeps(s, p, a);
      case ForkAlloc(np) => AllocatesKeeps(s, p, np);
      case ForkFail => GivesUpKeeps(s, p);
      case ForkUnlock => ForkUnlockKeeps(s, p);
      case ForkLink => AddsKeeps(s, p);
      case ForkStart => StartsKeeps(s, p);
      case ExitBegin => ExitPassingKeeps(s, p, a);
      case ReparentStep =>
        var k := s.procs[p].pc.k;
        if k < NPROC && s.procs[k].parent == Some(p) {
          AdoptsKeeps(s, p);
        } else {
          ReparentPasses(s, p);
        }
      case WakeInitStep => WakeInitKeeps(s, p);
      case WakeParentStep => WakeParentKeeps(s, p);
      case ExitZombie => DiesKeeps(s, p);
      case ExitRelease => ExitPassingKeeps(s, p, a);
      case ExitSwitch => ExitPassingKeeps(s, p, a);
      case WaitBegin => WaitPassingKeeps(s, p, a);
      case ScanStep(copyFails) =>
        var k := s.procs[p].pc.k;
        if s.procs[k].parent == Some(p) && s.procs[k].st == Zombie && !copyFails {
          ReapsKeeps(s, p);
        } else {
          ScanKeeps(s, p, copyFails);
        }
      case ScanEnd => ScanEndKeeps(s, p);
      case SleepLock => SleepKeeps(s, p, a);
      case SleepRelease => SleepKeeps(s, p, a);
      case SleepSet => SleepKeeps(s, p, a);
      case SleepSwitch => SleepKeeps(s, p, a);
      case Wake => WokenKeeps(s, p);
      case Relock => WaitPassingKeeps(s, p, a);
    }
  }

  /** The table after userinit: init is runnable, every other slot unused. */
  predicate Boot(s: State) {
    && Sized(s) && s.waitLock == None && s.nextpid == 2 && s.exited == {} && s.reaped == []
    && s.procs[s.init] == Proc(Runnable, NoChan, false, 1, None, Idle, false)
    && forall p :: 0 <= p < NPROC && p != s.init ==> s.procs[p] == Proc(Unused, NoChan, false, 0, None, Idle, false)
  }

  lemma BootInv(s: State)
    requires Boot(s)
    ensures Inv(s)
  {
    hide ParentOk, WakeOk;
    BootAlone(s);
  }

  lemma BootAlone(s: State)
    requires Boot(s)
    ensures forall c :: 0 <= c < NPROC ==> ParentOk(s, c) && WakeOk(s, c)
  {
    forall c | 0 <= c < NPROC ensures ParentOk(s, c) && WakeOk(s, c) {
      assert s.procs[c].parent == None;
    }
  }

  /** A run: each step by the process named with it. */
  predicate Run(trace: seq<State>, steps: seq<(nat, Action)>) {
    && |trace| == |steps| + 1 && Boot(trace[0])
    && forall k :: 0 <= k < |steps| ==>
         && Sized(trace[k]) && Enabled(trace[k], steps[k].0, steps[k].1)
         && trace[k + 1] == Step(trace[k], steps[k].0, steps[k].1)
  }

  lemma {:induction false} RunKeepsInv(trace: seq<State>, steps: seq<(nat, Action)>, n: nat)
    requires Run(trace, steps) && n < |trace|
    ensures Inv(trace[n])
  {
    hide Inv, Step, Boot;
    if n == 0 {
      BootInv(trace[0]);
    } else {
      RunKeepsInv(trace, steps, n - 1);
      StepKeepsInv(trace[n - 1], steps[n - 1].0, steps[n - 1].1);
    }
  }

  /** No lost exit: at every moment of every run when wait_lock is free, no process asleep
      in wait has a zombie child. */
  lemma NoLostExit(trace: seq<State>, steps: seq<(nat, Action)>, n: nat, p: nat, c: nat)
    requires Run(trace, steps) && n < |trace| && p < NPROC && c < NPROC && Sized(trace[n])
    requires trace[n].waitLock == None && trace[n].procs[p].st == Sleeping && trace[n].procs[p].chan == OnProc(p)
    requires trace[n].procs[c].parent == Some(p)
    ensures trace[n].procs[c].st != Zombie
  {
    RunKeepsInv(trace, steps, n);
    var s := trace[n];
    assert WakeOk(s, c) && EntryOk(s.procs[p], p);
  }

  /** Every started process but init always has a live parent. */
  lemma LiveParent(trace: seq<State>, steps: seq<(nat, Action)>, n: nat, c: nat)
    requires Run(trace, steps) && n < |trace| && c < NPROC && Sized(trace[n]) && c != trace[n].init
    requires Live(trace[n].procs[c].st) || trace[n].procs[c].st == Zombie
    ensures
      var s := trace[n];
      s.procs[c].parent.Some? && s.procs[c].parent.value < NPROC && Live(s.procs[s.procs[c].parent.value].st)
  {
    hide Run;
    RunKeepsInv(trace, steps, n);
    assert ParentOk(trace[n], c);
  }

  /** An exited process is a zombie in one slot or has been reaped, once and by wait. */
  lemma ReapedOnce(trace: seq<State>, steps: seq<(nat, Action)>, n: nat, pid: nat)
    requires Run(trace, steps) && n < |trace| && Sized(trace[n]) && pid in trace[n].exited
    ensures
      var s := trace[n];
      && (pid in s.reaped <==> !HasZombie(s, pid))
      && (forall j, k :: 0 <= j < |s.reaped| && 0 <= k < |s.reaped| && s.reaped[j] == pid && s.reaped[k] == pid ==>
          j == k)
      && (forall p, q :: 0 <= p < NPROC && 0 <= q < NPROC && ZombieOf(s.procs[p], pid) && ZombieOf(s.procs[q], pid) ==>
            p == q)
  {
    hide Run;
    RunKeepsInv(trace, steps, n);
  }

  /** wait never frees a child that is still on its way out of the processor. */
  lemma ReapedOffProcessor(trace: seq<State>, steps: seq<(nat, Action)>, n: nat)
    requires Run(trace, steps) && n < |steps| && steps[n].1 == ScanStep(false)
    requires |trace[n + 1].reaped| > |trace[n].reaped|
    ensures
      var s, p := trace[n], steps[n].0;
      && Sized(s) && p < NPROC && s.procs[p].pc.Scan? && s.procs[p].pc.k < NPROC
      && var x := s.procs[s.procs[p].pc.k];
      x.parent == Some(p) && x.pc == Dead && !x.held && trace[n + 1].reaped == s.reaped + [x.pid]
  {
    RunKeepsInv(trace, steps, n);
    EntryHere(trace[n], trace[n].procs[steps[n].0].pc.k);
  }
}
