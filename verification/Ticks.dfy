/** Clock ticks charged to processes, the priorities derived from them, and the choice of
    the priority scheduler. Each method of `Table` is one step of the kernel; clockintr is
    one step, and the tick counter does not wrap. */
module Ticks {
  const NPROC := 64

  datatype St = Unused | Used | Sleeping | Runnable | Running | Zombie

  datatype Proc = Proc(
    st: St, pid: nat, ctime: nat, etime: nat, stime: nat, rtime: nat, rtimeWhole: nat, wtimeWhole: nat,
    spriority: int, priority: int, niceness: int, nrun: nat)

  function Clamp(n: int): int {
    if n < 0 then 0 else if n > 100 then 100 else n
  }

  /** A share of n ticks in tenths. */
  function Tenths(stime: nat, n: nat): nat
    requires n > 0
  {
    stime * 10 / n
  }

  /** What update_vals makes of one entry. */
  function Ticked(x: Proc): Proc {
    var running := x.st == Running;
    var stime, rtime := if x.st == Sleeping then x.stime + 1 else x.stime, if running then x.rtime + 1 else x.rtime;
    var niceness := if rtime != 0 || stime != 0 then Tenths(stime, stime + rtime) else x.niceness;
    x.(stime := stime, rtime := rtime, rtimeWhole := if running then x.rtimeWhole + 1 else x.rtimeWhole,
       wtimeWhole := if running then x.wtimeWhole else x.wtimeWhole + 1,
       niceness := niceness, priority := Clamp(x.spriority - niceness + 5))
  }

  /** Every tick since its creation was charged to the process, to running or to waiting;
      a zombie's running time ended with it. */
  predicate Charged(x: Proc, ticks: nat) {
    && 0 <= x.priority <= 100 && 0 <= x.niceness <= 10
    && (x.st != Unused ==> x.ctime <= ticks && x.rtimeWhole + x.wtimeWhole == ticks - x.ctime)
    && (x.st == Zombie ==> x.ctime <= x.etime <= ticks && x.rtimeWhole <= x.etime - x.ctime)
  }

  /** A share of at most all of the time, in tenths. */
  lemma NicenessRange(stime: nat, rtime: nat)
    requires stime + rtime > 0
    ensures Tenths(stime, stime + rtime) <= 10
  {
    var n := stime + rtime;
    var q := stime * 10 / n;
    assert q * n <= stime * 10 <= 10 * n;
  }

  lemma TickedCharged(x: Proc, ticks: nat)
    requires Charged(x, ticks)
    ensures Charged(Ticked(x), ticks + 1)
  {
    var stime := if x.st == Sleeping then x.stime + 1 else x.stime;
    var rtime := if x.st == Running then x.rtime + 1 else x.rtime;
    if rtime != 0 || stime != 0 {
      NicenessRange(stime, rtime);
    }
  }

  /** A tick leaves the niceness as the tenths of the counted time that were spent asleep,
      rounded down, and the priority within five of the static one: five above for a
      process that never slept, five below for one that only slept. */
  lemma TickedNiceness(x: Proc)
    requires 0 <= x.niceness <= 10 && 0 <= x.spriority <= 100
    ensures
      var y := Ticked(x);
      && y.stime == x.stime + (if x.st == Sleeping then 1 else 0)
      && y.rtime == x.rtime + (if x.st == Running then 1 else 0)
      && (y.stime + y.rtime > 0 ==>
          y.niceness * (y.stime + y.rtime) <= 10 * y.stime < (y.niceness + 1) * (y.stime + y.rtime))
      && (y.stime + y.rtime == 0 ==> y.niceness == x.niceness)
      && x.spriority - 5 <= y.priority <= x.spriority + 5
      && (y.stime == 0 < y.rtime ==> y.priority == if x.spriority > 95 then 100 else x.spriority + 5)
      && (y.rtime == 0 < y.stime ==> y.priority == if x.spriority < 5 then 0 else x.spriority - 5)
  {
    var y := Ticked(x);
    if y.stime + y.rtime > 0 {
      NicenessRange(y.stime, y.rtime);
      Rounded(y.stime, y.stime + y.rtime);
      AllOrNothing(y.stime, y.rtime);
    }
  }

  /** Of two processes with the same static priority, the one that slept for the larger
      share of its time comes first. */
  lemma SleepersFirst(x: Proc, y: Proc)
    requires x.spriority == y.spriority
    requires
      var a, b := Ticked(x), Ticked(y);
      && a.stime + a.rtime > 0 && b.stime + b.rtime > 0
      && a.stime * (b.stime + b.rtime) >= b.stime * (a.stime + a.rtime)
    ensures Ticked(x).niceness >= Ticked(y).niceness && Ticked(x).priority <= Ticked(y).priority
  {
    var a, b := Ticked(x), Ticked(y);
    ShareMonotone(a.stime, a.stime + a.rtime, b.stime, b.stime + b.rtime);
  }

  lemma ShareMonotone(s: nat, n: nat, t: nat, m: nat)
    requires n > 0 && m > 0 && s * m >= t * n
    ensures Tenths(s, n) >= Tenths(t, m)
  {
    hide Tenths;
    Rounded(s, n);
    Rounded(t, m);
    ShareOrder(Tenths(s, n), s, n, Tenths(t, m), t, m);
  }

  lemma ShareOrder(p: nat, s: nat, n: nat, q: nat, t: nat, m: nat)
    requires n > 0 && m > 0 && t * n <= s * m && q * m <= 10 * t && 10 * s < (p + 1) * n
    ensures q <= p
  {
    Scaled(q * m, 10 * t, n);
    Scaled(10 * s + 1, (p + 1) * n, m);
    Regroup(q, m, n);
    Regroup(p + 1, n, m);
    Cancel(q, p + 1, n * m);
  }

  lemma Scaled(a: nat, b: nat, k: nat)
    requires a <= b
    ensures a * k <= b * k
  {
  }

  lemma Regroup(a: nat, b: nat, c: nat)
    ensures a * b * c == a * (b * c) == a * (c * b)
  {
  }

  lemma AllOrNothing(stime: nat, rtime: nat)
    requires stime + rtime > 0
    ensures stime == 0 ==> Tenths(stime, stime + rtime) == 0
    ensures rtime == 0 ==> Tenths(stime, stime + rtime) == 10
  {
    if rtime == 0 {
      Whole(stime);
    }
  }

  lemma Whole(n: nat)
    requires n > 0
    ensures Tenths(n, n) == 10
  {
    Rounded(n, n);
    Cancel(10, Tenths(n, n) + 1, n);
  }

  lemma Cancel(a: nat, b: nat, k: nat)
    requires a * k < b * k
    ensures a < b
  {
  }

  lemma Rounded(s: nat, n: nat)
    requires n > 0
    ensures Tenths(s, n) * n <= 10 * s < (Tenths(s, n) + 1) * n
  {
  }

  /** Entry j is a runnable process that no runnable process among the first n beats. */
  ghost predicate Least(procs: seq<Proc>, n: nat, j: int) {
    && 0 <= j < n <= |procs| && procs[j].st == Runnable
    && forall i :: 0 <= i < n && procs[i].st == Runnable ==> procs[j].priority <= procs[i].priority
  }

  /** p replaces t as the scheduler's choice. */
  predicate Beats(t: Proc, p: Proc) {
    || t.priority > p.priority
    || (t.priority == p.priority && t.nrun > p.nrun)
    || (t.priority == p.priority && t.ctime > p.ctime)
  }

  /** The choice after the first n entries, -1 if none of them is runnable. */
  function Pick(procs: seq<Proc>, n: nat): (j: int)
    requires n <= |procs|
    ensures -1 <= j < n && (j != -1 ==> procs[j].st == Runnable)
    ensures j == -1 <==> forall i :: 0 <= i < n ==> procs[i].st != Runnable
  {
    if n == 0 then -1 else
      var j := Pick(procs, n - 1);
      if procs[n - 1].st == Runnable && (j == -1 || Beats(procs[j], procs[n - 1])) then n - 1 else j
  }

  lemma {:induction false} PickLeast(procs: seq<Proc>, n: nat)
    requires n <= |procs| && Pick(procs, n) != -1
    ensures Least(procs, n, Pick(procs, n))
  {
    if Pick(procs, n - 1) != -1 {
      PickLeast(procs, n - 1);
    }
  }

  /** The order the design promises: priority, then number of runs, then creation time. */
  predicate Before(p: Proc, t: Proc) {
    || p.priority < t.priority
    || (p.priority == t.priority && (p.nrun < t.nrun || (p.nrun == t.nrun && p.ctime < t.ctime)))
  }

  /** Of equal priority, t has had fewer runs but was created later. */
  predicate Crossed(t: Proc, p: Proc) {
    t.priority == p.priority && t.nrun < p.nrun && t.ctime > p.ctime
  }

  /** The scheduler's comparison is the promised one exactly when the two do not cross. */
  lemma TieBreakExact(t: Proc, p: Proc)
    ensures (Beats(t, p) <==> Before(p, t)) <==> !Crossed(t, p)
  {
  }

  ghost predicate NoneCrossed(procs: seq<Proc>) {
    forall i, j :: 0 <= i < |procs| && 0 <= j < |procs| && procs[i].st == Runnable && procs[j].st == Runnable ==>
      !Crossed(procs[i], procs[j])
  }

  /** No runnable process among the first n comes before entry j. */
  ghost predicate Earliest(procs: seq<Proc>, n: nat, j: int) {
    && 0 <= j < n <= |procs| && procs[j].st == Runnable
    && forall i :: 0 <= i < n && procs[i].st == Runnable ==> !Before(procs[i], procs[j])
  }

  /** Some promised choice has no later entry of its priority that was created before it. */
  ghost predicate Unovertaken(procs: seq<Proc>, n: nat) {
    exists e :: Earliest(procs, n, e) && KeepsPlace(procs, n, e)
  }

  ghost predicate KeepsPlace(procs: seq<Proc>, n: nat, e: int) {
    && 0 <= e < n <= |procs|
    && forall i :: e < i < n && procs[i].st == Runnable && procs[i].priority == procs[e].priority ==>
         procs[i].ctime >= procs[e].ctime
  }

  /** No later entry beats the choice. */
  lemma {:induction false} PickStands(procs: seq<Proc>, n: nat, i: nat)
    requires i < n <= |procs| && Pick(procs, n) < i && procs[i].st == Runnable
    ensures Pick(procs, n) != -1 && !Beats(procs[Pick(procs, n)], procs[i])
  {
    if i < n - 1 {
      PickStands(procs, n - 1, i);
    }
  }

  /** From the promised choice on, the scan holds an entry that ties with it. */
  lemma {:induction false} PickTies(procs: seq<Proc>, n: nat, e: nat, k: nat)
    requires Earliest(procs, n, e) && KeepsPlace(procs, n, e) && e < k <= n
    ensures Pick(procs, k) != -1
    ensures !Before(procs[e], procs[Pick(procs, k)]) && !Before(procs[Pick(procs, k)], procs[e])
  {
    if e < k - 1 {
      PickTies(procs, n, e, k - 1);
    }
  }

  /** The choice is a promised one exactly when some promised choice is not overtaken. */
  lemma PickEarliest(procs: seq<Proc>, n: nat)
    requires n <= |procs|
    ensures Earliest(procs, n, Pick(procs, n)) <==> Unovertaken(procs, n)
  {
    var j := Pick(procs, n);
    if Earliest(procs, n, j) {
      forall i | j < i < n && procs[i].st == Runnable ensures !Beats(procs[j], procs[i]) {
        PickStands(procs, n, i);
      }
      assert KeepsPlace(procs, n, j);
    }
    if Unovertaken(procs, n) {
      var e :| Earliest(procs, n, e) && KeepsPlace(procs, n, e);
      PickTies(procs, n, e, n);
    }
  }

  /** In particular when no two runnable processes cross. */
  lemma {:induction false} UncrossedEarliest(procs: seq<Proc>, n: nat)
    requires n <= |procs| && Pick(procs, n) != -1 && NoneCrossed(procs)
    ensures Earliest(procs, n, Pick(procs, n))
  {
    var j := Pick(procs, n - 1);
    if j != -1 {
      UncrossedEarliest(procs, n - 1);
      TieBreakExact(procs[j], procs[n - 1]);
    }
  }

  /** With processes that cross, the choice can be one that should have come second;
      in the other order of the table the same two are chosen between correctly. */
  lemma TieBreakFails()
    ensures
      var a := Proc(Runnable, 1, 7, 0, 0, 0, 0, 0, 60, 60, 5, 0);
      var b := Proc(Runnable, 2, 3, 0, 0, 0, 0, 0, 60, 60, 5, 4);
      && Before(a, b) && Pick([a, b], 2) == 1 && !Earliest([a, b], 2, 1)
      && Crossed(a, b) && Pick([b, a], 2) == 1 && Earliest([b, a], 2, 1)
  {
    var a := Proc(Runnable, 1, 7, 0, 0, 0, 0, 0, 60, 60, 5, 0);
    var b := Proc(Runnable, 2, 3, 0, 0, 0, 0, 0, 60, 60, 5, 4);
    var procs := [a, b];
    assert Pick(procs, 1) == 0;
    assert procs[0] == a && procs[1] == b;
    assert Pick([b, a], 1) == 0;
  }

  function Renewed(x: Proc, pid: nat, priority: int): Proc {
    if x.pid == pid then x.(spriority := priority, niceness := 5) else x
  }

  /** The static priority of the last process with this pid, -1 if there is none. */
  ghost function LastPriority(procs: seq<Proc>, pid: nat): int {
    if procs == [] then -1
    else if procs[|procs| - 1].pid == pid then procs[|procs| - 1].spriority
    else LastPriority(procs[..|procs| - 1], pid)
  }

  class Table {
    const procs: array<Proc>
    var ticks: nat
    var nextpid: nat

    ghost predicate Valid()
      reads this, procs
    {
      procs.Length == NPROC && forall i :: 0 <= i < NPROC ==> Charged(procs[i], ticks)
    }

    constructor ()
      ensures Valid() && fresh(procs) && ticks == 0 && nextpid == 1
      ensures forall i :: 0 <= i < NPROC ==> procs[i] == Proc(Unused, 0, 0, 0, 0, 0, 0, 0, 0, 0, 0, 0)
    {
      procs := new Proc[NPROC](_ => Proc(Unused, 0, 0, 0, 0, 0, 0, 0, 0, 0, 0, 0));
      ticks, nextpid := 0, 1;
    }

    /** clockintr: one more tick, charged by update_vals to every entry of the table. */
    method Clockintr()
      requires Valid()
      modifies this`ticks, procs
      ensures Valid() && ticks == old(ticks) + 1
      ensures forall i :: 0 <= i < NPROC ==> procs[i] == Ticked(old(procs[i]))
    {
      ticks := ticks + 1;
      UpdateVals();
      forall i | 0 <= i < NPROC ensures Charged(procs[i], ticks) {
        TickedCharged(old(procs[i]), old(ticks));
      }
    }

    method UpdateVals()
      requires procs.Length == NPROC
      modifies procs
      ensures forall i :: 0 <= i < NPROC ==> procs[i] == Ticked(old(procs[i]))
    {
      hide Ticked;
      var i := 0;
      while i < NPROC
        invariant 0 <= i <= NPROC
        invariant forall k :: 0 <= k < i ==> procs[k] == Ticked(old(procs[k]))
        invariant forall k :: i <= k < NPROC ==> procs[k] == old(procs[k])
      {
        UpdateEntry(i);
        i := i + 1;
      }
    }

    /** One round of update_vals. */
    method UpdateEntry(i: nat)
      requires i < procs.Length
      modifies procs
      ensures procs[i] == Ticked(old(procs[i]))
      ensures forall k :: 0 <= k < procs.Length && k != i ==> procs[k] == old(procs[k])
    {
      if procs[i].st == Sleeping {
        procs[i] := procs[i].(stime := procs[i].stime + 1);
      }
      if procs[i].st == Running {
        procs[i] := procs[i].(rtime := procs[i].rtime + 1, rtimeWhole := procs[i].rtimeWhole + 1);
      } else {
        procs[i] := procs[i].(wtimeWhole := procs[i].wtimeWhole + 1);
      }
      if procs[i].rtime != 0 || procs[i].stime != 0 {
        procs[i] := procs[i].(niceness := procs[i].stime * 10 / (procs[i].stime + procs[i].rtime));
      }
      procs[i] := procs[i].(priority := procs[i].spriority - procs[i].niceness + 5);
      if procs[i].priority < 0 {
        procs[i] := procs[i].(priority := 0);
      } else if procs[i].priority > 100 {
        procs[i] := procs[i].(priority := 100);
      }
    }

    /** allocproc: the first unused entry, with fresh accounts; -1 if there is none. */
    method Allocproc() returns (i: int)
      requires Valid()
      modifies this`nextpid, procs
      ensures Valid()
      ensures i == -1 ==>
                && nextpid == old(nextpid)
                && forall k :: 0 <= k < NPROC ==> procs[k] == old(procs[k]) && procs[k].st != Unused
      ensures i != -1 ==>
                && 0 <= i < NPROC && old(procs[i].st) == Unused && nextpid == old(nextpid) + 1
                && procs[i] == Proc(Used, old(nextpid), ticks, 0, 0, 0, 0, 0, 60, 60, 5, 0)
                && (forall k :: 0 <= k < NPROC && k != i ==> procs[k] == old(procs[k]))
                && forall k :: 0 <= k < i ==> procs[k].st != Unused
    {
      i := 0;
      while i < NPROC
        invariant 0 <= i <= NPROC && Valid() && forall k :: 0 <= k < i ==> procs[k].st != Unused
        invariant nextpid == old(nextpid) && forall k :: 0 <= k < NPROC ==> procs[k] == old(procs[k])
      {
        if procs[i].st == Unused {
          procs[i] := Proc(Used, nextpid, ticks, 0, 0, 0, 0, 0, 60, 60, 5, 0);
          nextpid := nextpid + 1;
          return;
        }
        i := i + 1;
      }
      return -1;
    }

    /** freeproc. */
    method Freeproc(i: nat)
      requires Valid() && i < NPROC
      modifies procs
      ensures Valid() && procs[i] == Proc(Unused, 0, 0, old(procs[i].etime), 0, 0, 0, 0, 0, 0, 0, 0)
      ensures forall k :: 0 <= k < NPROC && k != i ==> procs[k] == old(procs[k])
    {
      procs[i] := Proc(Unused, 0, 0, procs[i].etime, 0, 0, 0, 0, 0, 0, 0, 0);
    }

    /** Any change between used, sleeping, runnable and running by fork, sleep, wakeup,
        kill, yield and the scheduler; the accounts stay as they are. */
    method SetState(i: nat, st: St)
      requires Valid() && i < NPROC && procs[i].st != Unused && procs[i].st != Zombie && st != Unused && st != Zombie
      modifies procs
      ensures Valid() && procs[i] == old(procs[i]).(st := st)
      ensures forall k :: 0 <= k < NPROC && k != i ==> procs[k] == old(procs[k])
    {
      procs[i] := procs[i].(st := st);
    }

    /** exit marks the time. */
    method Exit(i: nat)
      requires Valid() && i < NPROC && procs[i].st == Running
      modifies procs
      ensures Valid() && procs[i] == old(procs[i]).(st := Zombie, etime := ticks)
      ensures forall k :: 0 <= k < NPROC && k != i ==> procs[k] == old(procs[k])
    {
      procs[i] := procs[i].(st := Zombie, etime := ticks);
    }

    /** The times waitx reports for a zombie child: neither is negative, and together
        they are its whole life, however late waitx comes. */
    method WaitxTimes(i: nat) returns (run: int, wait: int)
      requires Valid() && i < NPROC && procs[i].st == Zombie
      ensures 0 <= run && 0 <= wait && run + wait == procs[i].etime - procs[i].ctime && run == procs[i].rtimeWhole
    {
      run := procs[i].rtimeWhole;
      wait := procs[i].etime - procs[i].ctime - procs[i].rtimeWhole;
    }

    /** The choice of the priority scheduler: -1, or a runnable process of least
        priority; it is the one the design promises exactly when that one has no later
        entry of its priority that was created before it. */
    method Choose() returns (j: int)
      requires procs.Length == NPROC
      ensures j == -1 <==> forall i :: 0 <= i < NPROC ==> procs[i].st != Runnable
      ensures j != -1 ==> Least(procs[..], NPROC, j)
      ensures Earliest(procs[..], NPROC, j) <==> Unovertaken(procs[..], NPROC)
      ensures j != -1 && NoneCrossed(procs[..]) ==> Earliest(procs[..], NPROC, j)
      ensures j == Pick(procs[..], NPROC)
    {
      j := -1;
      var i := 0;
      while i < NPROC
        invariant 0 <= i <= NPROC
        invariant j == Pick(procs[..], i)
      {
        if procs[i].st == Runnable {
          if j == -1 || Beats(procs[j], procs[i]) {
            j := i;
          }
        }
        i := i + 1;
      }
      if j != -1 {
        PickLeast(procs[..], NPROC);
        if NoneCrossed(procs[..]) {
          UncrossedEarliest(procs[..], NPROC);
        }
      }
      PickEarliest(procs[..], NPROC);
    }

    /** Starting the process chosen: its counts for the priority begin anew. */
    method Start(j: nat)
      requires Valid() && j < NPROC
      modifies procs
      ensures Valid() && forall k :: 0 <= k < NPROC && k != j ==> procs[k] == old(procs[k])
      ensures procs[j] == if old(procs[j].st) == Runnable
                          then old(procs[j]).(st := Running, stime := 0, rtime := 0, niceness := 5,
                              nrun := old(procs[j]).nrun + 1)
                          else old(procs[j])
    {
      if procs[j].st == Runnable {
        procs[j] := procs[j].(st := Running, stime := 0, rtime := 0, niceness := 5, nrun := procs[j].nrun + 1);
      }
    }

    /** priority_updater. The value returned is the old priority of the last entry with
        this pid, and -1 if there is none. */
    method SetPriority(pid: nat, priority: int) returns (was: int)
      requires Valid()
      modifies procs
      ensures Valid()
      ensures forall k :: 0 <= k < NPROC ==> procs[k] == Renewed(old(procs[k]), pid, priority)
      ensures was == LastPriority(old(procs[..]), pid)
    {
      was := -1;
      var i := 0;
      while i < NPROC
        invariant 0 <= i <= NPROC && Valid()
        invariant forall k :: 0 <= k < i ==> procs[k] == Renewed(old(procs[k]), pid, priority)
        invariant forall k :: i <= k < NPROC ==> procs[k] == old(procs[k])
        invariant was == LastPriority(old(procs[..])[..i], pid)
      {
        ghost var seen := old(procs[..])[..i + 1];
        assert seen[..i] == old(procs[..])[..i];
        if procs[i].pid == pid {
          was := procs[i].spriority;
          procs[i] := procs[i].(spriority := priority, niceness := 5);
        }
        i := i + 1;
      }
      assert old(procs[..])[..NPROC] == old(procs[..]);
    }
  }
}
