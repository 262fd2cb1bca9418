/** The page-table pages that mapping a range of pages takes. */
module TableCost {
  import opened Wrappers
  import opened PageTable

  // ---------- one page ----------

  /** Tables on the way to page v that are missing. */
  ghost function Cost(s: Memory, r: nat, v: nat): nat
    requires s.IsRoot(r)
  {
    if v >= MAXVPN then 0
    else (if s.MidOf(r, Top(v)) == None then 1 else 0) + (if s.LowOf(r, Top(v), Middle(v)) == None then 1 else 0)
  }

  /** From s to s' the tables on the way to page v down to `level` were added, and no others. */
  ghost predicate OnPath(s: Memory, s': Memory, r: nat, v: nat, level: nat) {
    && s.IsRoot(r) && s'.IsRoot(r)
    && (forall i :: 0 <= i < NPTE ==>
          (s'.MidOf(r, i) == None <==> s.MidOf(r, i) == None && !(level < 2 && i == Top(v))))
    && (forall i, j :: 0 <= i < NPTE && 0 <= j < NPTE ==>
          (s'.LowOf(r, i, j) == None <==>
            s.LowOf(r, i, j) == None && !(level < 1 && i == Top(v) && j == Middle(v))))
  }

  /** Missing tables down to `level`. */
  ghost function Spent(s: Memory, r: nat, v: nat, level: nat): nat
    requires s.IsRoot(r)
  {
    (if level < 2 && s.MidOf(r, Top(v)) == None then 1 else 0)
    + (if level < 1 && s.LowOf(r, Top(v), Middle(v)) == None then 1 else 0)
  }

  lemma OnPathThen(s: Memory, s1: Memory, s2: Memory, r: nat, v: nat, level: nat)
    requires OnPath(s, s1, r, v, level + 1) && OnPath(s1, s2, r, v, level) && level < 2
    ensures OnPath(s, s2, r, v, level)
    ensures Spent(s, r, v, level) == Spent(s, r, v, level + 1) + Spent(s1, r, v, level) - Spent(s1, r, v, level + 1)
  {
    hide Top, Middle;
  }

  /** A table that is there already. */
  lemma OnPathSelf(s: Memory, r: nat, v: nat, level: nat)
    requires s.IsRoot(r) && level <= 2
    requires level < 2 ==> s.MidOf(r, Top(v)).Some?
    requires level < 1 ==> s.LowOf(r, Top(v), Middle(v)).Some?
    ensures OnPath(s, s, r, v, level) && Spent(s, r, v, level) == 0
  {
    hide Top, Middle;
  }

  lemma OnPathSame(s: Memory, s1: Memory, s2: Memory, r: nat, v: nat, level: nat)
    requires SameTrees(s, s1) && s.IsRoot(r) && OnPath(s1, s2, r, v, level)
    ensures OnPath(s, s2, r, v, level) && Cost(s1, r, v) == Cost(s, r, v)
  {
    hide Top, Middle, Present, Target;
  }

  lemma MidOnPath(s: Memory, r: nat, v: nat, p: nat, pool: set<nat>)
    requires Inv(s, pool) && s.IsRoot(r) && FreshPage(s, p) && s.MidOf(r, Top(v)) == None
    ensures OnPath(s, WithMid(s, r, Top(v), p), r, v, 1)
  {
    hide Top, Middle, Present, Target, Inv;
    MidAddsNothing(s, r, Top(v), p, pool);
  }

  lemma LowOnPath(s: Memory, r: nat, v: nat, p: nat, pool: set<nat>)
    requires Inv(s, pool) && s.IsRoot(r) && FreshPage(s, p)
    requires s.MidOf(r, Top(v)).Some? && s.LowOf(r, Top(v), Middle(v)) == None
    ensures s.MidOf(r, Top(v)).value in s.pages && OnPath(s, WithLow(s, r, Top(v), Middle(v), p), r, v, 0)
  {
    hide Top, Middle, Present, Target, Inv;
    LowAddsNothing(s, r, Top(v), Middle(v), p, pool);
  }

  // ---------- a range of pages ----------

  /** Tables that the n pages from `first` use. */
  predicate InMids(first: nat, n: nat, i: nat) {
    n > 0 && first / 262144 <= i <= (first + n - 1) / 262144
  }

  predicate InLows(first: nat, n: nat, i: nat, j: nat) {
    n > 0 && first / 512 <= 512 * i + j <= (first + n - 1) / 512
  }

  /** From s to s' exactly those tables were added. */
  ghost predicate TablesFor(s: Memory, s': Memory, r: nat, first: nat, n: nat) {
    && s.IsRoot(r) && s'.IsRoot(r)
    && (forall i :: 0 <= i < NPTE ==>
          (s'.MidOf(r, i) == None <==> s.MidOf(r, i) == None && !InMids(first, n, i)))
    && (forall i, j :: 0 <= i < NPTE && 0 <= j < NPTE ==>
          (s'.LowOf(r, i, j) == None <==> s.LowOf(r, i, j) == None && !InLows(first, n, i, j)))
  }

  /** What page v adds to the cost of a range that begins at `first`: a table is counted
      with the first page of the range that uses it. */
  ghost function CostAt(s: Memory, r: nat, first: nat, v: nat): nat
    requires s.IsRoot(r)
  {
    if v >= MAXVPN then 0
    else (if s.MidOf(r, Top(v)) == None && (v == first || v % 262144 == 0) then 1 else 0)
         + (if s.LowOf(r, Top(v), Middle(v)) == None && (v == first || v % 512 == 0) then 1 else 0)
  }

  ghost function MapCost(s: Memory, r: nat, first: nat, n: nat): nat
    requires s.IsRoot(r)
  {
    if n == 0 then 0 else MapCost(s, r, first, n - 1) + CostAt(s, r, first, first + n - 1)
  }

  lemma {:induction false} MapCostGrows(s: Memory, r: nat, first: nat, n: nat, m: nat)
    requires s.IsRoot(r) && n <= m
    ensures MapCost(s, r, first, n) <= MapCost(s, r, first, m) <= 2 * m
    decreases m
  {
    hide CostAt;
    if n < m {
      CostAtMost(s, r, first, first + m - 1);
      MapCostGrows(s, r, first, n, m - 1);
    } else if m > 0 {
      CostAtMost(s, r, first, first + m - 1);
      MapCostGrows(s, r, first, m - 1, m - 1);
    }
  }

  lemma CostAtMost(s: Memory, r: nat, first: nat, v: nat)
    requires s.IsRoot(r)
    ensures CostAt(s, r, first, v) <= 2
  {
  }

  // ---------- places ----------

  /** Top and middle index number the tables. */
  lemma Places(v: nat)
    requires v < MAXVPN
    ensures Top(v) == v / 262144 && 512 * Top(v) + Middle(v) == v / 512
  {
    NestedDiv(v);
    TopSmall(v / 262144, v);
    Remainder(v / 512);
  }

  lemma TopSmall(q: nat, v: nat)
    requires q == v / 262144 && v < MAXVPN
    ensures q < 256 && q % 512 == q
  {
  }

  lemma Remainder(w: nat)
    ensures 512 * (w / 512) + w % 512 == w
  {
  }

  lemma NextLow(v: nat)
    requires v > 0
    ensures v / 512 == (v - 1) / 512 + if v % 512 == 0 then 1 else 0
  {
  }

  lemma NextMid(v: nat)
    requires v > 0
    ensures v / 262144 == (v - 1) / 262144 + if v % 262144 == 0 then 1 else 0
  {
  }

  lemma Order(v: nat, w: nat)
    requires v <= w
    ensures v / 512 <= w / 512 && v / 262144 <= w / 262144
  {
  }

  /** The path of one page is a range of one. */
  lemma PathIsRange(s: Memory, s': Memory, r: nat, v: nat)
    requires OnPath(s, s', r, v, 0) && v < MAXVPN
    ensures TablesFor(s, s', r, v, 1) && CostAt(s, r, v, v) == Cost(s, r, v)
  {
    hide Top, Middle;
    Places(v);
    forall i: nat | i < NPTE ensures InMids(v, 1, i) <==> i == Top(v) {
    }
    forall i: nat, j: nat | i < NPTE && j < NPTE ensures InLows(v, 1, i, j) <==> i == Top(v) && j == Middle(v) {
      SamePlace(i, j, Top(v), Middle(v));
    }
  }

  lemma SamePlace(i: nat, j: nat, k: nat, h: nat)
    requires j < 512 && h < 512
    ensures 512 * i + j == 512 * k + h <==> i == k && j == h
  {
  }

  lemma TablesNone(s: Memory, s': Memory, r: nat, first: nat)
    requires SameTrees(s, s') && s.IsRoot(r)
    ensures TablesFor(s, s', r, first, 0)
  {
    hide Top, Middle, Present, Target;
  }

  /** The next page of a range costs what its path lacks then. */
  lemma NextCost(s: Memory, s1: Memory, r: nat, first: nat, n: nat)
    requires TablesFor(s, s1, r, first, n)
    ensures Cost(s1, r, first + n) == CostAt(s, r, first, first + n)
    ensures MapCost(s, r, first, n + 1) == MapCost(s, r, first, n) + Cost(s1, r, first + n)
  {
    hide Top, Middle;
    var v := first + n;
    if v < MAXVPN {
      Places(v);
      if n > 0 {
        NextLow(v);
        NextMid(v);
        Order(first, v);
      }
    }
  }

  lemma TablesMore(s: Memory, s1: Memory, s2: Memory, r: nat, first: nat, n: nat)
    requires TablesFor(s, s1, r, first, n) && TablesFor(s1, s2, r, first + n, 1)
    ensures TablesFor(s, s2, r, first, n + 1)
  {
    var v := first + n;
    if n > 0 {
      NextLow(v);
      NextMid(v);
      Order(first, v);
    }
  }

  lemma TablesThenSame(s: Memory, s1: Memory, s2: Memory, r: nat, first: nat, n: nat, x: nat)
    requires TablesFor(s, s1, r, first, n) && TablesFor(s1, s2, r, x, 0)
    ensures TablesFor(s, s2, r, first, n)
  {
  }

  lemma SameThenTables(s: Memory, s1: Memory, s2: Memory, r: nat, first: nat, n: nat, x: nat)
    requires TablesFor(s, s1, r, x, 0) && TablesFor(s1, s2, r, first, n)
    ensures TablesFor(s, s2, r, first, n) && MapCost(s1, r, first, n) == MapCost(s, r, first, n)
    ensures Cost(s1, r, first) == Cost(s, r, first)
  {
    SameMapCost(s, s1, r, first, n, x);
    hide Top, Middle;
  }

  lemma {:induction false} SameMapCost(s: Memory, s1: Memory, r: nat, first: nat, n: nat, x: nat)
    requires TablesFor(s, s1, r, x, 0)
    ensures MapCost(s1, r, first, n) == MapCost(s, r, first, n) && Cost(s1, r, first) == Cost(s, r, first)
    decreases n
  {
    hide Top, Middle;
    if n > 0 {
      SameMapCost(s, s1, r, first, n - 1, x);
    }
  }

  lemma EntryTables(s: Memory, r: nat, v: nat, e: Word, pool: set<nat>)
    requires Inv(s, pool) && s.IsRoot(r) && v < MAXVPN && s.LowOf(r, Top(v), Middle(v)).Some?
    ensures s.LowOf(r, Top(v), Middle(v)).value in s.pages && TablesFor(s, WithEntry(s, r, v, e), r, v, 0)
  {
    hide Top, Middle, Present, Target, Inv;
    EntryChanges(s, r, v, e, pool);
  }

  /** walk is stuck at a missing table. */
  lemma WalkShort(s: Memory, s1: Memory, r: nat, v: nat, level: nat)
    requires OnPath(s, s1, r, v, level) && 1 <= level <= 2 && v < MAXVPN
    requires level == 2 ==> s1.MidOf(r, Top(v)) == None
    requires level == 1 ==> s1.LowOf(r, Top(v), Middle(v)) == None
    ensures Spent(s, r, v, level) < Cost(s, r, v)
  {
    hide Top, Middle;
  }

  /** A mapped page lacks no table. */
  lemma MappedCost(s: Memory, r: nat, v: nat)
    requires s.IsRoot(r) && (v >= MAXVPN || s.Entry(r, v).Some?)
    ensures Cost(s, r, v) == 0
  {
    hide Top, Middle, Bottom;
  }
}
