/** Physical pages and Sv39 page tables as a value: every page of the pool is free or
    has one role, and a three-level tree of page-table pages denotes a flat map from
    virtual page numbers to entries (section 4.4 of the RISC-V Privileged
    Architecture specification). */
module PageTable {
  import opened Wrappers

  const NPTE := 512            // entries in a page-table page
  const MAXVPN := 0x400_0000   // MAXVA / PGSIZE

  type Word = w: int | 0 <= w < 0x1_0000_0000_0000_0000
  type Page = p: seq<Word> | |p| == NPTE witness seq(NPTE, _ => 0)

  function Filled(w: Word): Page {
    seq(NPTE, _ => w)
  }

  // ---------- entries ----------

  const PTE_V := 1
  const PTE_R := 2
  const PTE_W := 4
  const PTE_X := 8
  const PTE_U := 16

  predicate Present(e: Word) {
    e % 2 == 1
  }

  function Flags(e: Word): nat {
    e % 1024
  }

  function Target(e: Word): nat {
    e / 1024
  }

  /** PTE_R | PTE_W | PTE_X. */
  predicate Leafy(e: Word) {
    e / 2 % 8 != 0
  }

  const PHYSLIMIT := 0x1000_0000_0000 // 2^44 physical pages

  lemma Split(q: nat, f: nat)
    requires f < 1024
    ensures (1024 * q + f) / 1024 == q && (1024 * q + f) % 1024 == f
  {
  }

  lemma Half(q: nat, f: nat)
    ensures (1024 * q + f) / 2 == 8 * (64 * q) + f / 2 && (1024 * q + f) % 2 == f % 2
  {
  }

  lemma Eighth(q: nat, g: nat)
    ensures (8 * q + g) % 8 == g % 8
  {
  }

  /** The permission bits of an entry are those of its flags. */
  lemma EntryParts(e: Word)
    ensures e == 1024 * Target(e) + Flags(e) && Flags(e) < 1024
    ensures Present(e) <==> Flags(e) % 2 == 1
    ensures Leafy(e) <==> Flags(e) / 2 % 8 != 0
  {
    Half(e / 1024, e % 1024);
    Eighth(64 * (e / 1024), e % 1024 / 2);
  }

  /** PA2PTE(pa) | flags | PTE_V for page number p. */
  function Pte(p: nat, flags: nat): (e: Word)
    requires p < PHYSLIMIT && flags < 1024
    ensures Present(e) && Target(e) == p && Flags(e) == (if flags % 2 == 0 then flags + 1 else flags)
    ensures Leafy(e) <==> flags / 2 % 8 != 0
  {
    var f := if flags % 2 == 0 then flags + 1 else flags;
    Split(p, f);
    EntryParts(1024 * p + f);
    assert f / 2 == flags / 2;
    1024 * p + f
  }

  // ---------- indices ----------

  function Top(v: nat): (i: nat)
    ensures i < NPTE
  {
    v / 262144 % NPTE
  }

  function Middle(v: nat): (i: nat)
    ensures i < NPTE
  {
    v / 512 % NPTE
  }

  function Bottom(v: nat): (i: nat)
    ensures i < NPTE
  {
    v % NPTE
  }

  lemma NestedDiv(v: nat)
    ensures v / 512 / 512 == v / 262144
  {
    var q, f := v / 262144, v % 262144;
    assert v / 512 == 512 * q + f / 512;
  }

  /** A page number below MAXVA is its three indices. */
  lemma IndicesOf(v: nat)
    requires v < MAXVPN
    ensures v == 262144 * Top(v) + 512 * Middle(v) + Bottom(v)
  {
    var a := v / 512;
    NestedDiv(v);
    assert v == 512 * a + Bottom(v);
    assert a == 512 * (a / 512) + Middle(v);
  }

  lemma TopHalf(v: nat)
    requires v < MAXVPN
    ensures Top(v) < NPTE / 2
  {
  }

  /** Distinct page numbers below MAXVA use distinct entries. */
  lemma IndicesUnique(v: nat, w: nat)
    requires v < MAXVPN && w < MAXVPN
    requires Top(v) == Top(w) && Middle(v) == Middle(w) && Bottom(v) == Bottom(w)
    ensures v == w
  {
    hide Top, Middle, Bottom;
    IndicesOf(v);
    IndicesOf(w);
  }

  // ---------- state ----------

  /** What a page is used for: `Mid` and `Low` are the page-table pages below root r
      that entry i (and then j) leads to; `User` is memory mapped at v; `Held` has been
      handed out by kalloc and not put to use yet. */
  datatype Role =
    | Root
    | Mid(r: nat, i: nat)
    | Low(r: nat, i: nat, j: nat)
    | User(r: nat, v: nat)
    | Held

  datatype Memory = Memory(pages: map<nat, Page>, free: seq<nat>, role: map<nat, Role>) {

    predicate IsRoot(r: nat) {
      r in role && role[r] == Root && r in pages
    }

    /** The second-level table for entry i of root r. */
    function MidOf(r: nat, i: nat): Option<nat>
      requires IsRoot(r) && i < NPTE
    {
      if Present(pages[r][i]) then Some(Target(pages[r][i])) else None
    }

    /** The last-level table for entry j below entry i. */
    function LowOf(r: nat, i: nat, j: nat): Option<nat>
      requires IsRoot(r) && i < NPTE && j < NPTE
    {
      match MidOf(r, i)
      case None => None
      case Some(m) => if m in pages && Present(pages[m][j]) then Some(Target(pages[m][j])) else None
    }

    /** The entry of virtual page v: the flat map the tree stands for. */
    function Entry(r: nat, v: nat): Option<Word>
      requires IsRoot(r)
    {
      match LowOf(r, Top(v), Middle(v))
      case None => None
      case Some(l) => if l in pages && Present(pages[l][Bottom(v)]) then Some(pages[l][Bottom(v)]) else None
    }
  }

  // ---------- invariant ----------

  ghost predicate Partition(s: Memory, pool: set<nat>) {
    && (forall p :: p in pool ==> 0 < p < PHYSLIMIT && p in s.pages)
    && (forall k :: 0 <= k < |s.free| ==> s.free[k] in pool && s.free[k] !in s.role)
    && (forall j, k :: 0 <= j < k < |s.free| ==> s.free[j] != s.free[k])
    && (forall p :: p in s.role ==> p in pool)
    && (forall p :: p in pool ==> p in s.role || p in s.free)
  }

  /** A page's role is confirmed by the entry that leads to it. */
  ghost predicate RoleOk(s: Memory, p: nat)
    requires p in s.role
  {
    match s.role[p]
    case Root => true
    case Held => true
    case Mid(r, i) => s.IsRoot(r) && i < NPTE && s.MidOf(r, i) == Some(p)
    case Low(r, i, j) => s.IsRoot(r) && i < NPTE && j < NPTE && s.LowOf(r, i, j) == Some(p)
    case User(r, v) => s.IsRoot(r) && v < MAXVPN && s.Entry(r, v).Some? && Target(s.Entry(r, v).value) == p
  }

  /** A present entry of a root leads to the page with that role, and so on down. */
  ghost predicate TopOk(s: Memory, r: nat, i: nat)
    requires s.IsRoot(r) && i < NPTE
  {
    s.MidOf(r, i).Some? ==>
      var m := s.MidOf(r, i).value;
      Flags(s.pages[r][i]) == PTE_V && m in s.role && s.role[m] == Mid(r, i)
  }

  ghost predicate MidOk(s: Memory, r: nat, i: nat, j: nat)
    requires s.IsRoot(r) && i < NPTE && j < NPTE
  {
    s.LowOf(r, i, j).Some? ==>
      var m, l := s.MidOf(r, i).value, s.LowOf(r, i, j).value;
      Flags(s.pages[m][j]) == PTE_V && l in s.role && s.role[l] == Low(r, i, j)
  }

  /** A mapping has a permission, and is in the half of the root that MAXVA allows. */
  ghost predicate LowOk(s: Memory, r: nat, v: nat)
    requires s.IsRoot(r)
  {
    s.Entry(r, v).Some? ==> Leafy(s.Entry(r, v).value) && Top(v) < NPTE / 2
  }

  ghost predicate Inv(s: Memory, pool: set<nat>) {
    && Partition(s, pool)
    && (forall p :: p in s.role ==> RoleOk(s, p))
    && (forall r, i :: s.IsRoot(r) && 0 <= i < NPTE ==> TopOk(s, r, i))
    && (forall r, i, j :: s.IsRoot(r) && 0 <= i < NPTE && 0 <= j < NPTE ==> MidOk(s, r, i, j))
    && (forall r, v: nat :: s.IsRoot(r) ==> LowOk(s, r, v))
  }

  // ---------- changes that leave the tables alone ----------

  predicate IsTable(t: Role) {
    t.Root? || t.Mid? || t.Low?
  }

  /** Every page-table page is as before, and there are no new roots. */
  ghost predicate TablesKept(s: Memory, s': Memory) {
    && (forall p :: p in s.role && p in s.pages && IsTable(s.role[p]) ==>
          p in s'.role && s'.role[p] == s.role[p] && p in s'.pages && s'.pages[p] == s.pages[p])
    && (forall r :: s'.IsRoot(r) ==> s.IsRoot(r))
  }

  /** The trees of all roots denote the same. */
  ghost predicate SameTrees(s: Memory, s': Memory) {
    && (forall r :: s.IsRoot(r) <==> s'.IsRoot(r))
    && (forall r, i :: s.IsRoot(r) && 0 <= i < NPTE ==> s'.MidOf(r, i) == s.MidOf(r, i))
    && (forall r, i, j :: s.IsRoot(r) && 0 <= i < NPTE && 0 <= j < NPTE ==> s'.LowOf(r, i, j) == s.LowOf(r, i, j))
    && (forall r, v: nat :: s.IsRoot(r) ==> s'.Entry(r, v) == s.Entry(r, v))
  }

  lemma KeptTrees(s: Memory, s': Memory, pool: set<nat>)
    requires Inv(s, pool) && TablesKept(s, s')
    ensures SameTrees(s, s')
  {
    hide Present, Target, Flags, Leafy, Top, Middle, Bottom;
    forall r, i | s.IsRoot(r) && 0 <= i < NPTE ensures s'.MidOf(r, i) == s.MidOf(r, i) && TopOk(s, r, i) {
    }
    forall r, i, j | s.IsRoot(r) && 0 <= i < NPTE && 0 <= j < NPTE
      ensures s'.LowOf(r, i, j) == s.LowOf(r, i, j) && MidOk(s, r, i, j)
    {
      assert TopOk(s, r, i);
    }
    forall r, v: nat | s.IsRoot(r) ensures s'.Entry(r, v) == s.Entry(r, v) {
      assert MidOk(s, r, Top(v), Middle(v));
    }
  }

  /** Such a change keeps the invariant if the pool stays partitioned and the roles of
      user pages are still confirmed. */
  lemma KeptInv(s: Memory, s': Memory, pool: set<nat>)
    requires Inv(s, pool) && TablesKept(s, s') && Partition(s', pool)
    requires forall p :: p in s'.role ==> (p in s.role && s'.role[p] == s.role[p]) || !IsTable(s'.role[p])
    requires forall p :: p in s'.role && s'.role[p].User? ==> RoleOk(s', p)
    ensures Inv(s', pool) && SameTrees(s, s')
  {
    hide Present, Target, Flags, Leafy, Top, Middle, Bottom;
    KeptTrees(s, s', pool);
    forall p | p in s'.role ensures RoleOk(s', p) {
      if IsTable(s'.role[p]) {
        assert RoleOk(s, p);
      }
    }
    forall r, i | s'.IsRoot(r) && 0 <= i < NPTE ensures TopOk(s', r, i) {
      assert TopOk(s, r, i);
    }
    forall r, i, j | s'.IsRoot(r) && 0 <= i < NPTE && 0 <= j < NPTE ensures MidOk(s', r, i, j) {
      assert MidOk(s, r, i, j) && TopOk(s, r, i);
    }
    forall r, v: nat | s'.IsRoot(r) ensures LowOk(s', r, v) {
      assert LowOk(s, r, v);
    }
  }

  /** kalloc takes the first free page. */
  function Taken(s: Memory, fill: Page): Memory
    requires s.free != []
  {
    Memory(s.pages[s.free[0] := fill], s.free[1..], s.role[s.free[0] := Held])
  }

  lemma TakenKeeps(s: Memory, fill: Page, pool: set<nat>)
    requires Inv(s, pool) && s.free != []
    ensures Inv(Taken(s, fill), pool) && SameTrees(s, Taken(s, fill))
    ensures s.free[0] !in s.role && s.free[0] in pool
  {
    hide Present, Target, Flags, Leafy, Top, Middle, Bottom;
    var s', p := Taken(s, fill), s.free[0];
    assert Partition(s', pool);
    KeptTrees(s, s', pool);
    forall q | q in s'.role && s'.role[q].User? ensures RoleOk(s', q) {
      assert RoleOk(s, q);
    }
    KeptInv(s, s', pool);
  }

  /** kfree puts a page in front of the free list. */
  function Returned(s: Memory, p: nat, fill: Page): Memory {
    Memory(s.pages[p := fill], [p] + s.free, s.role - {p})
  }

  lemma ReturnedKeeps(s: Memory, p: nat, fill: Page, pool: set<nat>)
    requires Inv(s, pool) && p in s.role && !IsTable(s.role[p])
    ensures Inv(Returned(s, p, fill), pool) && SameTrees(s, Returned(s, p, fill))
  {
    hide Present, Target, Flags, Leafy, Top, Middle, Bottom;
    var s' := Returned(s, p, fill);
    ReturnedPartition(s, p, fill, pool);
    KeptTrees(s, s', pool);
    forall q | q in s'.role && s'.role[q].User? ensures RoleOk(s', q) {
      assert RoleOk(s, q);
    }
    KeptInv(s, s', pool);
  }

  lemma ReturnedPartition(s: Memory, p: nat, fill: Page, pool: set<nat>)
    requires Partition(s, pool) && p in s.role
    ensures Partition(Returned(s, p, fill), pool)
  {
    var s' := Returned(s, p, fill);
    forall q | q in pool ensures q in s'.role || q in s'.free {
      if q == p {
        assert s'.free[0] == p;
      } else if q in s.free {
        var k :| 0 <= k < |s.free| && s.free[k] == q;
        assert s'.free[k + 1] == q;
      }
    }
  }

  // ---------- growing a tree ----------

  lemma Absent()
    ensures !Present(0)
  {
  }

  /** The flat maps of all roots are as before. */
  ghost predicate MapsKept(s: Memory, s': Memory) {
    && (forall r :: s.IsRoot(r) <==> s'.IsRoot(r))
    && (forall r, v: nat :: s.IsRoot(r) ==> s'.Entry(r, v) == s.Entry(r, v))
  }

  /** walk: a fresh zeroed page becomes the table behind entry i of the root. */
  function WithMid(s: Memory, r: nat, i: nat, p: nat): Memory
    requires s.IsRoot(r) && i < NPTE && p < PHYSLIMIT
  {
    Memory(s.pages[p := Filled(0)][r := s.pages[r][i := Pte(p, 0)]], s.free, s.role[p := Mid(r, i)])
  }

  ghost predicate FreshPage(s: Memory, p: nat) {
    p in s.role && s.role[p] == Held && 0 < p < PHYSLIMIT && p in s.pages
  }

  lemma MidAddsNothing(s: Memory, r: nat, i: nat, p: nat, pool: set<nat>)
    requires Inv(s, pool) && s.IsRoot(r) && i < NPTE && FreshPage(s, p) && s.MidOf(r, i) == None
    ensures
      var s' := WithMid(s, r, i, p);
      && (forall q :: s'.IsRoot(q) <==> s.IsRoot(q))
      && (forall q, k :: s.IsRoot(q) && 0 <= k < NPTE ==>
            s'.MidOf(q, k) == if q == r && k == i then Some(p) else s.MidOf(q, k))
      && (forall q, k, j :: s.IsRoot(q) && 0 <= k < NPTE && 0 <= j < NPTE ==> s'.LowOf(q, k, j) == s.LowOf(q, k, j))
      && (forall q, v: nat :: s.IsRoot(q) ==> s'.Entry(q, v) == s.Entry(q, v))
  {
    hide Present, Target, Flags, Leafy, Top, Middle, Bottom;
    Absent();
    var s' := WithMid(s, r, i, p);
    forall q, k, j | s.IsRoot(q) && 0 <= k < NPTE && 0 <= j < NPTE ensures s'.LowOf(q, k, j) == s.LowOf(q, k, j) {
      assert TopOk(s, q, k);
    }
    forall q, v: nat | s.IsRoot(q) ensures s'.Entry(q, v) == s.Entry(q, v) {
      assert MidOk(s, q, Top(v), Middle(v));
    }
  }

  lemma WithMidKeeps(s: Memory, r: nat, i: nat, p: nat, pool: set<nat>)
    requires Inv(s, pool) && s.IsRoot(r) && i < NPTE && FreshPage(s, p) && s.MidOf(r, i) == None
    ensures Inv(WithMid(s, r, i, p), pool) && MapsKept(s, WithMid(s, r, i, p))
    ensures WithMid(s, r, i, p).MidOf(r, i) == Some(p)
  {
    hide Present, Target, Flags, Leafy, Top, Middle, Bottom;
    var s' := WithMid(s, r, i, p);
    MidAddsNothing(s, r, i, p, pool);
    assert Partition(s', pool);
    forall q | q in s'.role ensures RoleOk(s', q) {
      assert RoleOk(s, q);
    }
    forall q, k | s'.IsRoot(q) && 0 <= k < NPTE ensures TopOk(s', q, k) {
      assert TopOk(s, q, k);
    }
    forall q, k, j | s'.IsRoot(q) && 0 <= k < NPTE && 0 <= j < NPTE ensures MidOk(s', q, k, j) {
      assert MidOk(s, q, k, j) && TopOk(s, q, k);
    }
    forall q, v: nat | s'.IsRoot(q) ensures LowOk(s', q, v) {
      assert LowOk(s, q, v);
    }
  }

  /** walk, one level down. */
  function WithLow(s: Memory, r: nat, i: nat, j: nat, p: nat): Memory
    requires s.IsRoot(r) && i < NPTE && j < NPTE && p < PHYSLIMIT
    requires s.MidOf(r, i).Some? && s.MidOf(r, i).value in s.pages
  {
    var m := s.MidOf(r, i).value;
    Memory(s.pages[p := Filled(0)][m := s.pages[m][j := Pte(p, 0)]], s.free, s.role[p := Low(r, i, j)])
  }

  lemma LowAddsNothing(s: Memory, r: nat, i: nat, j: nat, p: nat, pool: set<nat>)
    requires Inv(s, pool) && s.IsRoot(r) && i < NPTE && j < NPTE && FreshPage(s, p)
    requires s.MidOf(r, i).Some? && s.LowOf(r, i, j) == None
    ensures s.MidOf(r, i).value in s.pages && s.MidOf(r, i).value in s.role && s.role[s.MidOf(r, i).value] == Mid(r, i)
    ensures
      var s' := WithLow(s, r, i, j, p);
      && (forall q :: s'.IsRoot(q) <==> s.IsRoot(q))
      && (forall q, k :: s.IsRoot(q) && 0 <= k < NPTE ==> s'.MidOf(q, k) == s.MidOf(q, k))
      && (forall q, k, h :: s.IsRoot(q) && 0 <= k < NPTE && 0 <= h < NPTE ==>
            s'.LowOf(q, k, h) == if q == r && k == i && h == j then Some(p) else s.LowOf(q, k, h))
      && (forall q, v: nat :: s.IsRoot(q) ==> s'.Entry(q, v) == s.Entry(q, v))
  {
    hide Present, Target, Flags, Leafy, Top, Middle, Bottom;
    Absent();
    assert TopOk(s, r, i);
    var s' := WithLow(s, r, i, j, p);
    forall q, k | s.IsRoot(q) && 0 <= k < NPTE ensures s'.MidOf(q, k) == s.MidOf(q, k) {
      assert TopOk(s, q, k);
    }
    forall q, k, h | s.IsRoot(q) && 0 <= k < NPTE && 0 <= h < NPTE
      ensures s'.LowOf(q, k, h) == if q == r && k == i && h == j then Some(p) else s.LowOf(q, k, h)
    {
      assert TopOk(s, q, k) && MidOk(s, q, k, h);
    }
    forall q, v: nat | s.IsRoot(q) ensures s'.Entry(q, v) == s.Entry(q, v) {
      assert MidOk(s, q, Top(v), Middle(v));
    }
  }

  lemma WithLowKeeps(s: Memory, r: nat, i: nat, j: nat, p: nat, pool: set<nat>)
    requires Inv(s, pool) && s.IsRoot(r) && i < NPTE && j < NPTE && FreshPage(s, p)
    requires s.MidOf(r, i).Some? && s.LowOf(r, i, j) == None
    ensures s.MidOf(r, i).value in s.pages
    ensures Inv(WithLow(s, r, i, j, p), pool) && MapsKept(s, WithLow(s, r, i, j, p))
    ensures WithLow(s, r, i, j, p).LowOf(r, i, j) == Some(p)
  {
    hide Present, Target, Flags, Leafy, Top, Middle, Bottom;
    LowAddsNothing(s, r, i, j, p, pool);
    var s' := WithLow(s, r, i, j, p);
    assert Partition(s', pool);
    forall q | q in s'.role ensures RoleOk(s', q) {
      assert RoleOk(s, q);
    }
    forall q, k | s'.IsRoot(q) && 0 <= k < NPTE ensures TopOk(s', q, k) {
      assert TopOk(s, q, k);
    }
    forall q, k, h | s'.IsRoot(q) && 0 <= k < NPTE && 0 <= h < NPTE ensures MidOk(s', q, k, h) {
      assert MidOk(s, q, k, h) && TopOk(s, q, k);
    }
    forall q, v: nat | s'.IsRoot(q) ensures LowOk(s', q, v) {
      assert LowOk(s, q, v);
    }
  }

  // ---------- changing one entry ----------

  /** Storing word e in the entry of page v. */
  function WithEntry(s: Memory, r: nat, v: nat, e: Word): Memory
    requires s.IsRoot(r) && s.LowOf(r, Top(v), Middle(v)).Some? && s.LowOf(r, Top(v), Middle(v)).value in s.pages
  {
    var l := s.LowOf(r, Top(v), Middle(v)).value;
    Memory(s.pages[l := s.pages[l][Bottom(v) := e]], s.free, s.role)
  }

  /** The flat map of r changes at v only, those of other roots not at all. */
  ghost predicate ChangedAt(s: Memory, s': Memory, r: nat, v: nat, e: Option<Word>) {
    && (forall q :: s.IsRoot(q) <==> s'.IsRoot(q)) && s.IsRoot(r)
    && (forall q, w: nat :: s.IsRoot(q) && w < MAXVPN ==>
          s'.Entry(q, w) == if q == r && w == v then e else s.Entry(q, w))
  }

  lemma EntryChanges(s: Memory, r: nat, v: nat, e: Word, pool: set<nat>)
    requires Inv(s, pool) && s.IsRoot(r) && v < MAXVPN && s.LowOf(r, Top(v), Middle(v)).Some?
    ensures s.LowOf(r, Top(v), Middle(v)).value in s.pages
    ensures
      var s' := WithEntry(s, r, v, e);
      && (forall q :: s'.IsRoot(q) <==> s.IsRoot(q))
      && (forall q, k :: s.IsRoot(q) && 0 <= k < NPTE ==> s'.MidOf(q, k) == s.MidOf(q, k))
      && (forall q, k, j :: s.IsRoot(q) && 0 <= k < NPTE && 0 <= j < NPTE ==> s'.LowOf(q, k, j) == s.LowOf(q, k, j))
      && (forall q, w: nat :: s.IsRoot(q) ==>
            s'.Entry(q, w) == if q == r && Top(w) == Top(v) && Middle(w) == Middle(v) && Bottom(w) == Bottom(v)
                              then (if Present(e) then Some(e) else None) else s.Entry(q, w))
  {
    hide Present, Target, Flags, Leafy, Top, Middle, Bottom;
    assert MidOk(s, r, Top(v), Middle(v));
    var s' := WithEntry(s, r, v, e);
    forall q, k | s.IsRoot(q) && 0 <= k < NPTE ensures s'.MidOf(q, k) == s.MidOf(q, k) {
      assert TopOk(s, q, k);
    }
    forall q, k, j | s.IsRoot(q) && 0 <= k < NPTE && 0 <= j < NPTE ensures s'.LowOf(q, k, j) == s.LowOf(q, k, j) {
      assert TopOk(s, q, k) && MidOk(s, q, k, j);
    }
    forall q, w: nat | s.IsRoot(q)
      ensures s'.Entry(q, w) == if q == r && Top(w) == Top(v) && Middle(w) == Middle(v) && Bottom(w) == Bottom(v)
                                then (if Present(e) then Some(e) else None) else s.Entry(q, w)
    {
      assert MidOk(s, q, Top(w), Middle(w));
    }
  }

  lemma WithEntryKeeps(s: Memory, r: nat, v: nat, e: Word, pool: set<nat>)
    requires Inv(s, pool) && s.IsRoot(r) && v < MAXVPN && s.LowOf(r, Top(v), Middle(v)).Some?
    requires Present(e) ==> Leafy(e)
    requires forall p :: p in s.role ==> s.role[p] != User(r, v)
    ensures s.LowOf(r, Top(v), Middle(v)).value in s.pages
    ensures
      var s' := WithEntry(s, r, v, e);
      Inv(s', pool) && ChangedAt(s, s', r, v, if Present(e) then Some(e) else None)
      && s'.LowOf(r, Top(v), Middle(v)).Some?
  {
    hide Present, Target, Flags, Leafy, Top, Middle, Bottom;
    EntryChanges(s, r, v, e, pool);
    TopHalf(v);
    assert MidOk(s, r, Top(v), Middle(v));
    var s' := WithEntry(s, r, v, e);
    forall w: nat | w < MAXVPN && Top(w) == Top(v) && Middle(w) == Middle(v) && Bottom(w) == Bottom(v) ensures w == v {
      IndicesUnique(v, w);
    }
    assert Partition(s', pool);
    forall q | q in s'.role ensures RoleOk(s', q) {
      assert RoleOk(s, q);
    }
    forall q, k | s'.IsRoot(q) && 0 <= k < NPTE ensures TopOk(s', q, k) {
      assert TopOk(s, q, k);
    }
    forall q, k, j | s'.IsRoot(q) && 0 <= k < NPTE && 0 <= j < NPTE ensures MidOk(s', q, k, j) {
      assert MidOk(s, q, k, j) && TopOk(s, q, k);
    }
    forall q, w: nat | s'.IsRoot(q) ensures LowOk(s', q, w) {
      assert LowOk(s, q, w);
    }
  }

  /** A page that kalloc handed out becomes the user page mapped at v. */
  function Claimed(s: Memory, p: nat, r: nat, v: nat): Memory {
    Memory(s.pages, s.free, s.role[p := User(r, v)])
  }

  lemma ClaimedKeeps(s: Memory, p: nat, r: nat, v: nat, pool: set<nat>)
    requires Inv(s, pool) && FreshPage(s, p) && s.IsRoot(r) && v < MAXVPN
    requires s.Entry(r, v).Some? && Target(s.Entry(r, v).value) == p
    ensures Inv(Claimed(s, p, r, v), pool) && SameTrees(s, Claimed(s, p, r, v))
  {
    hide Present, Target, Flags, Leafy, Top, Middle, Bottom;
    var s' := Claimed(s, p, r, v);
    assert Partition(s', pool);
    KeptTrees(s, s', pool);
    forall q | q in s'.role && s'.role[q].User? ensures RoleOk(s', q) {
      assert RoleOk(s, q);
    }
    KeptInv(s, s', pool);
  }

  /** The user page at v is the only page with that role. */
  lemma UserIs(s: Memory, p: nat, r: nat, v: nat, pool: set<nat>)
    requires Inv(s, pool) && p in s.role && s.role[p] == User(r, v)
    ensures s.IsRoot(r) && v < MAXVPN && s.Entry(r, v).Some? && Target(s.Entry(r, v).value) == p
    ensures s.LowOf(r, Top(v), Middle(v)).Some?
    ensures forall q :: q in s.role && s.role[q] == User(r, v) ==> q == p
  {
    hide Present, Target, Flags, Leafy, Top, Middle, Bottom;
    assert RoleOk(s, p);
    forall q | q in s.role && s.role[q] == User(r, v) ensures q == p {
      assert RoleOk(s, q);
    }
  }

  // ---------- taking a tree down ----------

  /** freewalk on a last-level table: the table is freed, its parent's entry cleared. */
  function WithoutLow(s: Memory, r: nat, i: nat, j: nat, fill: Page): Memory
    requires s.IsRoot(r) && i < NPTE && j < NPTE && s.LowOf(r, i, j).Some?
  {
    var m, l := s.MidOf(r, i).value, s.LowOf(r, i, j).value;
    Memory(s.pages[l := fill][m := s.pages[m][j := 0]], [l] + s.free, s.role - {l})
  }

  ghost predicate NoEntriesBelow(s: Memory, r: nat, i: nat, j: nat)
    requires s.IsRoot(r)
  {
    forall v: nat :: Top(v) == i && Middle(v) == j ==> s.Entry(r, v) == None
  }

  lemma LowRemovesNothing(s: Memory, r: nat, i: nat, j: nat, fill: Page, pool: set<nat>)
    requires Inv(s, pool) && s.IsRoot(r) && i < NPTE && j < NPTE && s.LowOf(r, i, j).Some? && NoEntriesBelow(s, r, i, j)
    ensures s.LowOf(r, i, j).value in s.role && s.role[s.LowOf(r, i, j).value] == Low(r, i, j)
    ensures s.MidOf(r, i).value in s.role && s.role[s.MidOf(r, i).value] == Mid(r, i)
    ensures
      var s' := WithoutLow(s, r, i, j, fill);
      && (forall q :: s'.IsRoot(q) <==> s.IsRoot(q))
      && (forall q, k :: s.IsRoot(q) && 0 <= k < NPTE ==> s'.MidOf(q, k) == s.MidOf(q, k))
      && (forall q, k, h :: s.IsRoot(q) && 0 <= k < NPTE && 0 <= h < NPTE ==>
            s'.LowOf(q, k, h) == if q == r && k == i && h == j then None else s.LowOf(q, k, h))
      && (forall q, v: nat :: s.IsRoot(q) ==> s'.Entry(q, v) == s.Entry(q, v))
  {
    hide Present, Target, Flags, Leafy, Top, Middle, Bottom;
    Absent();
    assert TopOk(s, r, i) && MidOk(s, r, i, j);
    var s' := WithoutLow(s, r, i, j, fill);
    forall q, k | s.IsRoot(q) && 0 <= k < NPTE ensures s'.MidOf(q, k) == s.MidOf(q, k) {
      assert TopOk(s, q, k);
    }
    forall q, k, h | s.IsRoot(q) && 0 <= k < NPTE && 0 <= h < NPTE
      ensures s'.LowOf(q, k, h) == if q == r && k == i && h == j then None else s.LowOf(q, k, h)
    {
      assert TopOk(s, q, k) && MidOk(s, q, k, h);
    }
    forall q, v: nat | s.IsRoot(q) ensures s'.Entry(q, v) == s.Entry(q, v) {
      assert MidOk(s, q, Top(v), Middle(v));
    }
  }

  lemma WithoutLowKeeps(s: Memory, r: nat, i: nat, j: nat, fill: Page, pool: set<nat>)
    requires Inv(s, pool) && s.IsRoot(r) && i < NPTE && j < NPTE && s.LowOf(r, i, j).Some? && NoEntriesBelow(s, r, i, j)
    ensures Inv(WithoutLow(s, r, i, j, fill), pool) && MapsKept(s, WithoutLow(s, r, i, j, fill))
    ensures WithoutLow(s, r, i, j, fill).LowOf(r, i, j) == None
    ensures WithoutLow(s, r, i, j, fill).MidOf(r, i) == s.MidOf(r, i)
  {
    hide Present, Target, Flags, Leafy, Top, Middle, Bottom;
    LowRemovesNothing(s, r, i, j, fill, pool);
    var s' := WithoutLow(s, r, i, j, fill);
    var l := s.LowOf(r, i, j).value;
    ReturnedPartition(s, l, fill, pool);
    assert Partition(s', pool);
    forall q | q in s'.role ensures RoleOk(s', q) {
      assert RoleOk(s, q);
    }
    forall q, k | s'.IsRoot(q) && 0 <= k < NPTE ensures TopOk(s', q, k) {
      assert TopOk(s, q, k);
    }
    forall q, k, h | s'.IsRoot(q) && 0 <= k < NPTE && 0 <= h < NPTE ensures MidOk(s', q, k, h) {
      assert MidOk(s, q, k, h) && TopOk(s, q, k);
    }
    forall q, v: nat | s'.IsRoot(q) ensures LowOk(s', q, v) {
      assert LowOk(s, q, v);
    }
  }

  /** freewalk on a second-level table without children. */
  function WithoutMid(s: Memory, r: nat, i: nat, fill: Page): Memory
    requires s.IsRoot(r) && i < NPTE && s.MidOf(r, i).Some?
  {
    var m := s.MidOf(r, i).value;
    Memory(s.pages[m := fill][r := s.pages[r][i := 0]], [m] + s.free, s.role - {m})
  }

  lemma MidRemovesNothing(s: Memory, r: nat, i: nat, fill: Page, pool: set<nat>)
    requires Inv(s, pool) && s.IsRoot(r) && i < NPTE && s.MidOf(r, i).Some?
    requires forall j :: 0 <= j < NPTE ==> s.LowOf(r, i, j) == None
    ensures s.MidOf(r, i).value in s.role && s.role[s.MidOf(r, i).value] == Mid(r, i)
    ensures
      var s' := WithoutMid(s, r, i, fill);
      && (forall q :: s'.IsRoot(q) <==> s.IsRoot(q))
      && (forall q, k :: s.IsRoot(q) && 0 <= k < NPTE ==>
            s'.MidOf(q, k) == if q == r && k == i then None else s.MidOf(q, k))
      && (forall q, k, h :: s.IsRoot(q) && 0 <= k < NPTE && 0 <= h < NPTE ==> s'.LowOf(q, k, h) == s.LowOf(q, k, h))
      && (forall q, v: nat :: s.IsRoot(q) ==> s'.Entry(q, v) == s.Entry(q, v))
  {
    hide Present, Target, Flags, Leafy, Top, Middle, Bottom;
    Absent();
    assert TopOk(s, r, i);
    var s' := WithoutMid(s, r, i, fill);
    forall q, k, h | s.IsRoot(q) && 0 <= k < NPTE && 0 <= h < NPTE ensures s'.LowOf(q, k, h) == s.LowOf(q, k, h) {
      assert TopOk(s, q, k);
    }
    forall q, v: nat | s.IsRoot(q) ensures s'.Entry(q, v) == s.Entry(q, v) {
      assert MidOk(s, q, Top(v), Middle(v));
    }
  }

  lemma WithoutMidKeeps(s: Memory, r: nat, i: nat, fill: Page, pool: set<nat>)
    requires Inv(s, pool) && s.IsRoot(r) && i < NPTE && s.MidOf(r, i).Some?
    requires forall j :: 0 <= j < NPTE ==> s.LowOf(r, i, j) == None
    ensures Inv(WithoutMid(s, r, i, fill), pool) && MapsKept(s, WithoutMid(s, r, i, fill))
    ensures WithoutMid(s, r, i, fill).MidOf(r, i) == None
  {
    hide Present, Target, Flags, Leafy, Top, Middle, Bottom;
    MidRemovesNothing(s, r, i, fill, pool);
    var s' := WithoutMid(s, r, i, fill);
    var m := s.MidOf(r, i).value;
    ReturnedPartition(s, m, fill, pool);
    assert Partition(s', pool);
    forall q | q in s'.role ensures RoleOk(s', q) {
      assert RoleOk(s, q);
    }
    forall q, k | s'.IsRoot(q) && 0 <= k < NPTE ensures TopOk(s', q, k) {
      assert TopOk(s, q, k);
    }
    forall q, k, h | s'.IsRoot(q) && 0 <= k < NPTE && 0 <= h < NPTE ensures MidOk(s', q, k, h) {
      assert MidOk(s, q, k, h) && TopOk(s, q, k);
    }
    forall q, v: nat | s'.IsRoot(q) ensures LowOk(s', q, v) {
      assert LowOk(s, q, v);
    }
  }

  /** Freeing a root without children. */
  lemma WithoutRootKeeps(s: Memory, r: nat, fill: Page, pool: set<nat>)
    requires Inv(s, pool) && s.IsRoot(r) && forall i :: 0 <= i < NPTE ==> s.MidOf(r, i) == None
    ensures Inv(Returned(s, r, fill), pool)
    ensures forall q :: Returned(s, r, fill).IsRoot(q) <==> q != r && s.IsRoot(q)
    ensures forall q, v: nat :: q != r && s.IsRoot(q) ==> Returned(s, r, fill).Entry(q, v) == s.Entry(q, v)
  {
    hide Present, Target, Flags, Leafy, Top, Middle, Bottom;
    var s' := Returned(s, r, fill);
    ReturnedPartition(s, r, fill, pool);
    forall q, k | s'.IsRoot(q) && 0 <= k < NPTE ensures s'.MidOf(q, k) == s.MidOf(q, k) && TopOk(s', q, k) {
      assert TopOk(s, q, k);
    }
    forall q, k, h | s'.IsRoot(q) && 0 <= k < NPTE && 0 <= h < NPTE
      ensures s'.LowOf(q, k, h) == s.LowOf(q, k, h) && MidOk(s', q, k, h)
    {
      assert MidOk(s, q, k, h) && TopOk(s, q, k);
    }
    forall q, v: nat | s'.IsRoot(q) ensures s'.Entry(q, v) == s.Entry(q, v) && LowOk(s', q, v) {
      assert LowOk(s, q, v) && MidOk(s, q, Top(v), Middle(v));
    }
    forall q | q in s'.role ensures RoleOk(s', q) {
      assert RoleOk(s, q);
    }
  }
}
