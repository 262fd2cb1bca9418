/** The code of the page allocator and of the page-table operations. Pages are known
    by number; an address is a page number times PGSIZE. */
module Vm {
  import opened Wrappers
  import opened PageTable
  import opened TableCost

  const PGSIZE := 4096
  const JUNK_FREE: Word := 0x0101_0101_0101_0101
  const JUNK_ALLOC: Word := 0x0505_0505_0505_0505

  /** No page loses its role, and memory that is not a page table keeps its contents. */
  ghost predicate RolesKept(s: Memory, s': Memory) {
    forall p :: p in s.role ==>
      && p in s'.role && s'.role[p] == s.role[p]
      && (p in s.pages && !IsTable(s.role[p]) ==> p in s'.pages && s'.pages[p] == s.pages[p])
  }

  /** Besides that, pages were only taken for page tables. */
  ghost predicate TablesAdded(s: Memory, s': Memory) {
    && RolesKept(s, s')
    && forall p :: p in s'.role ==> p in s.role || IsTable(s'.role[p])
  }

  /** Result of walk: the panic, no table (or no memory for one), or the table. */
  datatype Found = Panicked | Missing | Table(page: nat)

  ghost function NextFree(free: seq<nat>, k: nat): nat {
    if k < |free| then free[k] * PGSIZE else 0
  }

  /** Each free page starts with the address of the next. */
  ghost predicate Linked(s: Memory, freelist: nat) {
    && freelist == NextFree(s.free, 0)
    && forall k :: 0 <= k < |s.free| ==> s.free[k] in s.pages && s.pages[s.free[k]][0] == NextFree(s.free, k + 1)
  }

  /** Taking the first page off the list: its link is the new head. */
  lemma TakenLinked(s: Memory, freelist: nat, fill: Page, pool: set<nat>)
    requires Inv(s, pool) && Linked(s, freelist) && s.free != []
    ensures freelist == s.free[0] * PGSIZE && s.free[0] > 0 && s.free[0] in s.pages
    ensures Linked(Taken(s, fill), s.pages[s.free[0]][0])
    ensures FreshPage(Taken(s, fill), s.free[0]) && RolesKept(s, Taken(s, fill))
  {
    hide RoleOk, TopOk, MidOk, LowOk;
    var s' := Taken(s, fill);
    assert forall k :: 0 <= k < |s'.free| ==> s'.free[k] == s.free[k + 1];
  }

  /** What kfree leaves in a page: junk, with the link in front. */
  function FreeFill(link: nat): (fill: Page) {
    if link < 0x1_0000_0000_0000_0000 then Filled(JUNK_FREE)[0 := link] else Filled(JUNK_FREE)
  }

  lemma UsedNotFree(s: Memory, p: nat, pool: set<nat>)
    requires Inv(s, pool) && p in s.role
    ensures p in pool && p !in s.free
  {
    hide RoleOk, TopOk, MidOk, LowOk;
  }

  /** Putting a page in front of the list. */
  lemma ReturnedLinked(s: Memory, freelist: nat, p: nat, fill: Page, pool: set<nat>)
    requires Inv(s, pool) && Linked(s, freelist) && p in s.role && fill[0] == freelist
    ensures Linked(Returned(s, p, fill), p * PGSIZE) && p in pool
  {
    hide Inv;
    UsedNotFree(s, p, pool);
    var s' := Returned(s, p, fill);
    forall k | 0 <= k < |s'.free|
      ensures s'.free[k] in s'.pages && s'.pages[s'.free[k]][0] == NextFree(s'.free, k + 1)
    {
      if k > 0 {
        assert s'.free[k] == s.free[k - 1] != p;
        assert NextFree(s'.free, k + 1) == NextFree(s.free, k);
      }
    }
  }

  lemma ListHead(s: Memory, freelist: nat, pool: set<nat>)
    requires Inv(s, pool) && Linked(s, freelist)
    ensures freelist == 0 <==> s.free == []
    ensures freelist < 0x1_0000_0000_0000_0000
  {
    hide RoleOk, TopOk, MidOk, LowOk;
  }

  datatype MapResult = Mapped | NoMemory | Panic

  /** Pages touched by `size` bytes at `va`. */
  function PageCount(va: nat, size: nat): nat {
    if size == 0 then 0 else (va + size - 1) / PGSIZE - va / PGSIZE + 1
  }

  /** The pages counted are exactly those that hold one of the bytes. */
  lemma PagesTouched(va: nat, size: nat, v: nat)
    ensures va / PGSIZE <= v < va / PGSIZE + PageCount(va, size) <==>
              exists a: nat :: va <= a < va + size && a / 4096 == v
  {
    if va / PGSIZE <= v < va / PGSIZE + PageCount(va, size) {
      var a := if v == va / PGSIZE then va else v * PGSIZE;
      assert va <= a < va + size && a / 4096 == v;
    }
  }

  /** Mapping page w again, or past MAXVA, is a panic. */
  ghost predicate Clash(s: Memory, r: nat, w: nat)
    requires s.IsRoot(r)
  {
    w >= MAXVPN || s.Entry(r, w).Some?
  }

  /** The flat map of r gains exactly n pages from `first`, mapped in order from p. */
  ghost predicate MappedRange(s: Memory, s': Memory, r: nat, first: nat, n: nat, p: nat, perm: nat) {
    && perm < 1024 && p + n <= PHYSLIMIT
    && (forall q :: s.IsRoot(q) <==> s'.IsRoot(q)) && s.IsRoot(r)
    && (forall q, w: nat :: s.IsRoot(q) && w < MAXVPN ==>
          s'.Entry(q, w) == if q == r && first <= w < first + n then Some(Pte(p + (w - first), perm))
              else s.Entry(q, w))
  }

  lemma MappedNone(s: Memory, r: nat, first: nat, p: nat, perm: nat)
    requires s.IsRoot(r) && perm < 1024 && p <= PHYSLIMIT
    ensures MappedRange(s, s, r, first, 0, p, perm)
  {
  }

  lemma MappedKept(s: Memory, s1: Memory, s2: Memory, r: nat, first: nat, n: nat, p: nat, perm: nat)
    requires MappedRange(s, s1, r, first, n, p, perm) && MapsKept(s1, s2) && TablesAdded(s, s1) && TablesAdded(s1, s2)
    ensures MappedRange(s, s2, r, first, n, p, perm) && TablesAdded(s, s2) && s2.IsRoot(r)
    ensures forall w: nat :: w < MAXVPN && !(first <= w < first + n) ==> s2.Entry(r, w) == s.Entry(r, w)
  {
  }

  lemma MappedStep(s: Memory, s1: Memory, s2: Memory, r: nat, first: nat, n: nat, p: nat, perm: nat)
    requires MappedRange(s, s1, r, first, n, p, perm) && p + n < PHYSLIMIT
    requires ChangedAt(s1, s2, r, first + n, Some(Pte(p + n, perm))) && TablesAdded(s, s1) && RolesKept(s1, s2)
    requires s2.role == s1.role
    ensures MappedRange(s, s2, r, first, n + 1, p, perm) && TablesAdded(s, s2) && s2.IsRoot(r)
  {
    hide Present, Target, Leafy, Top, Middle, Bottom;
  }

  lemma MappedThen(s: Memory, s1: Memory, s2: Memory, r: nat, first: nat, n: nat, p: nat, perm: nat)
    requires MappedRange(s, s1, r, first, n, p, perm) && MappedRange(s1, s2, r, first + n, 1, p + n, perm)
    requires TablesAdded(s, s1) && TablesAdded(s1, s2)
    ensures MappedRange(s, s2, r, first, n + 1, p, perm) && TablesAdded(s, s2)
  {
    hide Present, Target, Leafy, Top, Middle, Bottom, Pte;
  }

  /** Pages mapped so far do not change whether the next one clashes. */
  lemma ClashNow(s: Memory, s1: Memory, r: nat, first: nat, n: nat, p: nat, perm: nat)
    requires MappedRange(s, s1, r, first, n, p, perm)
    ensures s.IsRoot(r) && s1.IsRoot(r) && (Clash(s1, r, first + n) <==> Clash(s, r, first + n))
  {
    hide Present, Target, Leafy, Top, Middle, Bottom, Pte;
  }

  lemma MissingEntry(s: Memory, r: nat, v: nat)
    requires s.IsRoot(r) && s.LowOf(r, Top(v), Middle(v)) == None
    ensures s.Entry(r, v) == None
  {
  }

  lemma NoUserAt(s: Memory, r: nat, v: nat, pool: set<nat>)
    requires Inv(s, pool) && s.IsRoot(r) && s.Entry(r, v) == None
    ensures forall p :: p in s.role ==> s.role[p] != User(r, v)
  {
    forall p | p in s.role ensures s.role[p] != User(r, v) {
      assert RoleOk(s, p);
    }
  }

  lemma EntryStored(s: Memory, r: nat, v: nat, pt: nat, e: Word, freelist: nat, pool: set<nat>)
    requires Inv(s, pool) && s.IsRoot(r) && v < MAXVPN && s.LowOf(r, Top(v), Middle(v)) == Some(pt) && pt in s.pages
    requires Present(e) ==> Leafy(e)
    requires forall p :: p in s.role ==> s.role[p] != User(r, v)
    requires Linked(s, freelist)
    ensures
      var s' := WithEntry(s, r, v, e);
      && Inv(s', pool) && ChangedAt(s, s', r, v, if Present(e) then Some(e) else None)
      && RolesKept(s, s') && Linked(s', freelist)
  {
    hide Inv, Linked, Present, Target, Flags, Leafy, Top, Middle, Bottom;
    WithEntryKeeps(s, r, v, e, pool);
    LowRole(s, r, v, pool);
    LinkedKept(s, WithEntry(s, r, v, e), freelist, pool);
  }

  lemma LowRole(s: Memory, r: nat, v: nat, pool: set<nat>)
    requires Inv(s, pool) && s.IsRoot(r) && s.LowOf(r, Top(v), Middle(v)).Some?
    ensures
      var l := s.LowOf(r, Top(v), Middle(v)).value;
      l in s.role && s.role[l] == Low(r, Top(v), Middle(v))
  {
    assert MidOk(s, r, Top(v), Middle(v));
  }

  lemma RoleInPool(s: Memory, p: nat, pool: set<nat>)
    requires Inv(s, pool) && p in s.role
    ensures p in pool && p in s.pages && 0 < p < PHYSLIMIT
  {
    hide RoleOk, TopOk, MidOk, LowOk;
  }

  // ---------- unmapping ----------

  /** The flat map of r loses exactly n pages from `first`. */
  ghost predicate UnmappedRange(s: Memory, s': Memory, r: nat, first: nat, n: nat) {
    && (forall q :: s.IsRoot(q) <==> s'.IsRoot(q)) && s.IsRoot(r)
    && (forall q, w: nat :: s.IsRoot(q) && w < MAXVPN ==>
          s'.Entry(q, w) == if q == r && first <= w < first + n then None else s.Entry(q, w))
  }

  ghost predicate NotMapped(s: Memory, r: nat, w: nat)
    requires s.IsRoot(r)
  {
    w >= MAXVPN || s.Entry(r, w) == None
  }

  predicate UserIn(t: Role, r: nat, first: nat, n: nat) {
    t.User? && t.r == r && first <= t.v < first + n
  }

  /** Exactly the user pages of that range have lost their role; the rest of memory
      that is not a page table is as before. */
  ghost predicate UsersGone(s: Memory, s': Memory, r: nat, first: nat, n: nat) {
    && (forall p :: p in s'.role <==> p in s.role && !UserIn(s.role[p], r, first, n))
    && (forall p :: p in s'.role ==>
          s'.role[p] == s.role[p]
          && (p in s.pages && !IsTable(s.role[p]) ==> p in s'.pages && s'.pages[p] == s.pages[p]))
  }

  ghost predicate DroppedUser(s: Memory, s': Memory, r: nat, v: nat) {
    && (forall p :: p in s'.role <==> p in s.role && s.role[p] != User(r, v))
    && (forall p :: p in s'.role ==>
          s'.role[p] == s.role[p] && (p in s.pages ==> p in s'.pages && s'.pages[p] == s.pages[p]))
  }

  /** Every page mapped in the range belongs to this table there. */
  ghost predicate AllUser(s: Memory, r: nat, first: nat, n: nat)
    requires s.IsRoot(r)
  {
    forall w: nat :: first <= w < first + n && w < MAXVPN && s.Entry(r, w).Some? ==>
      Target(s.Entry(r, w).value) in s.role && s.role[Target(s.Entry(r, w).value)] == User(r, w)
  }

  ghost predicate AllThere(s: Memory, r: nat, lo: nat, hi: nat)
    requires s.IsRoot(r)
  {
    forall w: nat :: lo <= w < hi ==> !NotMapped(s, r, w)
  }

  lemma UnmappedNone(s: Memory, r: nat, first: nat)
    requires s.IsRoot(r)
    ensures UnmappedRange(s, s, r, first, 0) && UsersGone(s, s, r, first, 0)
  {
  }

  lemma StillMapped(s: Memory, s1: Memory, r: nat, first: nat, n: nat)
    requires UnmappedRange(s, s1, r, first, n)
    ensures s1.IsRoot(r) && s.IsRoot(r)
    ensures first + n < MAXVPN ==> s1.Entry(r, first + n) == s.Entry(r, first + n)
  {
  }

  /** A mapping always has a permission, so it is never taken for a pointer to a table. */
  lemma LeafHere(s: Memory, r: nat, v: nat, pool: set<nat>)
    requires Inv(s, pool) && s.IsRoot(r)
    ensures s.Entry(r, v).Some? ==> Flags(s.Entry(r, v).value) != PTE_V
  {
    assert LowOk(s, r, v);
    if s.Entry(r, v).Some? && Flags(s.Entry(r, v).value) == PTE_V {
      PointerNotLeafy(s.Entry(r, v).value);
    }
  }

  lemma PointerNotLeafy(e: Word)
    ensures Flags(e) == PTE_V ==> !Leafy(e)
  {
    EntryParts(e);
  }

  lemma UserHere(s: Memory, s1: Memory, r: nat, first: nat, npages: nat, n: nat)
    requires UnmappedRange(s, s1, r, first, n) && UsersGone(s, s1, r, first, n) && s.IsRoot(r)
    requires AllUser(s, r, first, npages)
    requires n < npages && first + n < MAXVPN && s1.Entry(r, first + n).Some?
    ensures
      var p := Target(s1.Entry(r, first + n).value);
      p in s1.role && s1.role[p] == User(r, first + n)
  {
    hide Target, Present, Top, Middle, Bottom;
  }

  lemma NoUserHere(s: Memory, s1: Memory, r: nat, first: nat, npages: nat, n: nat)
    requires UsersGone(s, s1, r, first, n) && n < npages
    requires forall p :: p in s.role ==> !UserIn(s.role[p], r, first, npages)
    ensures SameTrees(s1, s1) && DroppedUser(s1, s1, r, first + n)
  {
  }

  lemma UnmappedStep(s: Memory, s1: Memory, s2: Memory, s3: Memory, r: nat, first: nat, n: nat)
    requires UnmappedRange(s, s1, r, first, n) && UsersGone(s, s1, r, first, n)
    requires SameTrees(s1, s2) && DroppedUser(s1, s2, r, first + n)
    requires ChangedAt(s2, s3, r, first + n, None) && RolesKept(s2, s3) && s3.role == s2.role
    ensures UnmappedRange(s, s3, r, first, n + 1) && UsersGone(s, s3, r, first, n + 1) && s3.IsRoot(r)
  {
    hide Target, Present, Top, Middle, Bottom;
  }

  // ---------- adding memory ----------

  /** New contents and permissions, page by page. */
  type Filling = seq<(Page, nat)>

  /** Page w of r is a page of its own with these contents and permissions. */
  ghost predicate HasPage(s: Memory, r: nat, w: nat, content: Page, perm: nat) {
    && s.IsRoot(r) && s.Entry(r, w).Some? && perm < 1024
    && var p := Target(s.Entry(r, w).value);
    p < PHYSLIMIT && s.Entry(r, w).value == Pte(p, perm)
    && p in s.role && s.role[p] == User(r, w) && p in s.pages && s.pages[p] == content
  }

  ghost predicate SameElsewhere(s: Memory, s': Memory, r: nat, first: nat, n: nat) {
    && (forall q :: s.IsRoot(q) <==> s'.IsRoot(q))
    && (forall q, w: nat :: s.IsRoot(q) && w < MAXVPN && !(q == r && first <= w < first + n) ==>
          s'.Entry(q, w) == s.Entry(q, w))
  }

  ghost predicate NewPage(s: Memory, s': Memory, r: nat, w: nat, page: (Page, nat)) {
    s.IsRoot(r) && w < MAXVPN && s.Entry(r, w) == None && HasPage(s', r, w, page.0, page.1)
  }

  /** If `list` from `first` has page w, it is the new page there. */
  ghost predicate NewAt(s: Memory, s': Memory, r: nat, first: nat, list: Filling, w: nat) {
    first <= w < first + |list| ==> NewPage(s, s', r, w, list[w - first])
  }

  ghost predicate UsersAdded(s: Memory, s': Memory, r: nat, first: nat, n: nat) {
    && RolesKept(s, s')
    && (forall p :: p in s'.role ==> p in s.role || IsTable(s'.role[p]) || UserIn(s'.role[p], r, first, n))
  }

  /** From s to s' root r got the pages `list` from `first`, and nothing else changed but
      new page-table pages. */
  ghost predicate PagesAdded(s: Memory, s': Memory, r: nat, first: nat, list: Filling) {
    && s.IsRoot(r) && SameElsewhere(s, s', r, first, |list|) && UsersAdded(s, s', r, first, |list|)
    && (forall w: nat :: NewAt(s, s', r, first, list, w))
  }

  lemma NonePagesAdded(s: Memory, r: nat, first: nat)
    requires s.IsRoot(r)
    ensures PagesAdded(s, s, r, first, [])
  {
  }

  lemma ElsewhereThen(s: Memory, s1: Memory, s2: Memory, r: nat, first: nat, n: nat)
    requires SameElsewhere(s, s1, r, first, n) && SameElsewhere(s1, s2, r, first + n, 1)
    ensures SameElsewhere(s, s2, r, first, n + 1)
  {
  }

  lemma UsersThen(s: Memory, s1: Memory, s2: Memory, r: nat, first: nat, n: nat)
    requires UsersAdded(s, s1, r, first, n) && UsersAdded(s1, s2, r, first + n, 1)
    ensures UsersAdded(s, s2, r, first, n + 1)
  {
  }

  /** A page added earlier stays, a page added later is still new. */
  lemma NewPageThen(s: Memory, s1: Memory, s2: Memory, r: nat, first: nat, n: nat, w: nat, page: (Page, nat))
    requires SameElsewhere(s, s1, r, first, n) && SameElsewhere(s1, s2, r, first + n, 1)
    requires UsersAdded(s1, s2, r, first + n, 1) && s.IsRoot(r)
    requires first <= w <= first + n
    requires if w < first + n then NewPage(s, s1, r, w, page) else NewPage(s1, s2, r, w, page)
    ensures NewPage(s, s2, r, w, page)
  {
    hide Target, Present, Top, Middle, Bottom, Pte;
  }

  lemma OnePageMore(s: Memory, s1: Memory, s2: Memory, r: nat, first: nat, list: Filling, content: Page, perm: nat)
    requires PagesAdded(s, s1, r, first, list) && PagesAdded(s1, s2, r, first + |list|, [(content, perm)])
    ensures PagesAdded(s, s2, r, first, list + [(content, perm)])
  {
    hide NewPage, SameElsewhere, UsersAdded;
    var list' := list + [(content, perm)];
    ElsewhereThen(s, s1, s2, r, first, |list|);
    UsersThen(s, s1, s2, r, first, |list|);
    forall w: nat ensures NewAt(s, s2, r, first, list', w) {
      if first <= w < first + |list'| {
        assert NewAt(s, s1, r, first, list, w) && NewAt(s1, s2, r, first + |list|, [(content, perm)], w);
        NewPageThen(s, s1, s2, r, first, |list|, w, list'[w - first]);
      }
    }
  }

  /** A failed attempt: mappings, roles and contents are as before, except that
      page-table pages may have been added. */
  ghost predicate Restored(s: Memory, s': Memory) {
    MapsBelowKept(s, s') && TablesAdded(s, s')
  }

  ghost predicate MapsBelowKept(s: Memory, s': Memory) {
    && (forall q :: s.IsRoot(q) <==> s'.IsRoot(q))
    && forall q, w: nat :: s.IsRoot(q) && w < MAXVPN ==> s'.Entry(q, w) == s.Entry(q, w)
  }

  /** Adding pages and taking them away again restores everything. */
  lemma AddedThenGone(s: Memory, s1: Memory, s2: Memory, r: nat, first: nat, list: Filling)
    requires PagesAdded(s, s1, r, first, list)
    requires UnmappedRange(s1, s2, r, first, |list|) && UsersGone(s1, s2, r, first, |list|)
    requires forall p :: p in s.role ==> !UserIn(s.role[p], r, first, |list|)
    ensures Restored(s, s2)
  {
    hide Target, Present, Top, Middle, Bottom, Pte;
    forall q, w: nat | s.IsRoot(q) && w < MAXVPN ensures s2.Entry(q, w) == s.Entry(q, w) {
      if q == r && first <= w < first + |list| {
        assert NewAt(s, s1, r, first, list, w);
      }
    }
  }

  lemma AddedAreUsers(s: Memory, s1: Memory, r: nat, first: nat, list: Filling)
    requires PagesAdded(s, s1, r, first, list)
    ensures s1.IsRoot(r) && AllUser(s1, r, first, |list|)
  {
    hide Target, Present, Top, Middle, Bottom, Pte;
    forall w: nat | first <= w < first + |list| && w < MAXVPN && s1.Entry(r, w).Some?
      ensures Target(s1.Entry(r, w).value) in s1.role && s1.role[Target(s1.Entry(r, w).value)] == User(r, w)
    {
      assert NewAt(s, s1, r, first, list, w);
    }
  }

  lemma RestoredSelf(s: Memory)
    ensures Restored(s, s)
  {
  }

  /** Page v alone, in bytes. */
  lemma OnePage(v: nat)
    ensures v * PGSIZE / PGSIZE == v && PageCount(v * PGSIZE, PGSIZE) == 1
  {
  }

  /** kalloc, then filling the page. */
  lemma HeldWritten(s: Memory, s1: Memory, p: nat, content: Page, freelist: nat, pool: set<nat>)
    requires Inv(s1, pool) && SameTrees(s, s1) && RolesKept(s, s1) && FreshPage(s1, p) && p !in s.role
    requires Linked(s1, freelist)
    requires s1.role == s.role[p := Held]
    ensures
      var s2 := Memory(s1.pages[p := content], s1.free, s1.role);
      && Inv(s2, pool) && SameTrees(s, s2) && RolesKept(s, s2) && FreshPage(s2, p) && Linked(s2, freelist)
      && s2.pages[p] == content && p < PHYSLIMIT
  {
    hide Present, Target, Flags, Leafy, Top, Middle, Bottom, Linked;
    var s2 := Memory(s1.pages[p := content], s1.free, s1.role);
    assert Partition(s2, pool);
    KeptTrees(s1, s2, pool);
    forall q | q in s2.role && s2.role[q].User? ensures RoleOk(s2, q) {
      assert RoleOk(s1, q);
    }
    KeptInv(s1, s2, pool);
    LinkedKept(s1, s2, freelist, pool);
  }

  lemma ClashBefore(s: Memory, s': Memory, r: nat, v: nat)
    requires s.IsRoot(r) && SameTrees(s, s') && Clash(s', r, v)
    ensures Clash(s, r, v)
  {
  }

  /** mappages worked: the page becomes the user page at v. */
  lemma ClaimAdded(s: Memory, s2: Memory, s3: Memory, p: nat, r: nat, v: nat, content: Page, perm: nat,
                   freelist: nat, pool: set<nat>)
    requires s.IsRoot(r) && SameTrees(s, s2) && RolesKept(s, s2) && FreshPage(s2, p) && p !in s.role
    requires s2.pages[p] == content
    requires s2.role == s.role[p := Held]
    requires Inv(s3, pool) && MappedRange(s2, s3, r, v, 1, p, perm) && TablesAdded(s2, s3) && Linked(s3, freelist)
    requires s2.IsRoot(r) && !Clash(s2, r, v) && perm < 1024
    ensures Inv(Claimed(s3, p, r, v), pool) && Linked(Claimed(s3, p, r, v), freelist)
    ensures PagesAdded(s, Claimed(s3, p, r, v), r, v, [(content, perm)])
    ensures TablesFor(s3, Claimed(s3, p, r, v), r, v, 0)
  {
    hide Present, Target, Flags, Leafy, Top, Middle, Bottom, Linked, Inv, TablesFor;
    ClaimedKeeps(s3, p, r, v, pool);
    TablesNone(s3, Claimed(s3, p, r, v), r, v);
    LinkedKept(s3, Claimed(s3, p, r, v), freelist, pool);
    var s4 := Claimed(s3, p, r, v);
    assert s4.Entry(r, v) == Some(Pte(p, perm));
    assert NewPage(s, s4, r, v, (content, perm));
  }

  /** mappages did not: the page goes back to the free list. */
  lemma GivenBack(s: Memory, s2: Memory, s3: Memory, p: nat, r: nat, v: nat, perm: nat, freelist: nat, pool: set<nat>)
    requires s.IsRoot(r) && SameTrees(s, s2) && RolesKept(s, s2) && FreshPage(s2, p) && p !in s.role
    requires s2.role == s.role[p := Held]
    requires Inv(s3, pool) && MappedRange(s2, s3, r, v, 0, p, perm) && TablesAdded(s2, s3) && Linked(s3, freelist)
    ensures p in s3.role && p in pool && Inv(Returned(s3, p, FreeFill(freelist)), pool)
    ensures Restored(s, Returned(s3, p, FreeFill(freelist)))
  {
    hide Present, Target, Flags, Leafy, Top, Middle, Bottom, Linked, Inv;
    ReturnedKeeps(s3, p, FreeFill(freelist), pool);
    RoleInPool(s3, p, pool);
  }

  /** Pages that hold `size` bytes from 0: PGROUNDUP(size) / PGSIZE. */
  function Pages(size: nat): nat {
    (size + PGSIZE - 1) / PGSIZE
  }

  ghost function Zeroed(n: nat): (list: Filling)
    ensures |list| == n
  {
    seq(n, _ => (Filled(0), USERFLAGS))
  }

  /** Pages from `first` that can be mapped before one clashes, n at most. */
  ghost function UntilClash(s: Memory, r: nat, first: nat, n: nat): (k: nat)
    requires s.IsRoot(r)
    ensures k <= n && (k < n ==> Clash(s, r, first + k))
    ensures forall w :: first <= w < first + k ==> !Clash(s, r, w)
    decreases n
  {
    if n == 0 || Clash(s, r, first) then 0 else 1 + UntilClash(s, r, first + 1, n - 1)
  }

  /** Free pages that adding n pages from `first` takes, with their tables, up to and with
      the first one that clashes. */
  ghost function Demand(s: Memory, r: nat, first: nat, n: nat): nat
    requires s.IsRoot(r)
  {
    var k := UntilClash(s, r, first, n);
    var tries := if k < n then k + 1 else n;
    tries + MapCost(s, r, first, tries)
  }

  /** Three pages for each are always enough. */
  lemma DemandAtMost(s: Memory, r: nat, first: nat, n: nat)
    requires s.IsRoot(r)
    ensures Demand(s, r, first, n) <= 3 * n
  {
    hide MapCost;
    var k := UntilClash(s, r, first, n);
    var tries := if k < n then k + 1 else n;
    MapCostGrows(s, r, first, tries, tries);
  }

  /** k pages are in, none of which clashed; what the next one shows. */
  lemma DemandAt(s: Memory, s1: Memory, r: nat, first: nat, n: nat, k: nat)
    requires s.IsRoot(r) && k <= n && TablesFor(s, s1, r, first, k)
    requires forall w :: first <= w < first + k ==> !Clash(s, r, w)
    ensures k < n ==> k + MapCost(s, r, first, k) + 1 + Cost(s1, r, first + k) <= Demand(s, r, first, n)
    ensures k < n && Clash(s, r, first + k) ==>
              && UntilClash(s, r, first, n) == k
              && Demand(s, r, first, n) == k + MapCost(s, r, first, k) + 1 + Cost(s1, r, first + k)
    ensures k == n ==> UntilClash(s, r, first, n) == n && Demand(s, r, first, n) == n + MapCost(s, r, first, n)
  {
    hide MapCost, TablesFor, Cost, Present, Target, Top, Middle, Bottom;
    var u := UntilClash(s, r, first, n);
    var tries := if u < n then u + 1 else n;
    assert u >= k;
    NextCost(s, s1, r, first, k);
    if k < n {
      MapCostGrows(s, r, first, k + 1, tries);
    }
  }

  /** The same for tables alone. */
  lemma MapCostAt(s: Memory, s1: Memory, r: nat, first: nat, n: nat, k: nat)
    requires s.IsRoot(r) && k <= n && TablesFor(s, s1, r, first, k)
    requires forall w :: first <= w < first + k ==> !Clash(s, r, w)
    ensures UntilClash(s, r, first, n) >= k
    ensures MapCost(s, r, first, k) <= MapCost(s, r, first, UntilClash(s, r, first, n))
    ensures MapCost(s, r, first, k + 1) == MapCost(s, r, first, k) + Cost(s1, r, first + k)
    ensures k < n && !Clash(s, r, first + k) ==>
              MapCost(s, r, first, k) + Cost(s1, r, first + k) <= MapCost(s, r, first, UntilClash(s, r, first, n))
    ensures k < n && Clash(s, r, first + k) ==> UntilClash(s, r, first, n) == k
    ensures k == n ==> UntilClash(s, r, first, n) == n
  {
    hide MapCost, TablesFor, Cost, Clash;
    var u := UntilClash(s, r, first, n);
    assert u >= k;
    NextCost(s, s1, r, first, k);
    MapCostGrows(s, r, first, k, u);
    if k < n && !Clash(s, r, first + k) {
      MapCostGrows(s, r, first, k + 1, u);
    }
  }

  const USERFLAGS := PTE_W + PTE_X + PTE_R + PTE_U

  /** No page of the range is mapped yet, so none has that role. */
  lemma NoUsersIn(s: Memory, s1: Memory, r: nat, first: nat, list: Filling, pool: set<nat>)
    requires Inv(s, pool) && PagesAdded(s, s1, r, first, list)
    ensures forall p :: p in s.role ==> !UserIn(s.role[p], r, first, |list|)
  {
    hide Target, Present, Top, Middle, Bottom, Pte, Inv;
    forall p | p in s.role ensures !UserIn(s.role[p], r, first, |list|) {
      if UserIn(s.role[p], r, first, |list|) {
        var w := s.role[p].v;
        assert NewAt(s, s1, r, first, list, w);
        NoUserAt(s, r, w, pool);
      }
    }
  }

  lemma AllMapped(s: Memory, s1: Memory, r: nat, first: nat, list: Filling, n: nat)
    requires PagesAdded(s, s1, r, first, list) && n < |list|
    ensures s1.IsRoot(r) && first + n < MAXVPN && s1.Entry(r, first + n).Some?
  {
    hide Target, Present, Top, Middle, Bottom, Pte;
    var w := first + n;
    assert NewAt(s, s1, r, first, list, w);
  }

  lemma RestoredThen(s: Memory, s1: Memory, s2: Memory, r: nat, first: nat, list: Filling)
    requires PagesAdded(s, s1, r, first, list) && Restored(s1, s2)
    ensures PagesAdded(s, s2, r, first, list)
  {
    hide Target, Present, Top, Middle, Bottom, Pte;
    forall w: nat ensures NewAt(s, s2, r, first, list, w) {
      assert NewAt(s, s1, r, first, list, w);
    }
  }

  lemma ClashThen(s: Memory, s1: Memory, r: nat, first: nat, list: Filling)
    requires PagesAdded(s, s1, r, first, list) && s1.IsRoot(r) && s.IsRoot(r) && Clash(s1, r, first + |list|)
    ensures Clash(s, r, first + |list|)
  {
    hide Target, Present, Top, Middle, Bottom, Pte;
  }

  lemma ZeroedNone()
    ensures Zeroed(0) == []
  {
  }

  lemma RootStays(s: Memory, s1: Memory, r: nat, first: nat, list: Filling)
    requires PagesAdded(s, s1, r, first, list)
    ensures s1.IsRoot(r)
  {
  }

  lemma UserFlags(n: nat)
    ensures USERFLAGS == 30 && USERFLAGS / 2 % 8 != 0 && Zeroed(n) + [(Filled(0), USERFLAGS)] == Zeroed(n + 1)
  {
  }

  /** Rounding up and whole pages. */
  lemma RoundUp(size: nat, a: nat)
    ensures a * PGSIZE < size <==> a < Pages(size)
    ensures Pages(a * PGSIZE) == a
  {
  }

  // ---------- copying an address space ----------

  /** Contents and permissions of page w of root r. */
  ghost function PageOf(s: Memory, r: nat, w: nat): (Page, nat)
    requires s.IsRoot(r)
  {
    match s.Entry(r, w)
    case None => (Filled(0), 0)
    case Some(e) => (if Target(e) in s.pages then s.pages[Target(e)] else Filled(0), Flags(e))
  }

  ghost function CopyOf(s: Memory, r: nat, n: nat): (list: Filling)
    requires s.IsRoot(r)
    ensures |list| == n && forall k :: 0 <= k < n ==> list[k] == PageOf(s, r, k)
    decreases n
  {
    if n == 0 then [] else CopyOf(s, r, n - 1) + [PageOf(s, r, n - 1)]
  }

  /** Pages that can be copied before the parent lacks one or the child has one. */
  ghost function UntilGap(s: Memory, parent: nat, r: nat, w: nat, n: nat): (k: nat)
    requires s.IsRoot(parent) && s.IsRoot(r) && w <= n
    ensures w <= k <= n && (k < n ==> NotMapped(s, parent, k) || Clash(s, r, k))
    ensures forall x :: w <= x < k ==> !NotMapped(s, parent, x) && !Clash(s, r, x)
    decreases n - w
  {
    if w == n || NotMapped(s, parent, w) || Clash(s, r, w) then w else UntilGap(s, parent, r, w + 1, n)
  }

  /** Free pages that the copy takes, up to and with a page that the child has already. */
  ghost function CopyDemand(s: Memory, parent: nat, r: nat, n: nat): nat
    requires s.IsRoot(parent) && s.IsRoot(r)
  {
    var k := UntilGap(s, parent, r, 0, n);
    var tries := if k < n && !NotMapped(s, parent, k) then k + 1 else k;
    tries + MapCost(s, r, 0, tries)
  }

  lemma CopyDemandAt(s: Memory, s1: Memory, parent: nat, r: nat, n: nat, k: nat)
    requires s.IsRoot(parent) && s.IsRoot(r) && k <= n && TablesFor(s, s1, r, 0, k)
    requires forall x: nat :: x < k ==> !NotMapped(s, parent, x) && !Clash(s, r, x)
    ensures k < n && NotMapped(s, parent, k) ==>
              && UntilGap(s, parent, r, 0, n) == k
              && CopyDemand(s, parent, r, n) == k + MapCost(s, r, 0, k)
    ensures k < n && !NotMapped(s, parent, k) ==>
              k + MapCost(s, r, 0, k) + 1 + Cost(s1, r, k) <= CopyDemand(s, parent, r, n)
    ensures k < n && !NotMapped(s, parent, k) && Clash(s, r, k) ==>
              && UntilGap(s, parent, r, 0, n) == k
              && CopyDemand(s, parent, r, n) == k + MapCost(s, r, 0, k) + 1 + Cost(s1, r, k)
    ensures k == n ==> UntilGap(s, parent, r, 0, n) == n && CopyDemand(s, parent, r, n) == n + MapCost(s, r, 0, n)
  {
    hide MapCost, TablesFor, Cost, Present, Target, Top, Middle, Bottom, Clash, NotMapped;
    var u := UntilGap(s, parent, r, 0, n);
    var tries := if u < n && !NotMapped(s, parent, u) then u + 1 else u;
    assert u >= k;
    NextCost(s, s1, r, 0, k);
    if k < n && !NotMapped(s, parent, k) {
      MapCostGrows(s, r, 0, k + 1, tries);
    }
  }

  /** The next page of the parent is still what it was before the copying began. */
  lemma ParentPage(s: Memory, s1: Memory, parent: nat, r: nat, n: nat, total: nat, pool: set<nat>)
    requires Inv(s, pool) && s.IsRoot(parent) && AllUser(s, parent, 0, total) && n < total
    requires PagesAdded(s, s1, r, 0, CopyOf(s, parent, n))
    ensures s1.IsRoot(parent) && (n < MAXVPN ==> s1.Entry(parent, n) == s.Entry(parent, n))
    ensures n < MAXVPN && s.Entry(parent, n).Some? ==>
              var e := s.Entry(parent, n).value;
              && Target(e) in s1.pages && PageOf(s, parent, n) == (s1.pages[Target(e)], Flags(e))
              && Flags(e) < 1024 && Flags(e) / 2 % 8 != 0
  {
    hide Target, Present, Top, Middle, Bottom, Pte, Inv, Flags;
    if n < MAXVPN && s.Entry(parent, n).Some? {
      var e := s.Entry(parent, n).value;
      RoleInPool(s, Target(e), pool);
      LeafAt(s, parent, n, pool);
      LeafyFlags(e);
    }
  }

  lemma LeafAt(s: Memory, r: nat, v: nat, pool: set<nat>)
    requires Inv(s, pool) && s.IsRoot(r) && s.Entry(r, v).Some?
    ensures Leafy(s.Entry(r, v).value)
  {
    assert LowOk(s, r, v);
  }

  lemma LeafyFlags(e: Word)
    requires Leafy(e)
    ensures Flags(e) < 1024 && Flags(e) / 2 % 8 != 0
  {
    EntryParts(e);
  }

  /** After a successful uvmcopy the child reads what the parent read, with the same
      permissions, from pages that nobody used before. */
  lemma CopyIsFaithful(s: Memory, s': Memory, parent: nat, r: nat, n: nat, w: nat, pool: set<nat>)
    requires Inv(s, pool) && s.IsRoot(parent) && PagesAdded(s, s', r, 0, CopyOf(s, parent, n)) && w < n
    requires s.Entry(parent, w).Some?
    ensures s'.IsRoot(r) && s'.Entry(r, w).Some? && PageOf(s', r, w) == PageOf(s, parent, w)
    ensures Target(s'.Entry(r, w).value) !in s.role
  {
    hide Inv, Target, Present, Top, Middle, Bottom;
    assert NewAt(s, s', r, 0, CopyOf(s, parent, n), w);
    NoUserAt(s, r, w, pool);
    EntryPresent(s, parent, w);
    EntryParts(s.Entry(parent, w).value);
  }

  lemma EntryPresent(s: Memory, r: nat, v: nat)
    requires s.IsRoot(r) && s.Entry(r, v).Some?
    ensures Present(s.Entry(r, v).value)
  {
  }

  /** A clash when adding to the child is one with what it had before. */
  lemma ClashInCopy(s: Memory, s1: Memory, r: nat, n: nat, list: Filling)
    requires PagesAdded(s, s1, r, 0, list) && |list| == n && s1.IsRoot(r) && s.IsRoot(r) && Clash(s1, r, n)
    ensures Clash(s, r, n)
  {
    ClashThen(s, s1, r, 0, list);
  }

  // ---------- taking an address space down ----------

  predicate TableOf(t: Role, r: nat) {
    (t.Mid? && t.r == r) || (t.Low? && t.r == r)
  }

  /** Only page-table pages below root r have lost their role, and nothing else changed. */
  ghost predicate TreeShrunk(s: Memory, s': Memory, r: nat) {
    && (forall p :: p in s.role && !TableOf(s.role[p], r) ==> p in s'.role)
    && (forall p :: p in s'.role ==>
          p in s.role && s'.role[p] == s.role[p]
          && (p in s.pages && !IsTable(s.role[p]) ==> p in s'.pages && s'.pages[p] == s.pages[p]))
  }

  /** The table walked to at `level`: the root, or below it by entry i, and then j. */
  ghost predicate TableAt(s: Memory, r: nat, i: nat, j: nat, level: nat, pt: nat) {
    && s.IsRoot(r) && level <= 2
    && (level == 2 ==> pt == r)
    && (level == 1 ==> i < NPTE && s.MidOf(r, i) == Some(pt))
    && (level == 0 ==> i < NPTE && j < NPTE && s.LowOf(r, i, j) == Some(pt))
  }

  /** Virtual page v is looked up by way of that table. */
  predicate Below(v: nat, i: nat, j: nat, level: nat) {
    (level < 2 ==> Top(v) == i) && (level < 1 ==> Middle(v) == j)
  }

  ghost predicate EmptyBelow(s: Memory, r: nat, i: nat, j: nat, level: nat)
    requires s.IsRoot(r)
  {
    forall v: nat :: Below(v, i, j, level) ==> s.Entry(r, v) == None
  }

  /** The next table for entry k of that table. */
  ghost function Child(s: Memory, r: nat, i: nat, level: nat, k: nat): Option<nat>
    requires s.IsRoot(r) && i < NPTE && k < NPTE
  {
    if level == 2 then s.MidOf(r, k) else if level == 1 then s.LowOf(r, i, k) else None
  }

  /** What freewalk knows after k entries of a table: no child is left for them, and
      the tables on the way there are the same. */
  ghost predicate Cleared(s0: Memory, s: Memory, r: nat, i: nat, j: nat, level: nat, k: nat) {
    && s0.IsRoot(r) && s.IsRoot(r) && i < NPTE && MapsKept(s0, s) && TreeShrunk(s0, s, r)
    && (level == 0 ==> s == s0)
    && (level == 1 ==> forall h :: 0 <= h < NPTE ==> s.MidOf(r, h) == s0.MidOf(r, h))
    && (forall h :: 0 <= h < k && h < NPTE ==> Child(s, r, i, level, h) == None)
  }

  lemma ClearedNone(s: Memory, r: nat, i: nat, j: nat, level: nat)
    requires s.IsRoot(r) && i < NPTE
    ensures Cleared(s, s, r, i, j, level, 0)
  {
  }

  /** An entry of a table is a pointer to the next table, or a leaf, according to its
      level. */
  lemma EntryKind(s: Memory, r: nat, i: nat, j: nat, level: nat, pt: nat, k: nat, pool: set<nat>)
    requires Inv(s, pool) && TableAt(s, r, i, j, level, pt) && i < NPTE && j < NPTE && k < NPTE
    ensures pt in s.pages && pt in s.role
    ensures
      var e := s.pages[pt][k];
      && (Present(e) && !Leafy(e) ==> level > 0 && Child(s, r, i, level, k) == Some(Target(e)))
      && (Present(e) && Leafy(e) ==> level == 0 && s.Entry(r, i * 262144 + j * 512 + k) == Some(e))
      && (!Present(e) ==> Child(s, r, i, level, k) == None)
  {
    hide Present, Target, Flags, Leafy, Top, Middle, Bottom;
    assert TopOk(s, r, i) && MidOk(s, r, i, j);
    assert level == 2 ==> TopOk(s, r, k);
    assert level == 1 ==> MidOk(s, r, i, k);
    PointerNotLeafy(s.pages[pt][k]);
    IndicesBack(i, j, k);
    assert LowOk(s, r, i * 262144 + j * 512 + k);
  }

  /** All entries clear means nothing is mapped by way of the table. */
  lemma NothingBelow(s0: Memory, s: Memory, r: nat, i: nat, j: nat, level: nat, pt: nat, pool: set<nat>)
    requires Inv(s, pool) && TableAt(s, r, i, j, level, pt) && i < NPTE && j < NPTE
    requires level == 0 ==> pt in s.pages && forall k :: 0 <= k < NPTE ==> !Present(s.pages[pt][k])
    requires Cleared(s0, s, r, i, j, level, NPTE)
    ensures EmptyBelow(s0, r, i, j, level)
  {
    hide Present, Target, Flags, Leafy, Top, Middle, Bottom;
    forall v: nat | Below(v, i, j, level) ensures s0.Entry(r, v) == None {
      assert s0.Entry(r, v) == s.Entry(r, v);
      if level == 2 {
        assert Child(s, r, i, level, Top(v)) == None;
      } else if level == 1 {
        assert Child(s, r, i, level, Middle(v)) == None;
      }
    }
  }

  lemma IndicesBack(i: nat, j: nat, k: nat)
    requires i < NPTE && j < NPTE && k < NPTE
    ensures
      var v := i * 262144 + j * 512 + k;
      Top(v) == i && Middle(v) == j && Bottom(v) == k
  {
    var v := i * 262144 + j * 512 + k;
    NestedDiv(v);
    assert v / 512 == i * 512 + j;
  }

  lemma ChildAt(s: Memory, r: nat, i: nat, j: nat, level: nat, pt: nat, k: nat, c: nat)
    requires TableAt(s, r, i, j, level, pt) && i < NPTE && k < NPTE && 1 <= level && Child(s, r, i, level, k) == Some(c)
    ensures TableAt(s, r, if level == 2 then k else i, k, level - 1, c)
  {
  }

  lemma ClearedMore(s0: Memory, s: Memory, r: nat, i: nat, j: nat, level: nat, k: nat)
    requires Cleared(s0, s, r, i, j, level, k) && k < NPTE && Child(s, r, i, level, k) == None
    ensures Cleared(s0, s, r, i, j, level, k + 1)
  {
    hide TreeShrunk, MapsKept;
  }

  /** What is left below a child is left below the table. */
  lemma ChildNotEmpty(s0: Memory, s: Memory, r: nat, i: nat, j: nat, level: nat, k: nat)
    requires Cleared(s0, s, r, i, j, level, k) && 1 <= level <= 2
    requires !EmptyBelow(s, r, if level == 2 then k else i, k, level - 1)
    ensures !EmptyBelow(s0, r, i, j, level)
  {
    hide Top, Middle, Bottom, TreeShrunk;
    var ci := if level == 2 then k else i;
    var v: nat :| Below(v, ci, k, level - 1) && s.Entry(r, v) != None;
    assert Below(v, i, j, level) && s0.Entry(r, v) == s.Entry(r, v);
  }

  lemma LeafLeft(s: Memory, r: nat, i: nat, j: nat, k: nat)
    requires s.IsRoot(r) && i < NPTE && j < NPTE && k < NPTE && s.Entry(r, i * 262144 + j * 512 + k).Some?
    ensures !EmptyBelow(s, r, i, j, 0)
  {
    hide Top, Middle, Bottom;
    IndicesBack(i, j, k);
    assert Below(i * 262144 + j * 512 + k, i, j, 0);
  }

  lemma ShrunkThen(s0: Memory, s: Memory, s1: Memory, r: nat)
    requires TreeShrunk(s0, s, r) && TreeShrunk(s, s1, r) && MapsKept(s0, s) && MapsKept(s, s1)
    ensures TreeShrunk(s0, s1, r) && MapsKept(s0, s1)
  {
  }

  /** A last-level table was freed and its parent's entry cleared. */
  lemma LowGone(s0: Memory, s: Memory, r: nat, i: nat, j: nat, pt: nat, k: nat, fill: Page, pool: set<nat>)
    requires i < NPTE && k < NPTE && Inv(s, pool) && TableAt(s, r, i, j, 1, pt) && s.LowOf(r, i, k).Some?
    requires Cleared(s0, s, r, i, j, 1, k) && EmptyBelow(s, r, i, k, 0)
    ensures
      var s2 := WithoutLow(s, r, i, k, fill);
      Inv(s2, pool) && TableAt(s2, r, i, j, 1, pt) && Cleared(s0, s2, r, i, j, 1, k + 1)
  {
    hide Present, Target, Flags, Leafy, Top, Middle, Bottom, Inv;
    forall v: nat | Top(v) == i && Middle(v) == k ensures s.Entry(r, v) == None {
      assert Below(v, i, k, 0);
    }
    var s2 := WithoutLow(s, r, i, k, fill);
    LowRemovesNothing(s, r, i, k, fill, pool);
    WithoutLowKeeps(s, r, i, k, fill, pool);
    assert TreeShrunk(s, s2, r);
    ShrunkThen(s0, s, s2, r);
    forall h | 0 <= h < k + 1 && h < NPTE ensures Child(s2, r, i, 1, h) == None {
      assert h < k ==> Child(s, r, i, 1, h) == None;
    }
  }

  /** A second-level table was freed and the root's entry cleared. */
  lemma MidGone(s0: Memory, s: Memory, s1: Memory, r: nat, i: nat, j: nat, k: nat, fill: Page, pool: set<nat>)
    requires i < NPTE && k < NPTE && Inv(s1, pool) && s.IsRoot(r) && s.MidOf(r, k).Some?
    requires Cleared(s0, s, r, i, j, 2, k) && Cleared(s, s1, r, k, k, 1, NPTE)
    ensures s1.IsRoot(r) && s1.MidOf(r, k).Some?
    ensures
      var s2 := WithoutMid(s1, r, k, fill);
      Inv(s2, pool) && TableAt(s2, r, i, j, 2, r) && Cleared(s0, s2, r, i, j, 2, k + 1)
  {
    hide Present, Target, Flags, Leafy, Top, Middle, Bottom, Inv;
    forall h | 0 <= h < NPTE ensures s1.LowOf(r, k, h) == None {
      assert Child(s1, r, k, 1, h) == None;
    }
    var s2 := WithoutMid(s1, r, k, fill);
    MidRemovesNothing(s1, r, k, fill, pool);
    WithoutMidKeeps(s1, r, k, fill, pool);
    assert TreeShrunk(s1, s2, r);
    ShrunkThen(s0, s, s1, r);
    ShrunkThen(s0, s1, s2, r);
    forall h | 0 <= h < k + 1 && h < NPTE ensures Child(s2, r, i, 2, h) == None {
      assert Child(s, r, i, 2, h) == s.MidOf(r, h);
    }
  }

  /** A table and its child are two pages, and neither is free. */
  lemma TwoTables(s: Memory, r: nat, i: nat, j: nat, level: nat, pt: nat, k: nat, c: nat, pool: set<nat>)
    requires Inv(s, pool) && TableAt(s, r, i, j, level, pt) && i < NPTE && k < NPTE && 1 <= level
    requires Child(s, r, i, level, k) == Some(c)
    ensures pt in s.pages && c != pt && pt !in s.free && c !in s.free
  {
    hide Present, Target, Flags, Leafy, Top, Middle, Bottom;
    assert level == 2 ==> TopOk(s, r, k);
    assert level == 1 ==> TopOk(s, r, i) && MidOk(s, r, i, k);
  }

  lemma LinkedPages(s: Memory, s': Memory, freelist: nat, pt: nat)
    requires Linked(s, freelist) && s'.free == s.free && pt !in s.free
    requires forall p :: p in s.pages && p != pt ==> p in s'.pages && s'.pages[p] == s.pages[p]
    ensures Linked(s', freelist)
  {
  }

  /** At the last level nothing has changed yet. */
  lemma SameStill(s0: Memory, s: Memory, r: nat, i: nat, j: nat, k: nat)
    requires Cleared(s0, s, r, i, j, 0, k)
    ensures s == s0
  {
  }

  /** The child c was freed and its entry cleared. */
  lemma ChildGone(s0: Memory, s: Memory, s1: Memory, r: nat, i: nat, j: nat, level: nat, pt: nat, k: nat, c: nat,
                  fill: Page, freelist: nat, pool: set<nat>)
    requires 1 <= level <= 2 && i < NPTE && j < NPTE && k < NPTE && Inv(s, pool) && TableAt(s, r, i, j, level, pt)
    requires Cleared(s0, s, r, i, j, level, k) && Child(s, r, i, level, k) == Some(c)
    requires var ci := if level == 2 then k else i;
             Inv(s1, pool) && Cleared(s, s1, r, ci, k, level - 1, NPTE) && EmptyBelow(s, r, ci, k, level - 1)
    requires Linked(Returned(s1, c, fill), freelist)
    ensures pt in s1.pages && c != pt
    ensures
      var t := Returned(s1, c, fill);
      var s2 := Memory(t.pages[pt := t.pages[pt][k := 0]], t.free, t.role);
      && Inv(s2, pool) && Linked(s2, freelist) && s2.IsRoot(r)
      && TableAt(s2, r, i, j, level, pt) && Cleared(s0, s2, r, i, j, level, k + 1)
  {
    hide Present, Target, Flags, Leafy, Top, Middle, Bottom, Inv, TreeShrunk, MapsKept, EmptyBelow;
    if level == 1 {
      LowGone(s0, s, r, i, j, pt, k, fill, pool);
    } else {
      MidGone(s0, s, s1, r, i, j, k, fill, pool);
    }
    TwoTables(s1, r, i, j, level, pt, k, c, pool);
    var t := Returned(s1, c, fill);
    LinkedPages(t, Memory(t.pages[pt := t.pages[pt][k := 0]], t.free, t.role), freelist, pt);
  }

  predicate Owned(t: Role, p: nat, r: nat) {
    p == r || TableOf(t, r) || (t.User? && t.r == r)
  }

  /** Exactly the pages of root r are out of use, once each; all else is as before. */
  ghost predicate Released(s: Memory, s': Memory, r: nat) {
    && (forall p :: p in s'.role <==> p in s.role && !Owned(s.role[p], p, r))
    && (forall p :: p in s'.role ==>
          s'.role[p] == s.role[p]
          && (p in s.pages && !IsTable(s.role[p]) ==> p in s'.pages && s'.pages[p] == s.pages[p]))
    && (forall q :: s'.IsRoot(q) <==> q != r && s.IsRoot(q))
    && (forall q, w: nat :: q != r && s.IsRoot(q) && w < MAXVPN ==> s'.Entry(q, w) == s.Entry(q, w))
  }

  /** The pages mapped are those below n. */
  ghost predicate MappedExactly(s: Memory, r: nat, n: nat)
    requires s.IsRoot(r)
  {
    && (forall w: nat :: w < n ==> !NotMapped(s, r, w))
    && (forall w: nat :: n <= w ==> NotMapped(s, r, w))
  }

  /** A page number at or above MAXVA shares its entry with one below. */
  lemma EmptyAll(s: Memory, r: nat, pool: set<nat>)
    requires Inv(s, pool) && s.IsRoot(r)
    ensures EmptyBelow(s, r, 0, 0, 2) <==> forall w: nat :: w < MAXVPN ==> s.Entry(r, w) == None
  {
    hide Top, Middle, Bottom, Present, Target;
    if forall w: nat :: w < MAXVPN ==> s.Entry(r, w) == None {
      forall v: nat ensures s.Entry(r, v) == None {
        IndicesBack(Top(v), Middle(v), Bottom(v));
        var w := Top(v) * 262144 + Middle(v) * 512 + Bottom(v);
        assert s.Entry(r, v) == s.Entry(r, w) && LowOk(s, r, v);
      }
    }
    assert forall v: nat :: Below(v, 0, 0, 2);
  }

  lemma UnmappedFrom(s: Memory, s1: Memory, r: nat, n: nat, pool: set<nat>)
    requires Inv(s1, pool) && s.IsRoot(r) && s1.IsRoot(r) && UnmappedRange(s, s1, r, 0, n)
    requires forall w: nat :: w < n ==> !NotMapped(s, r, w)
    ensures EmptyBelow(s1, r, 0, 0, 2) <==> MappedExactly(s, r, n)
  {
    hide Top, Middle, Bottom, Present, Target, EmptyBelow, Inv;
    EmptyAll(s1, r, pool);
    if EmptyBelow(s1, r, 0, 0, 2) {
      forall w: nat | n <= w ensures NotMapped(s, r, w) {
        if w < MAXVPN {
          assert s1.Entry(r, w) == None;
        }
      }
    }
    if MappedExactly(s, r, n) {
      forall w: nat | w < MAXVPN ensures s1.Entry(r, w) == None {
        assert n <= w ==> NotMapped(s, r, w);
      }
    }
  }

  lemma TornDown(s: Memory, s1: Memory, s2: Memory, r: nat, n: nat, fill: Page, pool: set<nat>)
    requires UnmappedRange(s, s1, r, 0, n) && UsersGone(s, s1, r, 0, n)
    requires Cleared(s1, s2, r, 0, 0, 2, NPTE) && Inv(s2, pool)
    ensures Inv(Returned(s2, r, fill), pool) && Released(s, Returned(s2, r, fill), r)
  {
    hide Top, Middle, Bottom, Present, Target, Inv;
    forall i | 0 <= i < NPTE ensures s2.MidOf(r, i) == None {
      assert Child(s2, r, 0, 2, i) == None;
    }
    WithoutRootKeeps(s2, r, fill, pool);
    NoneOwned(Returned(s2, r, fill), r, pool);
  }

  /** Roles below a root that is gone are gone. */
  lemma NoneOwned(s: Memory, r: nat, pool: set<nat>)
    requires Inv(s, pool) && r !in s.role
    ensures forall p :: p in s.role ==> !Owned(s.role[p], p, r)
  {
    hide Top, Middle, Bottom, Present, Target;
    forall p | p in s.role ensures !Owned(s.role[p], p, r) {
      assert RoleOk(s, p);
    }
  }

  /** A new root r with an empty map; no other page changed. */
  ghost predicate RootAdded(s: Memory, s': Memory, r: nat) {
    && r !in s.role && s'.IsRoot(r) && s'.role == s.role[r := Root]
    && (forall q :: s'.IsRoot(q) <==> q == r || s.IsRoot(q))
    && (forall q, w: nat :: s'.IsRoot(q) ==> s'.Entry(q, w) == if q == r then None else s.Entry(q, w))
    && (forall p :: p in s.role && p in s.pages ==> p in s'.pages && s'.pages[p] == s.pages[p])
  }

  /** A zeroed page made a root: what its tree and the others denote. */
  lemma RootAddsNothing(s: Memory, r: nat, pool: set<nat>)
    requires Inv(s, pool) && FreshPage(s, r)
    ensures
      var s' := Memory(s.pages[r := Filled(0)], s.free, s.role[r := Root]);
      && (forall q :: s'.IsRoot(q) <==> q == r || s.IsRoot(q))
      && (forall q, k :: s'.IsRoot(q) && 0 <= k < NPTE ==> s'.MidOf(q, k) == if q == r then None else s.MidOf(q, k))
      && (forall q, k, h :: s'.IsRoot(q) && 0 <= k < NPTE && 0 <= h < NPTE ==>
            s'.LowOf(q, k, h) == if q == r then None else s.LowOf(q, k, h))
      && (forall q, v: nat :: s'.IsRoot(q) ==> s'.Entry(q, v) == if q == r then None else s.Entry(q, v))
  {
    hide Present, Target, Flags, Leafy, Top, Middle, Bottom;
    Absent();
    var s' := Memory(s.pages[r := Filled(0)], s.free, s.role[r := Root]);
    forall q, k, h | s'.IsRoot(q) && 0 <= k < NPTE && 0 <= h < NPTE
      ensures s'.LowOf(q, k, h) == if q == r then None else s.LowOf(q, k, h)
    {
      assert q != r ==> TopOk(s, q, k);
    }
    forall q, v: nat | s'.IsRoot(q) ensures s'.Entry(q, v) == if q == r then None else s.Entry(q, v) {
      assert q != r ==> MidOk(s, q, Top(v), Middle(v));
    }
  }

  lemma NewRootInv(s: Memory, r: nat, pool: set<nat>)
    requires Inv(s, pool) && FreshPage(s, r)
    ensures Inv(Memory(s.pages[r := Filled(0)], s.free, s.role[r := Root]), pool)
  {
    hide Present, Target, Flags, Leafy, Top, Middle, Bottom;
    var s' := Memory(s.pages[r := Filled(0)], s.free, s.role[r := Root]);
    RootAddsNothing(s, r, pool);
    assert Partition(s', pool);
    forall q, k | s'.IsRoot(q) && 0 <= k < NPTE ensures TopOk(s', q, k) {
      assert q != r ==> TopOk(s, q, k);
    }
    forall q, k, h | s'.IsRoot(q) && 0 <= k < NPTE && 0 <= h < NPTE ensures MidOk(s', q, k, h) {
      assert q != r ==> MidOk(s, q, k, h) && TopOk(s, q, k);
    }
    forall q, v: nat | s'.IsRoot(q) ensures LowOk(s', q, v) {
      assert q != r ==> LowOk(s, q, v);
    }
    forall q | q in s'.role ensures RoleOk(s', q) {
      assert RoleOk(s, q);
    }
  }

  lemma NewRoot(s0: Memory, s: Memory, r: nat, freelist: nat, pool: set<nat>)
    requires Inv(s, pool) && SameTrees(s0, s) && FreshPage(s, r) && r !in s0.role && s.role == s0.role[r := Held]
    requires forall p :: p in s0.role && p in s0.pages ==> p in s.pages && s.pages[p] == s0.pages[p]
    requires Linked(s, freelist)
    ensures
      var s' := Memory(s.pages[r := Filled(0)], s.free, s.role[r := Root]);
      Inv(s', pool) && Linked(s', freelist) && RootAdded(s0, s', r)
  {
    hide Present, Target, Flags, Leafy, Top, Middle, Bottom, Linked, Inv;
    var s' := Memory(s.pages[r := Filled(0)], s.free, s.role[r := Root]);
    LinkedKept(s, s', freelist, pool);
    RootAddsNothing(s, r, pool);
    NewRootInv(s, r, pool);
  }

  lemma AllHeld(s: Memory, pool: set<nat>)
    requires s.free == [] && (forall p :: p in s.role <==> p in pool) && forall p :: p in s.role ==> s.role[p] == Held
    requires forall p :: p in pool ==> 0 < p < PHYSLIMIT && p in s.pages
    ensures Inv(s, pool) && Linked(s, 0)
  {
  }

  lemma AllFree(s: Memory, pool: set<nat>)
    requires Inv(s, pool) && forall p :: p !in s.role
    ensures s.role == map[] && forall p :: p in s.free <==> p in pool
  {
    hide RoleOk, TopOk, MidOk, LowOk;
  }

  class Machine {
    const end: nat        // first page after the kernel
    const top: nat        // page number of PHYSTOP
    var mem: map<nat, Page>
    var freelist: nat     // address of the first free page, or 0
    ghost const pool: set<nat>
    ghost var free: seq<nat>
    ghost var role: map<nat, Role>

    ghost function View(): Memory
      reads this
    {
      Memory(mem, free, role)
    }

    ghost predicate Valid()
      reads this
    {
      && 0 < end && top < PHYSLIMIT
      && (forall p :: p in pool <==> end <= p < top)
      && Linked(View(), freelist)
      && Inv(View(), pool)
    }

    /** kinit: every page from the end of the kernel to PHYSTOP is free. */
    constructor (end: nat, top: nat, mem: map<nat, Page>)
      requires 0 < end && top < PHYSLIMIT && forall p :: end <= p < top ==> p in mem
      ensures Valid() && this.end == end && this.top == top
      ensures role == map[] && forall p :: p in free <==> end <= p < top
    {
      hide Inv, Linked;
      this.end, this.top, this.mem, freelist := end, top, mem, 0;
      pool, free := set p | p in mem && end <= p < top, [];
      role := map p | p in mem && end <= p < top :: Held;
      new;
      AllHeld(View(), pool);
      Freerange();
    }

    /** freerange, over pages that nobody has freed yet. */
    method Freerange()
      requires Valid() && (forall p :: p in role <==> p in pool) && forall p :: p in role ==> role[p] == Held
      modifies this`mem, this`freelist, this`free, this`role
      ensures Valid() && role == map[] && forall p :: p in free <==> p in pool
    {
      hide Inv, Linked;
      var p := end;
      while p < top
        invariant end <= p && (end <= top ==> p <= top)
        invariant Valid() && forall q :: q in role <==> q in pool && p <= q
        invariant forall q :: q in role ==> role[q] == Held
      {
        ReturnedKeeps(View(), p, FreeFill(freelist), pool);
        var ok := Kfree(p);
        p := p + 1;
      }
      AllFree(View(), pool);
    }

    /** kalloc: 0 when there is no page left. */
    method Kalloc() returns (p: nat)
      requires Valid()
      modifies this`mem, this`freelist, this`free, this`role
      ensures Valid()
      ensures p == 0 <==> old(free) == []
      ensures p == 0 ==> View() == old(View())
      ensures p != 0 ==>
                && p == old(free)[0] && View() == Taken(old(View()), Filled(JUNK_ALLOC))
                && p !in old(role) && FreshPage(View(), p)
                && SameTrees(old(View()), View()) && RolesKept(old(View()), View())
    {
      hide Inv, Linked, SameTrees, RolesKept, FreshPage;
      ListHead(View(), freelist, pool);
      if freelist == 0 {
        return 0;
      }
      TakenLinked(View(), freelist, Filled(JUNK_ALLOC), pool);
      TakenKeeps(View(), Filled(JUNK_ALLOC), pool);
      p := freelist / PGSIZE;
      freelist := mem[p][0];
      mem := mem[p := Filled(JUNK_ALLOC)];
      role := role[p := Held];
      free := free[1..];
    }

    /** kfree, for a page in use; false is the panic for an address outside the
        allocator's range. What is free afterwards is linked up, whatever the page was. */
    method Kfree(p: nat) returns (ok: bool)
      requires Valid() && (p in pool ==> p in role)
      modifies this`mem, this`freelist, this`free, this`role
      ensures ok == (end <= p < top)
      ensures !ok ==> View() == old(View()) && freelist == old(freelist)
      ensures ok ==> View() == Returned(old(View()), p, FreeFill(old(freelist))) && Linked(View(), freelist)
    {
      hide Inv, Linked;
      if p < end || p >= top {
        return false;
      }
      ListHead(View(), freelist, pool);
      ReturnedLinked(View(), freelist, p, FreeFill(freelist), pool);
      mem := mem[p := Filled(JUNK_FREE)];
      mem := mem[p := mem[p][0 := freelist]];
      freelist := p * PGSIZE;
      role := role - {p};
      free := [p] + free;
      return true;
    }
  
    /** walk to the last-level table of page v, by way of the root's table r. With
        `alloc`, missing tables are created, which changes no mapping, even if memory
        runs out halfway. */
    method Walk(r: nat, v: nat, alloc: bool) returns (f: Found)
      requires Valid() && View().IsRoot(r)
      modifies this`mem, this`freelist, this`free, this`role
      ensures Valid() && MapsKept(old(View()), View()) && TablesAdded(old(View()), View())
      ensures f.Panicked? <==> v >= MAXVPN
      ensures f.Table? ==> View().LowOf(r, Top(v), Middle(v)) == Some(f.page) && f.page in mem
      ensures f.Panicked? || !alloc ==> View() == old(View())
      ensures f.Missing? ==> View().LowOf(r, Top(v), Middle(v)) == None && (alloc ==> free == [])
      ensures alloc && f.Table? ==>
                OnPath(old(View()), View(), r, v, 0) && |free| + Cost(old(View()), r, v) == |old(free)|
      ensures alloc && f.Missing? ==> |old(free)| < Cost(old(View()), r, v)
    {
      hide Inv, Linked, MapsKept, TablesAdded, OnPath, Spent, Cost, Present, Target, Top, Middle, Bottom;
      KeptSelf(View());
      if v >= MAXVPN {
        return Panicked;
      }
      var level, pt := 2, r;
      OnPathSelf(View(), r, v, 2);
      while level > 0
        invariant 0 <= level <= 2
        invariant Valid() && View().IsRoot(r) && MapsKept(old(View()), View()) && TablesAdded(old(View()), View())
        invariant !alloc ==> View() == old(View())
        invariant level == 2 ==> pt == r
        invariant level == 1 ==> View().MidOf(r, Top(v)) == Some(pt)
        invariant level == 0 ==> View().LowOf(r, Top(v), Middle(v)) == Some(pt)
        invariant OnPath(old(View()), View(), r, v, level) && |free| + Spent(old(View()), r, v, level) == |old(free)|
      {
        ghost var s := View();
        TablePresent(View(), r, v, level, pt, pool);
        var e := mem[pt][Index(level, v)];
        if Present(e) {
          pt := Target(e);
          LowNeedsMid(s, r, v);
          OnPathSelf(s, r, v, level - 1);
          OnPathSelf(s, r, v, level);
        } else {
          if !alloc {
            NoLow(View(), r, v, level);
            return Missing;
          }
          NewSpent(s, r, v, level);
          pt := NewTable(r, v, level, pt);
          if pt == 0 {
            NoLow(View(), r, v, level);
            WalkShort(old(View()), s, r, v, level);
            return Missing;
          }
          KeptThen(old(View()), s, View());
        }
        OnPathThen(old(View()), s, View(), r, v, level - 1);
        level := level - 1;
      }
      AllSpent(old(View()), r, v);
      TablePresent(View(), r, v, 0, pt, pool);
      return Table(pt);
    }

    /** The allocating part of one round of walk; 0 when memory has run out. */
    method NewTable(r: nat, v: nat, level: nat, pt: nat) returns (p: nat)
      requires Valid() && View().IsRoot(r) && v < MAXVPN && 1 <= level <= 2
      requires level == 2 ==> pt == r && View().MidOf(r, Top(v)) == None
      requires level == 1 ==> View().MidOf(r, Top(v)) == Some(pt) && View().LowOf(r, Top(v), Middle(v)) == None
      modifies this`mem, this`freelist, this`free, this`role
      ensures Valid() && MapsKept(old(View()), View()) && TablesAdded(old(View()), View()) && View().IsRoot(r)
      ensures p == 0 ==> free == [] && View() == old(View())
      ensures p != 0 ==> OnPath(old(View()), View(), r, v, level - 1) && |free| + 1 == |old(free)|
      ensures p != 0 && level == 2 ==> View().MidOf(r, Top(v)) == Some(p)
      ensures p != 0 && level == 1 ==> View().LowOf(r, Top(v), Middle(v)) == Some(p)
    {
      hide Inv, Linked, MapsKept, RolesKept, TablesAdded, SameTrees, OnPath, Present, Target, Top, Middle, Bottom;
      KeptSelf(View());
      ghost var s0 := View();
      p := Kalloc();
      if p == 0 {
        return;
      }
      ghost var s := View();
      TableAdded(s0, s, r, v, level, pt, p, freelist, pool);
      mem := mem[p := Filled(0)];
      mem := mem[pt := mem[pt][Index(level, v) := Pte(p, 0)]];
      role := role[p := if level == 2 then Mid(r, Top(v)) else Low(r, Top(v), Middle(v))];
    }

    /** Storing e in the entry of page v, in the last-level table that walk found. */
    method SetEntry(r: nat, v: nat, pt: nat, e: Word)
      requires Valid() && View().IsRoot(r) && v < MAXVPN && View().LowOf(r, Top(v), Middle(v)) == Some(pt) && pt in mem
      requires Present(e) ==> Leafy(e)
      requires forall p :: p in role ==> role[p] != User(r, v)
      modifies this`mem
      ensures Valid() && ChangedAt(old(View()), View(), r, v, if Present(e) then Some(e) else None)
      ensures RolesKept(old(View()), View()) && TablesFor(old(View()), View(), r, v, 0)
    {
      hide Inv, Linked, RolesKept, ChangedAt, TablesFor, Present, Target, Leafy, Top, Middle, Bottom;
      EntryTables(View(), r, v, e, pool);
      EntryStored(View(), r, v, pt, e, freelist, pool);
      mem := mem[pt := mem[pt][Index(0, v) := e]];
    }

    /** One round of mappages: it panics exactly at a page that clashes, and otherwise maps
        the page exactly if there is memory for the tables that lack. */
    method MapOne(r: nat, a: nat, p: nat, perm: nat) returns (res: MapResult)
      requires Valid() && View().IsRoot(r) && perm < 1024 && perm / 2 % 8 != 0 && p < PHYSLIMIT
      modifies this`mem, this`freelist, this`free, this`role
      ensures Valid() && TablesAdded(old(View()), View()) && View().IsRoot(r)
      ensures res.Panic? <==> Clash(old(View()), r, a)
      ensures res.NoMemory? ==> !Clash(old(View()), r, a) && free == [] && |old(free)| < Cost(old(View()), r, a)
      ensures !res.Mapped? ==> MapsKept(old(View()), View())
      ensures res.Mapped? ==>
                && MappedRange(old(View()), View(), r, a, 1, p, perm)
                && TablesFor(old(View()), View(), r, a, 1) && |free| + Cost(old(View()), r, a) == |old(free)|
    {
      hide Inv, Linked, RolesKept, TablesAdded, MapsKept, MappedRange, ChangedAt, TablesFor, OnPath, Cost;
      hide Present, Target, Leafy, Top, Middle, Bottom;
      ghost var s := View();
      MappedNone(s, r, a, p, perm);
      KeptSelf(s);
      var f := Walk(r, a, true);
      ghost var s1 := View();
      MappedKept(s, s, s1, r, a, 0, p, perm);
      if f.Panicked? {
        return Panic;
      }
      if f.Missing? {
        MissingEntry(s1, r, a);
        return NoMemory;
      }
      TablePresent(s1, r, a, 0, f.page, pool);
      if Present(mem[f.page][Index(0, a)]) {
        return Panic;
      }
      NoUserAt(s1, r, a, pool);
      SetEntry(r, a, f.page, Pte(p, perm));
      MappedStep(s, s1, View(), r, a, 0, p, perm);
      PathIsRange(s, s1, r, a);
      TablesThenSame(s, s1, View(), r, a, 1, a);
      return Mapped;
    }

    /** mappages of `size` bytes at `va` to `pa`: pages are mapped one by one until all
        are, memory runs out, or a page clashes. */
    method Mappages(r: nat, va: nat, size: nat, pa: nat, perm: nat) returns (res: MapResult, ghost done: nat)
      requires Valid() && View().IsRoot(r) && perm < 1024 && perm / 2 % 8 != 0
      requires pa / PGSIZE + PageCount(va, size) <= PHYSLIMIT
      modifies this`mem, this`freelist, this`free, this`role
      ensures Valid() && TablesAdded(old(View()), View())
      ensures MappedRange(old(View()), View(), r, va / PGSIZE, done, pa / PGSIZE, perm)
      ensures done <= PageCount(va, size)
      ensures forall w :: va / PGSIZE <= w < va / PGSIZE + done ==> !Clash(old(View()), r, w)
      ensures res.Mapped? ==> size > 0 && done == PageCount(va, size)
      ensures res.Mapped? ==>
                && TablesFor(old(View()), View(), r, va / PGSIZE, done)
                && |free| + MapCost(old(View()), r, va / PGSIZE, done) == |old(free)|
      ensures res.NoMemory? <==>
                && size > 0
                && |old(free)| < MapCost(old(View()), r, va / PGSIZE,
                                         UntilClash(old(View()), r, va / PGSIZE, PageCount(va, size)))
      ensures res.Mapped? ==> UntilClash(old(View()), r, va / PGSIZE, PageCount(va, size)) == PageCount(va, size)
      ensures res.NoMemory? ==> done < PageCount(va, size) && !Clash(old(View()), r, va / PGSIZE + done) && free == []
      ensures res.Panic? ==> size == 0 || (done < PageCount(va, size) && Clash(old(View()), r, va / PGSIZE + done))
    {
      hide Inv, Linked, TablesAdded, MapsKept, MappedRange, TablesFor, Cost, MapCost, Clash, UntilClash;
      done := 0;
      ghost var s0, first := View(), va / PGSIZE;
      MappedNone(View(), r, first, pa / PGSIZE, perm);
      KeptSelf(View());
      NoTables(View(), r, first);
      if size == 0 {
        return Panic, 0;
      }
      var a := va / PGSIZE;
      var last := (va + size - 1) / PGSIZE;
      var p := pa / PGSIZE;
      while true
        invariant Valid() && TablesAdded(s0, View()) && View().IsRoot(r)
        invariant a == first + done <= last && p == pa / PGSIZE + done
        invariant MappedRange(s0, View(), r, first, done, pa / PGSIZE, perm)
        invariant forall w :: first <= w < a ==> !Clash(s0, r, w)
        invariant TablesFor(s0, View(), r, first, done)
        invariant |free| + MapCost(s0, r, first, done) == |old(free)|
        decreases last - a
      {
        ghost var s1 := View();
        MapCostAt(s0, s1, r, first, PageCount(va, size), done);
        ClashNow(s0, s1, r, first, done, pa / PGSIZE, perm);
        var res1 := MapOne(r, a, p, perm);
        if !res1.Mapped? {
          MappedKept(s0, s1, View(), r, first, done, pa / PGSIZE, perm);
          return res1, done;
        }
        MappedThen(s0, s1, View(), r, first, done, pa / PGSIZE, perm);
        TablesMore(s0, s1, View(), r, first, done);
        done := done + 1;
        if a == last {
          break;
        }
        a, p := a + 1, p + 1;
      }
      MapCostAt(s0, View(), r, first, PageCount(va, size), done);
      return Mapped, done;
    }

    /** kfree of the user page mapped at v. */
    method FreeUser(r: nat, v: nat, p: nat)
      requires Valid() && p in role && role[p] == User(r, v)
      modifies this`mem, this`freelist, this`free, this`role
      ensures Valid() && SameTrees(old(View()), View()) && DroppedUser(old(View()), View(), r, v)
    {
      hide Inv, Linked, SameTrees, Present, Target, Flags, Leafy, Top, Middle, Bottom;
      UserIs(View(), p, r, v, pool);
      ReturnedKeeps(View(), p, FreeFill(freelist), pool);
      RoleInPool(View(), p, pool);
      var ok := Kfree(p);
    }

    /** uvmunmap of `npages` pages at `va`, freeing the memory with `doFree`. It stops,
        with a panic, at a page that is not mapped. */
    method Uvmunmap(r: nat, va: nat, npages: nat, doFree: bool) returns (ok: bool, ghost done: nat)
      requires Valid() && View().IsRoot(r)
      requires doFree ==> AllUser(View(), r, va / PGSIZE, npages)
      requires !doFree ==> forall p :: p in role ==> !UserIn(role[p], r, va / PGSIZE, npages)
      modifies this`mem, this`freelist, this`free, this`role
      ensures Valid() && done <= npages && View().IsRoot(r)
      ensures UnmappedRange(old(View()), View(), r, va / PGSIZE, done)
      ensures UsersGone(old(View()), View(), r, va / PGSIZE, done)
      ensures ok <==> va % PGSIZE == 0 && done == npages
      ensures forall w: nat :: va / PGSIZE <= w < va / PGSIZE + done ==> !NotMapped(old(View()), r, w)
      ensures !ok && va % PGSIZE == 0 ==> done < npages && NotMapped(old(View()), r, va / PGSIZE + done)
    {
      hide Inv, Linked, RolesKept, MapsKept, ChangedAt, UnmappedRange, UsersGone, AllUser;
      hide Present, Target, Flags, Leafy, Top, Middle, Bottom, UserIn;
      done := 0;
      ghost var s0 := View();
      UnmappedNone(s0, r, va / PGSIZE);
      if va % PGSIZE != 0 {
        return false, 0;
      }
      var first := va / PGSIZE;
      var a := first;
      while a < first + npages
        invariant first <= a <= first + npages && done == a - first
        invariant Valid() && View().IsRoot(r)
        invariant UnmappedRange(s0, View(), r, first, done) && UsersGone(s0, View(), r, first, done)
        invariant forall w: nat :: first <= w < a ==> !NotMapped(s0, r, w)
      {
        ghost var s1 := View();
        StillMapped(s0, s1, r, first, done);
        var f := Walk(r, a, false);
        if f.Panicked? {
          return false, done;
        }
        if f.Missing? {
          MissingEntry(View(), r, a);
          return false, done;
        }
        TablePresent(View(), r, a, 0, f.page, pool);
        var e := mem[f.page][Index(0, a)];
        if !Present(e) {
          return false, done;
        }
        LeafHere(s1, r, a, pool);
        if Flags(e) == PTE_V {
          return false, done;
        }
        if doFree {
          UserHere(s0, s1, r, first, npages, done);
          FreeUser(r, a, Target(e));
        } else {
          NoUserHere(s0, s1, r, first, npages, done);
        }
        ghost var s2 := View();
        Absent();
        SetEntry(r, a, f.page, 0);
        UnmappedStep(s0, s1, s2, View(), r, first, done);
        a, done := a + 1, done + 1;
      }
      return true, done;
    }

    /** The body shared by uvmalloc's and uvmcopy's loops: a new page with the given
        contents, mapped at v; exactly if there is no memory for it and its tables, what
        was taken is given back. */
    method AddPage(r: nat, v: nat, content: Page, perm: nat) returns (res: MapResult)
      requires Valid() && View().IsRoot(r) && perm < 1024 && perm / 2 % 8 != 0
      modifies this`mem, this`freelist, this`free, this`role
      ensures res.NoMemory? <==> |old(free)| < 1 + Cost(old(View()), r, v)
      ensures res.Panic? <==> Clash(old(View()), r, v) && old(free) != []
      ensures res.Mapped? ==>
                TablesFor(old(View()), View(), r, v, 1) && |free| + 1 + Cost(old(View()), r, v) == |old(free)|
      ensures !res.Panic? ==> Valid()
      ensures res.Mapped? ==> PagesAdded(old(View()), View(), r, v, [(content, perm)])
      ensures res.NoMemory? ==> Restored(old(View()), View())
    {
      hide Inv, Linked, RolesKept, TablesAdded, MappedRange, PagesAdded, Restored, SameTrees, FreshPage;
      hide Present, Target, Flags, Leafy, Top, Middle, Bottom, Clash, TablesFor, Cost, MapCost;
      ghost var s0 := View();
      ClashCost(s0, r, v);
      var p := Kalloc();
      if p == 0 {
        RestoredSelf(s0);
        return NoMemory;
      }
      ghost var s1 := View();
      HeldWritten(s0, s1, p, content, freelist, pool);
      mem := mem[p := content];
      ghost var s2 := View();
      ghost var done;
      OnePage(v);
      OnePage(p);
      OnePageCost(s0, s2, r, v);
      res, done := Mappages(r, v * PGSIZE, PGSIZE, p * PGSIZE, perm);
      ghost var s3 := View();
      if res.Panic? {
        ClashBefore(s0, s2, r, v);
        return;
      }
      if res.NoMemory? {
        GivenBack(s0, s2, s3, p, r, v, perm, freelist, pool);
        var ok := Kfree(p);
        return;
      }
      ClaimAdded(s0, s2, s3, p, r, v, content, perm, freelist, pool);
      role := role[p := User(r, v)];
      TablesThenSame(s2, s3, View(), r, v, 1, v);
      SameThenTables(s0, s2, View(), r, v, 1, v);
    }

    /** Takes away again the pages added so far by a uvmalloc or uvmcopy that fails. */
    method Undo(ghost s0: Memory, r: nat, first: nat, n: nat, ghost list: Filling)
      requires Valid() && PagesAdded(s0, View(), r, first, list) && |list| == n && Inv(s0, pool)
      modifies this`mem, this`freelist, this`free, this`role
      ensures Valid() && Restored(s0, View())
    {
      hide Inv, Linked, PagesAdded, Restored, UnmappedRange, UsersGone, AllUser;
      hide Present, Target, Flags, Leafy, Top, Middle, Bottom;
      ghost var s1 := View();
      AddedAreUsers(s0, s1, r, first, list);
      RoundUp(0, first);
      var ok;
      ghost var done;
      ok, done := Uvmunmap(r, first * PGSIZE, n, true);
      if !ok {
        AllMapped(s0, s1, r, first, list, done);
        assert false;
      }
      NoUsersIn(s0, s1, r, first, list, pool);
      AddedThenGone(s0, s1, View(), r, first, list);
    }

    /** uvmalloc: room for `newsz` bytes, as zeroed pages of the process's own, or
        everything put back. */
    method Uvmalloc(r: nat, oldsz: nat, newsz: nat) returns (panic: bool, size: nat, ghost failed: bool)
      requires Valid() && View().IsRoot(r)
      modifies this`mem, this`freelist, this`free, this`role
      ensures !panic ==> Valid() && size == if failed then 0 else if newsz < oldsz then oldsz else newsz
      ensures !panic && !failed && newsz < oldsz ==> View() == old(View())
      ensures !panic && !failed && newsz >= oldsz ==>
                PagesAdded(old(View()), View(), r, Pages(oldsz), Zeroed(Pages(newsz) - Pages(oldsz)))
      ensures !panic && failed ==> Restored(old(View()), View())
      ensures failed <==>
                newsz >= oldsz && |old(free)| < Demand(old(View()), r, Pages(oldsz), Pages(newsz) - Pages(oldsz))
      ensures panic <==>
                && newsz >= oldsz && !failed
                && UntilClash(old(View()), r, Pages(oldsz), Pages(newsz) - Pages(oldsz)) < Pages(newsz) - Pages(oldsz)
    {
      hide Inv, Linked, PagesAdded, Restored, Clash, Zeroed, UntilClash, Demand, MapCost, Cost, TablesFor;
      hide Present, Target, Flags, Leafy, Top, Middle, Bottom;
      ghost var s0 := View();
      if newsz < oldsz {
        return false, oldsz, false;
      }
      var first := (oldsz + PGSIZE - 1) / PGSIZE;
      var a := first * PGSIZE;
      ghost var n := 0;
      NonePagesAdded(s0, r, first);
      ZeroedNone();
      NoTables(s0, r, first);
      PagesOrder(oldsz, newsz);
      while a < newsz
        invariant a == (first + n) * PGSIZE && first + n <= Pages(newsz)
        invariant Valid() && View().IsRoot(r) && PagesAdded(s0, View(), r, first, Zeroed(n))
        invariant TablesFor(s0, View(), r, first, n) && |free| + n + MapCost(s0, r, first, n) == |old(free)|
        decreases Pages(newsz) - first - n
      {
        ghost var s1 := View();
        RoundUp(newsz, first + n);
        NoneClashed(s0, s1, r, first, Zeroed(n));
        DemandAt(s0, s1, r, first, Pages(newsz) - first, n);
        NextCost(s0, s1, r, first, n);
        UserFlags(n);
        var res := AddPage(r, a / PGSIZE, Filled(0), USERFLAGS);
        if res.Panic? {
          ClashThen(s0, s1, r, first, Zeroed(n));
          return true, 0, false;
        }
        if res.NoMemory? {
          RestoredThen(s0, s1, View(), r, first, Zeroed(n));
          Undo(s0, r, first, a / PGSIZE - first, Zeroed(n));
          return false, 0, true;
        }
        OnePageMore(s0, s1, View(), r, first, Zeroed(n), Filled(0), USERFLAGS);
        RootStays(s0, View(), r, first, Zeroed(n + 1));
        TablesMore(s0, s1, View(), r, first, n);
        a, n := a + PGSIZE, n + 1;
      }
      RoundUp(newsz, first + n);
      NoneClashed(s0, View(), r, first, Zeroed(n));
      DemandAt(s0, View(), r, first, Pages(newsz) - first, n);
      return false, newsz, false;
    }

    /** uvmdealloc: exactly the pages that `newsz` bytes do not need are taken away and
        freed; false is the panic when one of them is not mapped. */
    method Uvmdealloc(r: nat, oldsz: nat, newsz: nat) returns (ok: bool, size: nat)
      requires Valid() && View().IsRoot(r)
      requires Pages(newsz) <= Pages(oldsz) ==> AllUser(View(), r, Pages(newsz), Pages(oldsz) - Pages(newsz))
      modifies this`mem, this`freelist, this`free, this`role
      ensures ok ==> Valid() && size == if newsz < oldsz then newsz else oldsz
      ensures ok && Pages(newsz) < Pages(oldsz) ==>
                && UnmappedRange(old(View()), View(), r, Pages(newsz), Pages(oldsz) - Pages(newsz))
                && UsersGone(old(View()), View(), r, Pages(newsz), Pages(oldsz) - Pages(newsz))
      ensures ok && Pages(newsz) >= Pages(oldsz) ==> View() == old(View())
      ensures ok <==> newsz >= oldsz || AllThere(old(View()), r, Pages(newsz), Pages(oldsz))
    {
      hide Inv, Linked, UnmappedRange, UsersGone, AllUser;
      hide Present, Target, Flags, Leafy, Top, Middle, Bottom;
      if newsz >= oldsz {
        return true, oldsz;
      }
      ok := true;
      if Pages(newsz) < Pages(oldsz) {
        var npages := Pages(oldsz) - Pages(newsz);
        RoundUp(0, Pages(newsz));
        ghost var done;
        ok, done := Uvmunmap(r, Pages(newsz) * PGSIZE, npages, true);
        if !ok {
          ghost var w := Pages(newsz) + done;
          assert Pages(newsz) <= w < Pages(oldsz) && NotMapped(old(View()), r, w);
        }
      }
      return ok, newsz;
    }

    /** uvmcopy's look at the parent's entry of page v; None is one of its panics. */
    method FindEntry(r: nat, v: nat) returns (e: Option<Word>)
      requires Valid() && View().IsRoot(r)
      modifies this`mem, this`freelist, this`free, this`role
      ensures Valid() && View() == old(View())
      ensures e == if v >= MAXVPN then None else View().Entry(r, v)
    {
      hide Inv, Linked, MapsKept, TablesAdded, Cost, OnPath, Present, Target, Top, Middle, Bottom;
      var f := Walk(r, v, false);
      if f.Panicked? {
        return None;
      }
      if f.Missing? {
        MissingEntry(View(), r, v);
        return None;
      }
      TablePresent(View(), r, v, 0, f.page, pool);
      var w := mem[f.page][Index(0, v)];
      return if Present(w) then Some(w) else None;
    }

    /** n pages of the parent have been copied from s on, and nothing stood in the way. */
    ghost predicate Copying(s: Memory, parent: nat, r: nat, n: nat)
      reads this
    {
      && Valid() && s.IsRoot(parent) && s.IsRoot(r) && View().IsRoot(r) && Inv(s, pool)
      && PagesAdded(s, View(), r, 0, CopyOf(s, parent, n))
      && TablesFor(s, View(), r, 0, n) && |free| + n + MapCost(s, r, 0, n) == |s.free|
      && forall x: nat :: x < n ==> !NotMapped(s, parent, x)
    }

    /** One round of uvmcopy's loop. */
    method CopyPage(parent: nat, r: nat, i: nat, ghost s: Memory, ghost total: nat) returns (res: MapResult)
      requires Copying(s, parent, r, i) && i < total && AllUser(s, parent, 0, total)
      modifies this`mem, this`freelist, this`free, this`role
      ensures res.Mapped? ==> Copying(s, parent, r, i + 1)
      ensures res.NoMemory? ==> Valid() && PagesAdded(s, View(), r, 0, CopyOf(s, parent, i))
      ensures s.IsRoot(parent) && s.IsRoot(r)
      ensures res.NoMemory? ==> |s.free| < CopyDemand(s, parent, r, total)
      ensures res.Panic? ==>
                UntilGap(s, parent, r, 0, total) < total && |s.free| >= CopyDemand(s, parent, r, total)
    {
      hide Inv, Linked, PagesAdded, Restored, Clash, MapsKept, TablesAdded, AllUser;
      hide UntilGap, CopyDemand, MapCost, Cost, TablesFor, NotMapped;
      hide Present, Target, Flags, Leafy, Top, Middle, Bottom;
      ghost var s1 := View();
      ParentPage(s, s1, parent, r, i, total, pool);
      ParentMapped(s, s1, parent, i);
      NoneClashed(s, s1, r, 0, CopyOf(s, parent, i));
      CopyDemandAt(s, s1, parent, r, total, i);
      NextCost(s, s1, r, 0, i);
      var source := FindEntry(parent, i);
      if source.None? {
        return Panic;
      }
      var e := source.value;
      res := AddPage(r, i, mem[Target(e)], Flags(e));
      if res.Panic? {
        ClashInCopy(s, s1, r, i, CopyOf(s, parent, i));
      } else if res.NoMemory? {
        RestoredThen(s, s1, View(), r, 0, CopyOf(s, parent, i));
      } else {
        OnePageMore(s, s1, View(), r, 0, CopyOf(s, parent, i), s1.pages[Target(e)], Flags(e));
        RootStays(s, View(), r, 0, CopyOf(s, parent, i + 1));
        TablesMore(s, s1, View(), r, 0, i);
      }
    }

    /** uvmcopy: the child gets pages of its own with the parent's bytes and permissions,
        or is left as it was. */
    method Uvmcopy(parent: nat, r: nat, sz: nat) returns (panic: bool, ok: bool)
      requires Valid() && View().IsRoot(parent) && View().IsRoot(r) && AllUser(View(), parent, 0, Pages(sz))
      modifies this`mem, this`freelist, this`free, this`role
      ensures !panic ==> Valid()
      ensures !panic && ok ==> PagesAdded(old(View()), View(), r, 0, CopyOf(old(View()), parent, Pages(sz)))
      ensures !panic && !ok ==> Restored(old(View()), View())
      ensures panic <==>
                && UntilGap(old(View()), parent, r, 0, Pages(sz)) < Pages(sz)
                && |old(free)| >= CopyDemand(old(View()), parent, r, Pages(sz))
      ensures !panic ==> (ok <==> |old(free)| >= CopyDemand(old(View()), parent, r, Pages(sz)))
    {
      hide Inv, Linked, PagesAdded, Restored, AllUser, UntilGap, CopyDemand, Copying;
      ghost var s := View();
      StartCopy(parent, r);
      var i := 0;
      while i * PGSIZE < sz
        invariant i <= Pages(sz) && Copying(s, parent, r, i)
        decreases Pages(sz) - i
      {
        RoundUp(sz, i);
        var res := CopyPage(parent, r, i, s, Pages(sz));
        if res.Panic? {
          return true, false;
        }
        if res.NoMemory? {
          Undo(s, r, 0, i, CopyOf(s, parent, i));
          return false, false;
        }
        i := i + 1;
      }
      RoundUp(sz, i);
      EndCopy(s, parent, r, i);
      return false, true;
    }

    lemma StartCopy(parent: nat, r: nat)
      requires Valid() && View().IsRoot(parent) && View().IsRoot(r)
      ensures Copying(View(), parent, r, 0)
    {
      hide Inv, Linked, PagesAdded, TablesFor, MapCost, NotMapped;
      NonePagesAdded(View(), r, 0);
      NoTables(View(), r, 0);
    }

    lemma EndCopy(s: Memory, parent: nat, r: nat, n: nat)
      requires Copying(s, parent, r, n)
      ensures Valid() && PagesAdded(s, View(), r, 0, CopyOf(s, parent, n))
      ensures s.IsRoot(parent) && s.IsRoot(r)
      ensures UntilGap(s, parent, r, 0, n) == n && |s.free| >= CopyDemand(s, parent, r, n)
    {
      hide Inv, Linked, PagesAdded, TablesFor, MapCost, NotMapped, UntilGap, CopyDemand;
      NoneClashed(s, View(), r, 0, CopyOf(s, parent, n));
      CopyDemandAt(s, View(), parent, r, n, n);
    }

    /** freewalk on the table `pt`, which stands at `level` under the root r: its children
        and then the table itself go back to the free list. False is the panic at a
        leaf. `s` is the state just before the table is freed: nothing is left below. */
    method Freewalk(pt: nat, ghost r: nat, ghost i: nat, ghost j: nat, ghost level: nat)
      returns (ok: bool, ghost s: Memory, ghost fill: Page)
      requires Valid() && View().IsRoot(r) && TableAt(View(), r, i, j, level, pt)
      requires i < NPTE && j < NPTE && level <= 2
      modifies this`mem, this`freelist, this`free, this`role
      ensures ok <==> EmptyBelow(old(View()), r, i, j, level)
      ensures ok ==> Inv(s, pool) && Cleared(old(View()), s, r, i, j, level, NPTE) && TableAt(s, r, i, j, level, pt)
      ensures ok ==> View() == Returned(s, pt, fill) && Linked(View(), freelist)
      decreases level
    {
      hide Inv, Linked, Cleared, TableAt, EmptyBelow, Child;
      hide Present, Target, Flags, Leafy, Top, Middle, Bottom;
      ghost var s0 := View();
      s, fill := s0, Filled(0);
      ClearedNone(s0, r, i, j, level);
      EntryKind(s0, r, i, j, level, pt, 0, pool);
      var k := 0;
      while k < NPTE
        invariant 0 <= k <= NPTE
        invariant Valid() && View().IsRoot(r)
        invariant TableAt(View(), r, i, j, level, pt) && Cleared(s0, View(), r, i, j, level, k)
        invariant level == 0 ==> pt in mem && forall h :: 0 <= h < k ==> !Present(mem[pt][h])
      {
        s := View();
        EntryKind(s, r, i, j, level, pt, k, pool);
        var e := mem[pt][k];
        if Present(e) && !Leafy(e) {
          ChildAt(s, r, i, j, level, pt, k, Target(e));
          ghost var s1, fill1;
          ok, s1, fill1 := Freewalk(Target(e), r, if level == 2 then k else i, k, level - 1);
          if !ok {
            ChildNotEmpty(s0, s, r, i, j, level, k);
            return false, s0, fill;
          }
          ChildGone(s0, s, s1, r, i, j, level, pt, k, Target(e), fill1, freelist, pool);
          mem := mem[pt := mem[pt][k := 0]];
        } else if Present(e) {
          LeafLeft(s, r, i, j, k);
          SameStill(s0, s, r, i, j, k);
          return false, s0, fill;
        } else {
          ClearedMore(s0, s, r, i, j, level, k);
        }
        k := k + 1;
      }
      s := View();
      EntryKind(s, r, i, j, level, pt, 0, pool);
      NothingBelow(s0, s, r, i, j, level, pt, pool);
      fill := FreeFill(freelist);
      RoleInPool(s, pt, pool);
      ok := Kfree(pt);
    }

    /** uvmfree of an address space of `sz` bytes: every page that belongs to it is back
        on the free list. It panics unless exactly the pages of those bytes are mapped. */
    method Uvmfree(r: nat, sz: nat) returns (ok: bool)
      requires Valid() && View().IsRoot(r) && AllUser(View(), r, 0, Pages(sz))
      modifies this`mem, this`freelist, this`free, this`role
      ensures ok <==> MappedExactly(old(View()), r, Pages(sz))
      ensures ok ==> Valid() && Released(old(View()), View(), r)
    {
      hide Inv, Linked, UnmappedRange, UsersGone, AllUser, Released, Cleared, EmptyBelow, NotMapped;
      hide Present, Target, Flags, Leafy, Top, Middle, Bottom;
      ghost var s0 := View();
      ok := true;
      UnmappedNone(s0, r, 0);
      if sz > 0 {
        ghost var done;
        ok, done := Uvmunmap(r, 0, Pages(sz), true);
        if !ok {
          return;
        }
      }
      ghost var s1 := View();
      UnmappedFrom(s0, s1, r, Pages(sz), pool);
      ghost var s, fill;
      ok, s, fill := Freewalk(r, r, 0, 0, 2);
      if ok {
        TornDown(s0, s1, s, r, Pages(sz), fill, pool);
      }
    }

    /** uvmcreate: a root without mappings, or 0 when there is no memory. */
    method Uvmcreate() returns (r: nat)
      requires Valid()
      modifies this`mem, this`freelist, this`free, this`role
      ensures Valid()
      ensures r == 0 <==> old(free) == []
      ensures r == 0 ==> View() == old(View())
      ensures r != 0 ==> RootAdded(old(View()), View(), r) && NoTablesYet(View(), r) && |free| + 1 == |old(free)|
    {
      hide Inv, Linked, SameTrees, RolesKept, RootAdded, NoTablesYet;
      hide Present, Target, Flags, Leafy, Top, Middle, Bottom;
      ghost var s0 := View();
      r := Kalloc();
      if r == 0 {
        return;
      }
      NewRoot(s0, View(), r, freelist, pool);
      mem := mem[r := Filled(0)];
      role := role[r := Root];
      BareRoot(View(), r);
    }
  }

  /** The index of page v in a table of the given level. */
  function Index(level: nat, v: nat): (i: nat)
    ensures i < NPTE
    ensures level == 2 ==> i == Top(v)
    ensures level == 1 ==> i == Middle(v)
    ensures level == 0 ==> i == Bottom(v)
  {
    if level == 0 then v % NPTE else Index(level - 1, v / 512)
  }

  lemma KeptSelf(s: Memory)
    ensures MapsKept(s, s) && TablesAdded(s, s)
  {
  }

  /** The table that walk has reached is a page of memory, and its entry says whether
      the next one exists. */
  lemma TablePresent(s: Memory, r: nat, v: nat, level: nat, pt: nat, pool: set<nat>)
    requires Inv(s, pool) && s.IsRoot(r) && level <= 2
    requires level == 2 ==> pt == r
    requires level == 1 ==> s.MidOf(r, Top(v)) == Some(pt)
    requires level == 0 ==> s.LowOf(r, Top(v), Middle(v)) == Some(pt)
    ensures pt in s.pages
    ensures level == 2 ==>
              s.MidOf(r, Top(v)) == if Present(s.pages[pt][Top(v)]) then Some(Target(s.pages[pt][Top(v)])) else None
    ensures level == 1 ==> s.LowOf(r, Top(v), Middle(v))
                           == if Present(s.pages[pt][Middle(v)]) then Some(Target(s.pages[pt][Middle(v)])) else None
    ensures level == 0 ==>
              s.Entry(r, v) == if Present(s.pages[pt][Bottom(v)]) then Some(s.pages[pt][Bottom(v)]) else None
  {
    hide Present, Target, Flags, Leafy, Top, Middle, Bottom;
    assert TopOk(s, r, Top(v)) && MidOk(s, r, Top(v), Middle(v));
  }

  lemma KeptThen(s: Memory, s1: Memory, s2: Memory)
    requires MapsKept(s, s1) && MapsKept(s1, s2) && TablesAdded(s, s1) && TablesAdded(s1, s2)
    ensures MapsKept(s, s2) && TablesAdded(s, s2)
  {
  }

  lemma LowNeedsMid(s: Memory, r: nat, v: nat)
    requires s.IsRoot(r)
    ensures s.LowOf(r, Top(v), Middle(v)).Some? ==> s.MidOf(r, Top(v)).Some?
  {
    hide Present, Target, Top, Middle;
  }

  /** A table that walk finds missing is one more to pay for. */
  lemma NewSpent(s: Memory, r: nat, v: nat, level: nat)
    requires s.IsRoot(r) && 1 <= level <= 2
    requires level == 2 ==> s.MidOf(r, Top(v)) == None
    requires level == 1 ==> s.MidOf(r, Top(v)).Some? && s.LowOf(r, Top(v), Middle(v)) == None
    ensures Spent(s, r, v, level - 1) == Spent(s, r, v, level) + 1
  {
    hide Present, Target, Top, Middle;
  }

  lemma AllSpent(s: Memory, r: nat, v: nat)
    requires s.IsRoot(r) && v < MAXVPN
    ensures Spent(s, r, v, 0) == Cost(s, r, v)
  {
    hide Present, Target, Top, Middle;
  }

  lemma NoneClashed(s: Memory, s1: Memory, r: nat, first: nat, list: Filling)
    requires PagesAdded(s, s1, r, first, list)
    ensures s.IsRoot(r) && forall w :: first <= w < first + |list| ==> !Clash(s, r, w)
  {
    hide Present, Target, Top, Middle, Bottom, Pte;
    forall w | first <= w < first + |list| ensures !Clash(s, r, w) {
      assert NewAt(s, s1, r, first, list, w);
    }
  }

  lemma ParentMapped(s: Memory, s1: Memory, parent: nat, n: nat)
    requires s.IsRoot(parent) && s1.IsRoot(parent) && (n < MAXVPN ==> s1.Entry(parent, n) == s.Entry(parent, n))
    ensures NotMapped(s, parent, n) <==> n >= MAXVPN || s1.Entry(parent, n) == None
  {
    hide Present, Target, Top, Middle, Bottom;
  }

  lemma PagesOrder(a: nat, b: nat)
    requires a <= b
    ensures Pages(a) <= Pages(b)
  {
  }

  lemma ClashCost(s: Memory, r: nat, v: nat)
    requires s.IsRoot(r)
    ensures Clash(s, r, v) ==> Cost(s, r, v) == 0
  {
    hide Cost, Present, Target, Top, Middle, Bottom;
    if Clash(s, r, v) {
      MappedCost(s, r, v);
    }
  }

  lemma OnePageCost(s: Memory, s2: Memory, r: nat, v: nat)
    requires s.IsRoot(r) && SameTrees(s, s2)
    ensures s2.IsRoot(r) && TablesFor(s, s2, r, v, 0) && MapCost(s2, r, v, 0) == 0
    ensures MapCost(s2, r, v, 1) == Cost(s, r, v)
    ensures Clash(s2, r, v) <==> Clash(s, r, v)
  {
    hide TablesFor, Cost, MapCost, Present, Target, Top, Middle, Bottom;
    TablesNone(s, s2, r, v);
    NoTables(s2, r, v);
    NextCost(s2, s2, r, v, 0);
    SameMapCost(s, s2, r, v, 0, v);
  }

  ghost predicate NoTablesYet(s: Memory, r: nat) {
    s.IsRoot(r) && forall i :: 0 <= i < NPTE ==> s.MidOf(r, i) == None
  }

  lemma BareRoot(s: Memory, r: nat)
    requires s.IsRoot(r) && s.pages[r] == Filled(0)
    ensures NoTablesYet(s, r)
  {
  }

  lemma NoTables(s: Memory, r: nat, first: nat)
    requires s.IsRoot(r)
    ensures TablesFor(s, s, r, first, 0) && MapCost(s, r, first, 0) == 0
  {
    hide Present, Target, Top, Middle;
  }

  lemma NoLow(s: Memory, r: nat, v: nat, level: nat)
    requires s.IsRoot(r) && 1 <= level <= 2
    requires level == 2 ==> s.MidOf(r, Top(v)) == None
    requires level == 1 ==> s.LowOf(r, Top(v), Middle(v)) == None
    ensures s.LowOf(r, Top(v), Middle(v)) == None
  {
  }

  /** The free list survives changes to pages in use. */
  lemma LinkedKept(s: Memory, s': Memory, freelist: nat, pool: set<nat>)
    requires Inv(s, pool) && Linked(s, freelist) && s'.free == s.free
    requires forall p :: p in s.pages && p !in s.role ==> p in s'.pages && s'.pages[p] == s.pages[p]
    ensures Linked(s', freelist)
  {
    hide RoleOk, TopOk, MidOk, LowOk;
  }

  /** kalloc and hooking up the new table, together. */
  lemma TableAdded(s0: Memory, s: Memory, r: nat, v: nat, level: nat, pt: nat, p: nat, freelist: nat, pool: set<nat>)
    requires Inv(s, pool) && SameTrees(s0, s) && RolesKept(s0, s) && p !in s0.role && FreshPage(s, p)
    requires Linked(s, freelist)
    requires s.role == s0.role[p := Held]
    requires s0.IsRoot(r) && v < MAXVPN && 1 <= level <= 2
    requires level == 2 ==> pt == r && s0.MidOf(r, Top(v)) == None
    requires level == 1 ==> s0.MidOf(r, Top(v)) == Some(pt) && s0.LowOf(r, Top(v), Middle(v)) == None
    ensures pt in s.pages && pt != p && s.IsRoot(r)
    ensures level == 1 ==> s.MidOf(r, Top(v)) == Some(pt)
    ensures
      var s' := if level == 2 then WithMid(s, r, Top(v), p) else WithLow(s, r, Top(v), Middle(v), p);
      && Inv(s', pool) && MapsKept(s0, s') && TablesAdded(s0, s') && Linked(s', freelist) && s'.IsRoot(r)
      && OnPath(s0, s', r, v, level - 1)
      && (level == 2 ==> s'.MidOf(r, Top(v)) == Some(p))
      && (level == 1 ==> s'.LowOf(r, Top(v), Middle(v)) == Some(p))
  {
    hide Inv, Present, Target, Flags, Leafy, Top, Middle, Bottom, Linked, OnPath;
    TablePresent(s, r, v, level, pt, pool);
    if level == 2 {
      MidOnPath(s, r, v, p, pool);
      OnPathSame(s0, s, WithMid(s, r, Top(v), p), r, v, 1);
      WithMidKeeps(s, r, Top(v), p, pool);
      LinkedKept(s, WithMid(s, r, Top(v), p), freelist, pool);
    } else {
      LowOnPath(s, r, v, p, pool);
      OnPathSame(s0, s, WithLow(s, r, Top(v), Middle(v), p), r, v, 0);
      WithLowKeeps(s, r, Top(v), Middle(v), p, pool);
      MidRole(s, r, v, pool);
      LinkedKept(s, WithLow(s, r, Top(v), Middle(v), p), freelist, pool);
    }
  }

  lemma MidRole(s: Memory, r: nat, v: nat, pool: set<nat>)
    requires Inv(s, pool) && s.IsRoot(r) && s.MidOf(r, Top(v)).Some?
    ensures s.MidOf(r, Top(v)).value in s.role && s.role[s.MidOf(r, Top(v)).value] == Mid(r, Top(v))
  {
    assert TopOk(s, r, Top(v));
  }
}
