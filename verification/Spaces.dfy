/** The address spaces of processes, built from the page-table code: proc_pagetable,
    growproc, fork's copy, proc_freepagetable, copyout and copyin. The process table
    keeps a root and a size for each; the class invariant says what that means. */
module Spaces {
  import opened Wrappers
  import opened PageTable
  import opened TableCost
  import opened Vm
  import opened UserCopy

  const TRAMPOLINE := MAXVPN - 1
  const TRAPFRAME := MAXVPN - 2
  const KERNEL := {TRAMPOLINE, TRAPFRAME}

  // ---------- what a root and a size mean ----------

  /** Page v of an address space of sz bytes in which the pages k are the kernel's: below
      the size a page of its own, nothing above, and pages not for it at k. */
  ghost predicate SpaceAt(s: Memory, r: nat, sz: nat, k: set<nat>, v: nat)
    requires s.IsRoot(r)
  {
    match s.Entry(r, v)
    case None => Pages(sz) <= v && v !in k
    case Some(e) =>
      if v < Pages(sz) then Target(e) in s.role && s.role[Target(e)] == User(r, v)
      else v in k && !ForUser(e) && !(Target(e) in s.role && s.role[Target(e)] == User(r, v))
  }

  ghost predicate Space(s: Memory, r: nat, sz: nat, k: set<nat>) {
    && s.IsRoot(r) && sz < 0x1_0000_0000 && Pages(sz) <= TRAPFRAME && k <= KERNEL
    && forall v: nat :: v < MAXVPN ==> SpaceAt(s, r, sz, k, v)
  }

  /** Every root other than `but` is the address space of a process. */
  ghost predicate Others(s: Memory, size: map<nat, nat>, but: nat) {
    forall q :: q != but ==> (s.IsRoot(q) <==> q in size) && (q in size ==> Space(s, q, size[q], KERNEL))
  }

  ghost predicate AllSpaces(s: Memory, size: map<nat, nat>) {
    forall q :: (s.IsRoot(q) <==> q in size) && (q in size ==> Space(s, q, size[q], KERNEL))
  }

  /** Root q and its user pages are as before. */
  ghost predicate SameSpace(s: Memory, s': Memory, q: nat) {
    && s.IsRoot(q) && s'.IsRoot(q)
    && (forall v: nat :: v < MAXVPN ==> s'.Entry(q, v) == s.Entry(q, v))
    && forall p :: SameUser(s, s', q, p)
  }

  ghost predicate SameUser(s: Memory, s': Memory, q: nat, p: nat) {
    && (p in s.role && s.role[p].User? && s.role[p].r == q ==>
          p in s'.role && s'.role[p] == s.role[p] && p in s.pages && p in s'.pages && s'.pages[p] == s.pages[p])
    && (p in s'.role && s'.role[p].User? && s'.role[p].r == q ==> p in s.role && s.role[p] == s'.role[p])
  }

  /** So is every root but r. */
  ghost predicate SameOthers(s: Memory, s': Memory, r: nat) {
    forall q :: q != r ==> (s.IsRoot(q) <==> s'.IsRoot(q)) && (s.IsRoot(q) ==> SameSpace(s, s', q))
  }

  /** The kernel's two pages are mapped as before. */
  ghost predicate KernelKept(s: Memory, s': Memory, q: nat) {
    && s.IsRoot(q) && s'.IsRoot(q)
    && s'.Entry(q, TRAMPOLINE) == s.Entry(q, TRAMPOLINE) && s'.Entry(q, TRAPFRAME) == s.Entry(q, TRAPFRAME)
  }

  ghost predicate MemoryKept(s: Memory, s': Memory, q: nat) {
    KernelKept(s, s', q) && forall a: nat :: UserByte(s', q, a) == UserByte(s, q, a)
  }

  /** The user memory of every process but r is as before, and so are its kernel's pages. */
  ghost predicate OthersKept(s: Memory, s': Memory, size: map<nat, nat>, r: nat) {
    forall q :: q in size && q != r ==> MemoryKept(s, s', q)
  }

  lemma SpaceKept(s: Memory, s': Memory, q: nat, sz: nat, k: set<nat>)
    requires Space(s, q, sz, k) && SameSpace(s, s', q)
    ensures Space(s', q, sz, k)
  {
    hide Target, ForUser;
    forall v: nat | v < MAXVPN ensures SpaceAt(s', q, sz, k, v) {
      assert SpaceAt(s, q, sz, k, v);
      if s.Entry(q, v).Some? {
        assert SameUser(s, s', q, Target(s.Entry(q, v).value));
      }
    }
  }

  lemma SameBytes(s: Memory, s': Memory, q: nat, sz: nat, k: set<nat>)
    requires Space(s, q, sz, k) && SameSpace(s, s', q)
    ensures MemoryKept(s, s', q)
  {
    hide Target, ForUser, ByteAt;
    forall a: nat ensures UserByte(s', q, a) == UserByte(s, q, a) {
      var v := a / PGSIZE;
      if v < MAXVPN {
        assert SpaceAt(s, q, sz, k, v);
        if s.Entry(q, v).Some? {
          assert SameUser(s, s', q, Target(s.Entry(q, v).value));
        }
      }
    }
  }

  /** One more operation on root r. */
  lemma OthersThen(s0: Memory, s: Memory, s': Memory, size: map<nat, nat>, r: nat)
    requires Others(s, size, r) && OthersKept(s0, s, size, r) && SameOthers(s, s', r)
    ensures Others(s', size, r) && OthersKept(s0, s', size, r)
  {
    hide Space, SameSpace, UserByte;
    forall q | q != r && q in size ensures Space(s', q, size[q], KERNEL) && MemoryKept(s0, s', q) {
      SpaceKept(s, s', q, size[q], KERNEL);
      SameBytes(s, s', q, size[q], KERNEL);
      assert MemoryKept(s0, s, q);
    }
  }

  lemma OthersStart(s: Memory, size: map<nat, nat>, r: nat)
    requires AllSpaces(s, size)
    ensures Others(s, size, r) && OthersKept(s, s, size, r)
  {
  }

  lemma OthersAndThis(s: Memory, size: map<nat, nat>, r: nat, sz: nat)
    requires Others(s, size, r) && Space(s, r, sz, KERNEL)
    ensures AllSpaces(s, size[r := sz])
  {
    hide SpaceAt;
  }

  lemma OthersOnly(s: Memory, size: map<nat, nat>, r: nat)
    requires Others(s, size, r) && !s.IsRoot(r)
    ensures AllSpaces(s, size - {r})
  {
    hide Space;
  }

  /** The user memory of a process is its own. */
  lemma SpacesPrivate(s: Memory, size: map<nat, nat>, pool: set<nat>)
    requires AllSpaces(s, size) && Inv(s, pool)
    ensures Private(s)
  {
    hide Target, ForUser, Inv;
    forall q, v: nat | s.IsRoot(q) ensures PrivateAt(s, q, v) {
      assert Space(s, q, size[q], KERNEL);
      if UserPage(s, q, v).Some? {
        assert SpaceAt(s, q, size[q], KERNEL, v);
        RoleInPool(s, UserPage(s, q, v).value, pool);
      }
    }
  }

  // ---------- what each operation leaves to the other processes ----------

  lemma AddedSame(s: Memory, s': Memory, r: nat, first: nat, list: Filling, pool: set<nat>)
    requires Inv(s, pool) && PagesAdded(s, s', r, first, list)
    ensures SameOthers(s, s', r)
  {
    hide Target, Present, Top, Middle, Bottom, Inv, NewAt;
    forall q, p | q != r && s.IsRoot(q) ensures SameUser(s, s', q, p) {
      if p in s.role {
        RoleInPool(s, p, pool);
      }
    }
  }

  lemma RestoredSame(s: Memory, s': Memory, r: nat, pool: set<nat>)
    requires Inv(s, pool) && Restored(s, s') && s.IsRoot(r)
    ensures SameOthers(s, s', r) && SameSpace(s, s', r)
  {
    hide Target, Present, Top, Middle, Bottom, Inv;
    forall q, p | s.IsRoot(q) ensures SameUser(s, s', q, p) {
      if p in s.role {
        RoleInPool(s, p, pool);
      }
    }
  }

  lemma UnmappedSame(s: Memory, s': Memory, r: nat, first: nat, n: nat, pool: set<nat>)
    requires Inv(s, pool) && UnmappedRange(s, s', r, first, n) && UsersGone(s, s', r, first, n)
    ensures SameOthers(s, s', r)
  {
    hide Target, Present, Top, Middle, Bottom, Inv;
    forall q, p | q != r && s.IsRoot(q) ensures SameUser(s, s', q, p) {
      if p in s.role {
        RoleInPool(s, p, pool);
      }
    }
  }

  lemma ReleasedSame(s: Memory, s': Memory, r: nat, pool: set<nat>)
    requires Inv(s, pool) && Released(s, s', r) && s.IsRoot(r)
    ensures SameOthers(s, s', r) && !s'.IsRoot(r)
  {
    hide Target, Present, Top, Middle, Bottom, Inv;
    forall q, p | q != r && s.IsRoot(q) ensures SameUser(s, s', q, p) {
      if p in s.role {
        RoleInPool(s, p, pool);
      }
    }
  }

  lemma CreatedSame(s: Memory, s': Memory, r: nat, pool: set<nat>)
    requires Inv(s, pool) && RootAdded(s, s', r)
    ensures SameOthers(s, s', r) && !s.IsRoot(r)
  {
    hide Target, Present, Top, Middle, Bottom, Inv;
    forall q, p | q != r && s.IsRoot(q) ensures SameUser(s, s', q, p) {
      if p in s.role {
        RoleInPool(s, p, pool);
      }
    }
  }

  lemma MappedSame(s: Memory, s': Memory, r: nat, first: nat, n: nat, to: nat, perm: nat, pool: set<nat>)
    requires Inv(s, pool) && TablesAdded(s, s') && MappedRange(s, s', r, first, n, to, perm)
    ensures SameOthers(s, s', r) && (n == 0 ==> SameSpace(s, s', r))
  {
    hide Target, Present, Top, Middle, Bottom, Inv, Pte;
    forall q, p | s.IsRoot(q) ensures SameUser(s, s', q, p) {
      if p in s.role {
        RoleInPool(s, p, pool);
      }
    }
  }

  // ---------- what each operation does to its own address space ----------

  lemma CreatedSpace(s: Memory, s': Memory, r: nat)
    requires RootAdded(s, s', r)
    ensures Space(s', r, 0, {})
  {
    forall v: nat | v < MAXVPN ensures SpaceAt(s', r, 0, {}, v) {
    }
  }

  /** Read and execute, and read and write, both without access for user code. */
  lemma KernelFlags(p: nat)
    requires p < PHYSLIMIT
    ensures Pte(p, PTE_R + PTE_X) == 1024 * p + 11 && Pte(p, PTE_R + PTE_W) == 1024 * p + 7
  {
  }

  lemma KernelPageMapped(s: Memory, s': Memory, r: nat, k: set<nat>, w: nat, to: nat, perm: nat, pool: set<nat>)
    requires Space(s, r, 0, k) && w in KERNEL - k && Inv(s, pool) && TablesAdded(s, s')
    requires MappedRange(s, s', r, w, 1, to, perm) && perm / 16 % 2 == 0
    ensures Space(s', r, 0, k + {w}) && s'.Entry(r, w) == Some(Pte(to, perm))
    ensures forall v: nat :: v < MAXVPN && v != w ==> s'.Entry(r, v) == s.Entry(r, v)
  {
    hide Present, Top, Middle, Bottom, ForUser, Pte, Target;
    FlagOfPte(to, perm);
    var k' := k + {w};
    forall v: nat | v < MAXVPN ensures SpaceAt(s', r, 0, k', v) {
      assert SpaceAt(s, r, 0, k, v);
      if s'.Entry(r, v).Some? {
        var q := Target(s'.Entry(r, v).value);
        assert q in s.role ==> RoleOk(s, q);
      }
    }
  }

  lemma KernelPageUnmapped(s: Memory, s': Memory, r: nat, sz: nat, k: set<nat>, w: nat)
    requires Space(s, r, sz, k) && w in k && UnmappedRange(s, s', r, w, 1) && UsersGone(s, s', r, w, 1)
    ensures Space(s', r, sz, k - {w})
  {
    hide Present, Top, Middle, Bottom, ForUser, Target;
    var k' := k - {w};
    forall v: nat | v < MAXVPN ensures SpaceAt(s', r, sz, k', v) {
      assert SpaceAt(s, r, sz, k, v);
    }
  }

  /** No user page of r lies at a kernel page, and that is mapped. */
  lemma KernelPageThere(s: Memory, r: nat, sz: nat, k: set<nat>, w: nat, pool: set<nat>)
    requires Space(s, r, sz, k) && w in k && Inv(s, pool)
    ensures !NotMapped(s, r, w) && forall p :: p in s.role ==> !UserIn(s.role[p], r, w, 1)
  {
    hide Present, Top, Middle, Bottom, ForUser, Target;
    assert SpaceAt(s, r, sz, k, w);
    forall p | p in s.role ensures !UserIn(s.role[p], r, w, 1) {
      assert RoleOk(s, p);
    }
  }

  lemma GrownSpace(s: Memory, s': Memory, r: nat, sz: nat, newsz: nat, list: Filling)
    requires Space(s, r, sz, KERNEL) && PagesAdded(s, s', r, Pages(sz), list)
    requires |list| == Pages(newsz) - Pages(sz) && newsz < 0x1_0000_0000
    ensures Space(s', r, newsz, KERNEL) && KernelKept(s, s', r)
  {
    hide Present, Top, Middle, Bottom, ForUser, Target, Pte;
    assert SpaceAt(s, r, sz, KERNEL, TRAPFRAME);
    assert NewAt(s, s', r, Pages(sz), list, TRAPFRAME);
    forall v: nat | v < MAXVPN ensures SpaceAt(s', r, newsz, KERNEL, v) {
      assert SpaceAt(s, r, sz, KERNEL, v) && NewAt(s, s', r, Pages(sz), list, v);
    }
  }

  lemma ShrunkSpace(s: Memory, s': Memory, r: nat, sz: nat, newsz: nat)
    requires Space(s, r, sz, KERNEL) && Pages(newsz) <= Pages(sz) && newsz < 0x1_0000_0000
    requires UnmappedRange(s, s', r, Pages(newsz), Pages(sz) - Pages(newsz))
    requires UsersGone(s, s', r, Pages(newsz), Pages(sz) - Pages(newsz))
    ensures Space(s', r, newsz, KERNEL) && KernelKept(s, s', r)
  {
    hide Present, Top, Middle, Bottom, ForUser, Target;
    forall v: nat | v < MAXVPN ensures SpaceAt(s', r, newsz, KERNEL, v) {
      assert SpaceAt(s, r, sz, KERNEL, v);
    }
  }

  lemma OwnPages(s: Memory, r: nat, sz: nat, k: set<nat>, first: nat, n: nat)
    requires Space(s, r, sz, k) && first + n <= Pages(sz)
    ensures AllUser(s, r, first, n)
    ensures forall w: nat :: first <= w < first + n ==> !NotMapped(s, r, w)
  {
    hide Present, Top, Middle, Bottom, Target;
    forall w: nat | w < Pages(sz) ensures s.Entry(r, w).Some? {
      assert SpaceAt(s, r, sz, k, w);
    }
    forall w: nat | w < Pages(sz) && s.Entry(r, w).Some?
      ensures Target(s.Entry(r, w).value) in s.role && s.role[Target(s.Entry(r, w).value)] == User(r, w)
    {
      assert SpaceAt(s, r, sz, k, w);
    }
  }

  /** Growing clashes only with the kernel's pages. */
  lemma ClashesAbove(s: Memory, r: nat, sz: nat, w: nat)
    requires Space(s, r, sz, KERNEL) && Pages(sz) <= w
    ensures Clash(s, r, w) <==> w >= TRAPFRAME
  {
    if w < MAXVPN {
      assert SpaceAt(s, r, sz, KERNEL, w);
    }
  }

  lemma MappedToSize(s: Memory, r: nat, sz: nat)
    requires Space(s, r, sz, {})
    ensures MappedExactly(s, r, Pages(sz))
  {
    forall w: nat | w < MAXVPN ensures NotMapped(s, r, w) <==> Pages(sz) <= w {
      assert SpaceAt(s, r, sz, {}, w);
    }
  }

  /** Below the kernel's pages a new root is empty, and so are those not mapped yet. */
  lemma NothingThere(s: Memory, r: nat, k: set<nat>, w: nat)
    requires Space(s, r, 0, k) && w in KERNEL - k
    ensures s.IsRoot(r) && !Clash(s, r, w)
  {
    assert SpaceAt(s, r, 0, k, w);
  }

  lemma OneFree(s: Memory, r: nat, w: nat)
    requires s.IsRoot(r) && !Clash(s, r, w)
    ensures UntilClash(s, r, w, 1) == 1 && MapCost(s, r, w, 1) == Cost(s, r, w)
  {
    hide Cost, TablesFor, MapCost, Clash;
    NoTables(s, r, w);
    NextCost(s, s, r, w, 0);
  }

  /** A new root lacks two tables for the trampoline, and then none for the trapframe. */
  lemma KernelCost(s: Memory, s1: Memory, r: nat)
    requires NoTablesYet(s, r)
    ensures Cost(s, r, TRAMPOLINE) == 2
    ensures TablesFor(s, s1, r, TRAMPOLINE, 1) ==> Cost(s1, r, TRAPFRAME) == 0
  {
    hide Top, Middle;
    Places(TRAMPOLINE);
    Places(TRAPFRAME);
    LowNeedsMid(s, r, TRAMPOLINE);
  }

  /** Below the kernel's pages nothing clashes with growing. */
  lemma FreeAbove(s: Memory, r: nat, sz: nat, n: nat)
    requires Space(s, r, sz, KERNEL) && Pages(sz) + n <= TRAPFRAME
    ensures UntilClash(s, r, Pages(sz), n) == n
    ensures Demand(s, r, Pages(sz), n) == n + MapCost(s, r, Pages(sz), n)
  {
    hide Space, MapCost, Clash;
    SpaceRoot(s, r, sz, KERNEL);
    forall w: nat | Pages(sz) <= w < Pages(sz) + n ensures !Clash(s, r, w) {
      ClashesAbove(s, r, sz, w);
    }
  }

  lemma SpaceRoot(s: Memory, r: nat, sz: nat, k: set<nat>)
    requires Space(s, r, sz, k)
    ensures s.IsRoot(r) && sz < 0x1_0000_0000 && Pages(sz) <= TRAPFRAME
  {
  }

  lemma WholePage(w: nat, to: nat)
    ensures PageCount(w * PGSIZE, PGSIZE) == 1 && w * PGSIZE / PGSIZE == w && to * PGSIZE / PGSIZE == to
    ensures w * PGSIZE % PGSIZE == 0
  {
  }

  lemma NotYet(s: Memory, size: map<nat, nat>, r: nat)
    requires AllSpaces(s, size) && !s.IsRoot(r)
    ensures r !in size
  {
  }

  /** A root that was made and released again leaves everything as it was. */
  lemma NoneBuilt(s: Memory, s': Memory, size: map<nat, nat>, r: nat)
    requires Others(s', size, r) && OthersKept(s, s', size, r) && !s'.IsRoot(r) && r !in size
    ensures AllSpaces(s', size) && OthersKept(s, s', size, 0)
  {
    hide Space, MemoryKept;
  }

  lemma InOrder(s: Memory, size: map<nat, nat>, r: nat)
    requires AllSpaces(s, size) && r in size
    ensures Space(s, r, size[r], KERNEL)
  {
  }

  lemma PagesMonotone(a: nat, b: nat)
    ensures a <= b ==> Pages(a) <= Pages(b)
    ensures Pages(a) < Pages(b) ==> a < b
  {
  }

  lemma SamePagesSpace(s: Memory, r: nat, sz: nat, sz': nat)
    requires Space(s, r, sz, KERNEL) && Pages(sz') == Pages(sz) && sz' < 0x1_0000_0000
    ensures Space(s, r, sz', KERNEL)
  {
    forall v: nat | v < MAXVPN ensures SpaceAt(s, r, sz', KERNEL, v) {
      assert SpaceAt(s, r, sz, KERNEL, v);
    }
  }

  /** uvmcopy finds every page of the parent, and nothing in the child. */
  lemma NoPanic(s: Memory, parent: nat, child: nat, sz: nat)
    requires Space(s, parent, sz, KERNEL) && Space(s, child, 0, KERNEL)
    ensures UntilGap(s, parent, child, 0, Pages(sz)) == Pages(sz)
    ensures CopyDemand(s, parent, child, Pages(sz)) == Pages(sz) + MapCost(s, child, 0, Pages(sz))
  {
    hide MapCost;
    forall w: nat | w < Pages(sz) ensures !Clash(s, child, w) && !NotMapped(s, parent, w) {
      assert SpaceAt(s, parent, sz, KERNEL, w) && SpaceAt(s, child, 0, KERNEL, w);
    }
  }

  // ---------- bytes ----------

  /** The byte at a after the size of r went from sz to newsz: new memory reads as zero. */
  ghost function Resized(s: Memory, r: nat, sz: nat, newsz: nat, a: nat): Option<Byte>
    requires s.IsRoot(r)
  {
    if a / PGSIZE >= Pages(newsz) then None
    else if a / PGSIZE < Pages(sz) then UserByte(s, r, a)
    else Some(0)
  }

  lemma {:induction false} DigitZero(i: nat)
    ensures Digit(0, i) == 0
    decreases i
  {
    if i > 0 {
      DigitZero(i - 1);
    }
  }

  lemma GrownBytes(s: Memory, s': Memory, r: nat, sz: nat, newsz: nat, a: nat, pool: set<nat>)
    requires Space(s, r, sz, KERNEL) && Space(s', r, newsz, KERNEL) && Inv(s, pool) && Pages(sz) <= Pages(newsz)
    requires PagesAdded(s, s', r, Pages(sz), Zeroed(Pages(newsz) - Pages(sz)))
    ensures UserByte(s', r, a) == Resized(s, r, sz, newsz, a)
  {
    hide Present, Top, Middle, Bottom, ForUser, Target, Pte, Inv;
    var v := a / PGSIZE;
    if v < MAXVPN {
      assert SpaceAt(s, r, sz, KERNEL, v) && SpaceAt(s', r, newsz, KERNEL, v);
      if v < Pages(sz) {
        RoleInPool(s, Target(s.Entry(r, v).value), pool);
      } else if v < Pages(newsz) {
        assert NewAt(s, s', r, Pages(sz), Zeroed(Pages(newsz) - Pages(sz)), v);
        FlagOfPte(Target(s'.Entry(r, v).value), USERFLAGS);
        DigitZero(a % PGSIZE % 8);
      }
    }
  }

  lemma ShrunkBytes(s: Memory, s': Memory, r: nat, sz: nat, newsz: nat, a: nat, pool: set<nat>)
    requires Space(s, r, sz, KERNEL) && Space(s', r, newsz, KERNEL) && Inv(s, pool) && Pages(newsz) <= Pages(sz)
    requires UnmappedRange(s, s', r, Pages(newsz), Pages(sz) - Pages(newsz))
    requires UsersGone(s, s', r, Pages(newsz), Pages(sz) - Pages(newsz))
    ensures UserByte(s', r, a) == Resized(s, r, sz, newsz, a)
  {
    hide Present, Top, Middle, Bottom, ForUser, Target, Inv, ByteAt;
    var v := a / PGSIZE;
    if v < MAXVPN {
      assert SpaceAt(s, r, sz, KERNEL, v) && SpaceAt(s', r, newsz, KERNEL, v);
      if v < Pages(newsz) {
        RoleInPool(s, Target(s.Entry(r, v).value), pool);
      }
    }
  }

  lemma FlagsForUser(e: Word, p: nat)
    requires p < PHYSLIMIT
    ensures ForUser(Pte(p, Flags(e))) <==> ForUser(e)
  {
    hide Pte;
    FlagOfPte(p, Flags(e));
    FlagBit(e / 1024, e % 1024);
  }

  /** After uvmcopy the child reads what the parent does, everywhere. */
  lemma CopiedBytes(s: Memory, s': Memory, parent: nat, child: nat, sz: nat, a: nat, pool: set<nat>)
    requires Space(s, parent, sz, KERNEL) && Space(s', child, sz, KERNEL) && Inv(s, pool)
    requires PagesAdded(s, s', child, 0, CopyOf(s, parent, Pages(sz)))
    ensures UserByte(s', child, a) == UserByte(s, parent, a)
  {
    hide Present, Top, Middle, Bottom, ForUser, Target, Pte, Inv, Flags, ByteAt;
    var v := a / PGSIZE;
    if v < MAXVPN {
      assert SpaceAt(s, parent, sz, KERNEL, v) && SpaceAt(s', child, sz, KERNEL, v);
      if v < Pages(sz) {
        assert NewAt(s, s', child, 0, CopyOf(s, parent, Pages(sz)), v);
        var e := s.Entry(parent, v).value;
        RoleInPool(s, Target(e), pool);
        FlagsForUser(e, Target(s'.Entry(child, v).value));
      }
    }
  }

  /** copyout moves no page. */
  lemma WroteSpaces(s: Memory, s': Memory, r: nat, va: nat, bytes: seq<Byte>, size: map<nat, nat>, pool: set<nat>)
    requires AllSpaces(s, size) && Wrote(s, s', r, va, bytes) && Inv(s', pool)
    ensures AllSpaces(s', size)
  {
    hide Target, ForUser, UserByte, Inv;
    forall q | q in size ensures Space(s', q, size[q], KERNEL) {
      assert Space(s, q, size[q], KERNEL);
      forall v: nat | v < MAXVPN ensures SpaceAt(s', q, size[q], KERNEL, v) {
        assert SpaceAt(s, q, size[q], KERNEL, v);
      }
    }
  }

  /** What user code reaches lies within the pages of its size. */
  lemma ReachedInSize(s: Memory, r: nat, sz: nat, va: nat, len: nat)
    requires Space(s, r, sz, KERNEL) && AllReached(s, r, va, len) && len > 0
    ensures va + len <= Pages(sz) * PGSIZE
  {
    hide Target, ForUser;
    var v := (va + len - 1) / PGSIZE;
    assert Touches(va, len, v);
    assert SpaceAt(s, r, sz, KERNEL, v);
  }

  lemma SamePagesBytes(s: Memory, r: nat, sz: nat, sz': nat, a: nat)
    requires Space(s, r, sz, KERNEL) && Pages(sz') == Pages(sz)
    ensures UserByte(s, r, a) == Resized(s, r, sz, sz', a)
  {
    hide Target, ForUser, ByteAt;
    if a / PGSIZE < MAXVPN {
      assert SpaceAt(s, r, sz, KERNEL, a / PGSIZE);
    }
  }

  lemma WroteOthers(s: Memory, s': Memory, r: nat, va: nat, bytes: seq<Byte>, size: map<nat, nat>)
    requires AllSpaces(s, size) && Wrote(s, s', r, va, bytes)
    ensures OthersKept(s, s', size, r) && KernelKept(s, s', r)
  {
    hide UserByte, Space;
    forall q | q in size && q != r ensures MemoryKept(s, s', q) {
      assert s.IsRoot(q);
    }
  }

  lemma SameReach(s: Memory, s': Memory, r: nat, va: nat, bytes: seq<Byte>, len: nat)
    requires Wrote(s, s', r, va, bytes) && s.IsRoot(r) && s'.IsRoot(r)
    ensures AllReached(s, r, va, len) <==> AllReached(s', r, va, len)
  {
    hide UserPage;
    forall v: nat ensures UserPage(s', r, v) == UserPage(s, r, v) {
      SamePages(s, s', r, va, bytes, v);
    }
  }

  // ---------- the process table's side ----------

  function Larger(a: nat, b: nat): nat {
    if b < a then a else b
  }

  function Smaller(a: nat, b: nat): nat {
    if b < a then b else a
  }

  /** Free pages that growing from sz to newsz takes: the new pages and their tables. */
  ghost function GrowCost(s: Memory, r: nat, sz: nat, newsz: nat): nat
    requires s.IsRoot(r) && sz <= newsz
  {
    PagesMonotone(sz, newsz);
    var n := Pages(newsz) - Pages(sz);
    n + MapCost(s, r, Pages(sz), n)
  }

  /** The size growproc leaves: sums are 32-bit, and a sum that wraps changes nothing. */
  function GrownSize(sz: nat, n: int): nat {
    if 0 <= sz + n < 0x1_0000_0000 then sz + n else sz
  }

  class Spaces {
    const m: Machine
    var size: map<nat, nat>

    /** Every root is a process's, maps exactly the pages of its size, all its own, and
        the kernel's two pages. */
    ghost predicate Valid()
      reads this, m
    {
      m.Valid() && AllSpaces(m.View(), size)
    }

    constructor (end: nat, top: nat, mem: map<nat, Page>)
      requires 0 < end && top < PHYSLIMIT && forall p :: end <= p < top ==> p in mem
      ensures Valid() && fresh(m) && size == map[]
    {
      m := new Machine(end, top, mem);
      size := map[];
    }

    /** Root r is being set up or taken down; all other address spaces are in order, and
        their bytes are those of s. */
    ghost predicate Building(s: Memory, r: nat, sz: nat, k: set<nat>)
      reads this, m
    {
      m.Valid() && Others(m.View(), size, r) && OthersKept(s, m.View(), size, r) && Space(m.View(), r, sz, k)
    }

    method MapKernelPage(ghost s: Memory, r: nat, ghost k: set<nat>, w: nat, to: nat, perm: nat) returns (ok: bool)
      requires Building(s, r, 0, k) && w in KERNEL - k && to < PHYSLIMIT && perm in {PTE_R + PTE_X, PTE_R + PTE_W}
      modifies m`mem, m`freelist, m`free, m`role
      ensures Building(s, r, 0, if ok then k + {w} else k)
      ensures old(m.View()).IsRoot(r) && (ok <==> |old(m.free)| >= Cost(old(m.View()), r, w))
      ensures ok ==>
                && TablesFor(old(m.View()), m.View(), r, w, 1)
                && |m.free| + Cost(old(m.View()), r, w) == |old(m.free)|
                && m.View().IsRoot(r) && m.View().Entry(r, w) == Some(Pte(to, perm))
                && forall v: nat :: v < MAXVPN && v != w ==> m.View().Entry(r, v) == old(m.View()).Entry(r, v)
    {
      hide Inv, Linked, MappedRange, TablesAdded, Space, Others, OthersKept, SameOthers;
      hide Cost, MapCost, TablesFor, UntilClash, Clash, Pte;
      ghost var s1 := m.View();
      NothingThere(s1, r, k, w);
      WholePage(w, to);
      OneFree(s1, r, w);
      var res;
      ghost var done;
      res, done := m.Mappages(r, w * PGSIZE, PGSIZE, to * PGSIZE, perm);
      MappedSame(s1, m.View(), r, w, done, to, perm, m.pool);
      OthersThen(s, s1, m.View(), size, r);
      if res.Mapped? {
        KernelPageMapped(s1, m.View(), r, k, w, to, perm, m.pool);
        SpaceRoot(m.View(), r, 0, k + {w});
        return true;
      }
      SpaceKept(s1, m.View(), r, 0, k);
      return false;
    }

    method UnmapKernelPage(ghost s: Memory, r: nat, ghost sz: nat, ghost k: set<nat>, w: nat) returns (ok: bool)
      requires Building(s, r, sz, k) && w in k && w in KERNEL
      modifies m`mem, m`freelist, m`free, m`role
      ensures ok && Building(s, r, sz, k - {w})
    {
      hide Inv, Linked, UnmappedRange, UsersGone, Space, Others, OthersKept, SameOthers, NotMapped, UserIn;
      ghost var s1 := m.View();
      SpaceRoot(s1, r, sz, k);
      KernelPageThere(s1, r, sz, k, w, m.pool);
      WholePage(w, 0);
      ghost var done;
      ok, done := m.Uvmunmap(r, w * PGSIZE, 1, false);
      UnmappedSame(s1, m.View(), r, w, 1, m.pool);
      OthersThen(s, s1, m.View(), size, r);
      KernelPageUnmapped(s1, m.View(), r, sz, k, w);
    }

    method ReleaseSpace(ghost s: Memory, r: nat, sz: nat) returns (ok: bool)
      requires Building(s, r, sz, {})
      modifies m`mem, m`freelist, m`free, m`role
      ensures ok && m.Valid() && Others(m.View(), size, r) && OthersKept(s, m.View(), size, r) && !m.View().IsRoot(r)
    {
      hide Inv, Linked, Released, Space, Others, OthersKept, SameOthers, AllUser, MappedExactly;
      ghost var s1 := m.View();
      SpaceRoot(s1, r, sz, {});
      OwnPages(s1, r, sz, {}, 0, Pages(sz));
      MappedToSize(s1, r, sz);
      ok := m.Uvmfree(r, sz);
      ReleasedSame(s1, m.View(), r, m.pool);
      OthersThen(s, s1, m.View(), size, r);
    }

    /** proc_pagetable: an empty address space with the kernel's two pages, or 0 exactly
        when there are not three pages for its tables. */
    method ProcPagetable(trampoline: nat, trapframe: nat) returns (r: nat)
      requires Valid() && trampoline < PHYSLIMIT && trapframe < PHYSLIMIT
      modifies this`size, m`mem, m`freelist, m`free, m`role
      ensures Valid() && OthersKept(old(m.View()), m.View(), old(size), r)
      ensures r == 0 <==> |old(m.free)| < 3
      ensures r == 0 ==> size == old(size)
      ensures r != 0 ==> r !in old(size) && size == old(size)[r := 0]
      ensures r != 0 ==> m.View().IsRoot(r) && m.View().Entry(r, TRAMPOLINE) == Some(Pte(trampoline, PTE_R + PTE_X))
      ensures r != 0 ==> m.View().IsRoot(r) && m.View().Entry(r, TRAPFRAME) == Some(Pte(trapframe, PTE_R + PTE_W))
      ensures r != 0 ==> m.View().IsRoot(r) && m.View().Entry(r, 0x3FF_FFFF) == Some(1024 * trampoline + 11)
      ensures r != 0 ==> m.View().IsRoot(r) && m.View().Entry(r, 0x3FF_FFFE) == Some(1024 * trapframe + 7)
    {
      hide Pte, Inv, Linked, RootAdded, Space, Others, OthersKept, SameOthers, AllSpaces, Cost, TablesFor, NoTablesYet;
      KernelFlags(trampoline);
      KernelFlags(trapframe);
      ghost var s := m.View();
      r := m.Uvmcreate();
      if r == 0 {
        OthersStart(s, size, r);
        return;
      }
      OthersStart(s, size, r);
      CreatedSame(s, m.View(), r, m.pool);
      NotYet(s, size, r);
      CreatedSpace(s, m.View(), r);
      OthersThen(s, s, m.View(), size, r);
      ghost var s1 := m.View();
      var ok := MapKernelPage(s, r, {}, TRAMPOLINE, trampoline, PTE_R + PTE_X);
      KernelCost(s1, m.View(), r);
      if !ok {
        ok := ReleaseSpace(s, r, 0);
        NoneBuilt(s, m.View(), size, r);
        return 0;
      }
      assert {} + {TRAMPOLINE} == {TRAMPOLINE};
      r := FinishPagetable(s, r, trapframe);
    }

    /** The rest of proc_pagetable, with the trampoline mapped. */
    method FinishPagetable(ghost s: Memory, r: nat, trapframe: nat) returns (done: nat)
      requires Building(s, r, 0, {TRAMPOLINE}) && r !in size && r != 0 && trapframe < PHYSLIMIT
      modifies this`size, m`mem, m`freelist, m`free, m`role
      ensures Valid() && OthersKept(s, m.View(), old(size), done) && old(m.View()).IsRoot(r)
      ensures done == if |old(m.free)| < Cost(old(m.View()), r, TRAPFRAME) then 0 else r
      ensures size == if done == 0 then old(size) else old(size)[r := 0]
      ensures done != 0 ==> m.View().IsRoot(r) && m.View().Entry(r, TRAMPOLINE) == old(m.View()).Entry(r, TRAMPOLINE)
      ensures done != 0 ==> m.View().IsRoot(r) && m.View().Entry(r, TRAPFRAME) == Some(Pte(trapframe, PTE_R + PTE_W))
    {
      hide Pte, Inv, Linked, Space, Others, OthersKept, SameOthers, AllSpaces, Cost, TablesFor;
      var ok := MapKernelPage(s, r, {TRAMPOLINE}, TRAPFRAME, trapframe, PTE_R + PTE_W);
      if !ok {
        ok := UnmapKernelPage(s, r, 0, {TRAMPOLINE}, TRAMPOLINE);
        assert {TRAMPOLINE} - {TRAMPOLINE} == {};
        ok := ReleaseSpace(s, r, 0);
        NoneBuilt(s, m.View(), size, r);
        return 0;
      }
      assert {TRAMPOLINE} + {TRAPFRAME} == KERNEL;
      OthersAndThis(m.View(), size, r, 0);
      size := size[r := 0];
      return r;
    }

    /** proc_freepagetable: none of its three calls panics. */
    method FreePagetable(r: nat) returns (ok: bool)
      requires Valid() && r in size
      modifies this`size, m`mem, m`freelist, m`free, m`role
      ensures ok && Valid() && size == old(size) - {r} && OthersKept(old(m.View()), m.View(), old(size), r)
    {
      hide Inv, Linked, Space, Others, OthersKept, SameOthers;
      ghost var s, sz := m.View(), size[r];
      OthersStart(s, size, r);
      ok := UnmapKernelPage(s, r, sz, KERNEL, TRAMPOLINE);
      ok := UnmapKernelPage(s, r, sz, KERNEL - {TRAMPOLINE}, TRAPFRAME);
      assert KERNEL - {TRAMPOLINE} - {TRAPFRAME} == {};
      ok := ReleaseSpace(s, r, size[r]);
      OthersOnly(m.View(), size, r);
      size := size - {r};
    }

    /** growproc. Memory below the smaller size keeps its bytes, new memory is zero, and
        nothing else changes. It never panics; it fails exactly when it grows, without a
        wrap, and there is no memory for the new pages and their tables. */
    method Growproc(r: nat, n: int) returns (ok: bool)
      requires Valid() && r in size && -0x8000_0000 <= n < 0x8000_0000
      modifies this`size, m`mem, m`freelist, m`free, m`role
      ensures Valid() && OthersKept(old(m.View()), m.View(), old(size), r) && KernelKept(old(m.View()), m.View(), r)
      ensures !ok <==>
                && n > 0 && old(size)[r] + n < 0x1_0000_0000
                && |old(m.free)| < GrowCost(old(m.View()), r, old(size)[r], old(size)[r] + n)
      ensures ok ==> size == old(size)[r := GrownSize(old(size)[r], n)]
      ensures ok && 0 <= old(size)[r] + n < 0x1_0000_0000 ==> size[r] == old(size)[r] + n
      ensures ok && !(0 <= old(size)[r] + n < 0x1_0000_0000) ==> size == old(size)
      ensures ok ==> forall a: nat ::
                UserByte(m.View(), r, a) == Resized(old(m.View()), r, old(size)[r], GrownSize(old(size)[r], n), a)
      ensures !ok ==> size == old(size) && MemoryKept(old(m.View()), m.View(), r)
    {
      hide Inv, Linked, Space, Others, OthersKept, SameOthers, AllSpaces, Resized, UserByte, GrowCost;
      ghost var s := m.View();
      ghost var sz := size[r];
      InOrder(s, size, r);
      SpaceRoot(s, r, sz, KERNEL);
      if n > 0 {
        ok := Grow(r, (size[r] + n) % 0x1_0000_0000);
      } else if n < 0 {
        ok := true;
        Shrink(r, (size[r] + n) % 0x1_0000_0000);
      } else {
        ok := true;
        KeepSize(r);
      }
    }

    /** growproc's first branch: uvmalloc up to newsz. */
    method Grow(r: nat, newsz: nat) returns (ok: bool)
      requires Valid() && r in size && newsz < 0x1_0000_0000 && newsz != size[r]
      modifies this`size, m`mem, m`freelist, m`free, m`role
      ensures Valid() && OthersKept(old(m.View()), m.View(), old(size), r) && KernelKept(old(m.View()), m.View(), r)
      ensures !ok <==> newsz > old(size)[r] && |old(m.free)| < GrowCost(old(m.View()), r, old(size)[r], newsz)
      ensures ok ==> size == old(size)[r := Larger(old(size)[r], newsz)]
      ensures ok ==> forall a: nat ::
                UserByte(m.View(), r, a) == Resized(old(m.View()), r, old(size)[r], Larger(old(size)[r], newsz), a)
      ensures !ok ==> size == old(size) && MemoryKept(old(m.View()), m.View(), r)
    {
      hide Inv, Linked, Space, Others, OthersKept, SameOthers, AllSpaces, PagesAdded, Restored, Zeroed;
      hide Resized, UserByte, MemoryKept, UntilClash, Demand, MapCost;
      ghost var s, sz := m.View(), size[r];
      InOrder(s, size, r);
      SpaceRoot(s, r, sz, KERNEL);
      OthersStart(s, size, r);
      PagesMonotone(sz, newsz);
      if newsz >= sz {
        FreeAbove(s, r, sz, Pages(newsz) - Pages(sz));
      }
      var panic, got;
      ghost var failed;
      panic, got, failed := m.Uvmalloc(r, size[r], newsz);
      if got == 0 {
        RestoredSame(s, m.View(), r, m.pool);
        OthersThen(s, s, m.View(), size, r);
        SpaceKept(s, m.View(), r, sz, KERNEL);
        SameBytes(s, m.View(), r, sz, KERNEL);
        OthersAndThis(m.View(), size, r, sz);
        assert size[r := sz] == size;
        return false;
      }
      if newsz < size[r] {
        KeepSize(r);
        return true;
      }
      AddedSame(s, m.View(), r, Pages(sz), Zeroed(Pages(newsz) - Pages(sz)), m.pool);
      OthersThen(s, s, m.View(), size, r);
      GrownSpace(s, m.View(), r, sz, newsz, Zeroed(Pages(newsz) - Pages(sz)));
      SpaceRoot(m.View(), r, newsz, KERNEL);
      OthersAndThis(m.View(), size, r, newsz);
      forall a: nat ensures UserByte(m.View(), r, a) == Resized(s, r, sz, newsz, a) {
        GrownBytes(s, m.View(), r, sz, newsz, a, m.pool);
      }
      size := size[r := got];
      return true;
    }

    /** growproc's second branch: uvmdealloc down to newsz. */
    method Shrink(r: nat, newsz: nat)
      requires Valid() && r in size && newsz < 0x1_0000_0000
      modifies this`size, m`mem, m`freelist, m`free, m`role
      ensures Valid() && OthersKept(old(m.View()), m.View(), old(size), r) && KernelKept(old(m.View()), m.View(), r)
      ensures size == old(size)[r := Smaller(old(size)[r], newsz)]
      ensures forall a: nat ::
                UserByte(m.View(), r, a) == Resized(old(m.View()), r, old(size)[r], Smaller(old(size)[r], newsz), a)
    {
      hide Inv, Linked, Space, Others, OthersKept, SameOthers, AllSpaces, UnmappedRange, UsersGone, AllUser, NotMapped;
      hide Resized, UserByte;
      ghost var s, sz := m.View(), size[r];
      InOrder(s, size, r);
      SpaceRoot(s, r, sz, KERNEL);
      OthersStart(s, size, r);
      if Pages(newsz) <= Pages(sz) {
        OwnPages(s, r, sz, KERNEL, Pages(newsz), Pages(sz) - Pages(newsz));
      }
      var ok, got := m.Uvmdealloc(r, size[r], newsz);
      if Pages(newsz) >= Pages(sz) {
        SamePagesSpace(s, r, sz, got);
        forall a: nat ensures UserByte(s, r, a) == Resized(s, r, sz, got, a) {
          SamePagesBytes(s, r, sz, got, a);
        }
      } else {
        PagesMonotone(sz, newsz);
        UnmappedSame(s, m.View(), r, Pages(newsz), Pages(sz) - Pages(newsz), m.pool);
        OthersThen(s, s, m.View(), size, r);
        ShrunkSpace(s, m.View(), r, sz, newsz);
        SpaceRoot(m.View(), r, newsz, KERNEL);
        forall a: nat ensures UserByte(m.View(), r, a) == Resized(s, r, sz, newsz, a) {
          ShrunkBytes(s, m.View(), r, sz, newsz, a, m.pool);
        }
      }
      OthersAndThis(m.View(), size, r, got);
      size := size[r := got];
    }

    lemma KeepSize(r: nat)
      requires Valid() && r in size
      ensures size == size[r := size[r]] && OthersKept(m.View(), m.View(), size, r)
      ensures m.View().IsRoot(r) && size[r] < 0x1_0000_0000
      ensures forall a: nat :: UserByte(m.View(), r, a) == Resized(m.View(), r, size[r], size[r], a)
    {
      hide Space, UserByte, Resized, m.Valid;
      InOrder(m.View(), size, r);
      SpaceRoot(m.View(), r, size[r], KERNEL);
      OthersStart(m.View(), size, r);
      forall a: nat ensures UserByte(m.View(), r, a) == Resized(m.View(), r, size[r], size[r], a) {
        SamePagesBytes(m.View(), r, size[r], size[r], a);
      }
    }

    /** fork's copy into a child that has no memory yet: afterwards the child reads at
        every address what the parent does. It never panics, and fails exactly when there
        is no memory for the pages and their tables. */
    method CopySpace(parent: nat, child: nat) returns (ok: bool)
      requires Valid() && parent in size && child in size && parent != child && size[child] == 0
      modifies this`size, m`mem, m`freelist, m`free, m`role
      ensures Valid() && OthersKept(old(m.View()), m.View(), old(size), child)
      ensures KernelKept(old(m.View()), m.View(), child)
      ensures ok <==> |old(m.free)| >= GrowCost(old(m.View()), child, 0, old(size)[parent])
      ensures size == if ok then old(size)[child := old(size)[parent]] else old(size)
      ensures ok ==> forall a: nat :: UserByte(m.View(), child, a) == UserByte(old(m.View()), parent, a)
    {
      hide Inv, Linked, Space, Others, OthersKept, SameOthers, AllSpaces, PagesAdded, Restored, Clash, AllUser;
      hide UserByte, CopyOf, NotMapped, UntilGap, CopyDemand, MapCost;
      ghost var s, sz := m.View(), size[parent];
      InOrder(s, size, parent);
      InOrder(s, size, child);
      SpaceRoot(s, parent, sz, KERNEL);
      SpaceRoot(s, child, 0, KERNEL);
      OthersStart(s, size, child);
      OwnPages(s, parent, sz, KERNEL, 0, Pages(sz));
      var panic;
      NoPanic(s, parent, child, sz);
      panic, ok := m.Uvmcopy(parent, child, size[parent]);
      if ok {
        AddedSame(s, m.View(), child, 0, CopyOf(s, parent, Pages(sz)), m.pool);
        OthersThen(s, s, m.View(), size, child);
        GrownSpace(s, m.View(), child, 0, sz, CopyOf(s, parent, Pages(sz)));
        SpaceRoot(m.View(), child, sz, KERNEL);
        OthersAndThis(m.View(), size, child, sz);
        forall a: nat ensures UserByte(m.View(), child, a) == UserByte(s, parent, a) {
          CopiedBytes(s, m.View(), parent, child, sz, a, m.pool);
        }
        size := size[child := size[parent]];
      } else {
        RestoredSame(s, m.View(), child, m.pool);
        OthersThen(s, s, m.View(), size, child);
        SpaceKept(s, m.View(), child, 0, KERNEL);
        OthersAndThis(m.View(), size, child, 0);
        assert size[child := 0] == size;
      }
    }

    /** copyout, then copyin of the same range: the bytes come back, and a range the
        process does not have is refused. */
    method PutAndGet(r: nat, va: nat, src: seq<Byte>) returns (ok: bool, out: seq<Byte>)
      requires Valid() && r in size
      modifies m`mem, m`freelist, m`free, m`role
      ensures Valid() && OthersKept(old(m.View()), m.View(), size, r) && KernelKept(old(m.View()), m.View(), r)
      ensures ok ==> out == src && (src == [] || va + |src| <= Pages(size[r]) * PGSIZE)
      ensures old(m.View()).IsRoot(r) && (ok <==> AllReached(old(m.View()), r, va, |src|))
    {
      hide Inv, Linked, Space, AllSpaces, OthersKept, Private, Wrote, AllReached, Reads, UserByte;
      ghost var s := m.View();
      InOrder(s, size, r);
      SpaceRoot(s, r, size[r], KERNEL);
      SpacesPrivate(s, size, m.pool);
      ghost var done;
      ok, done := Copyout(m, r, va, src);
      ghost var s1 := m.View();
      WroteSpaces(s, s1, r, va, src[..done], size, m.pool);
      WroteOthers(s, s1, r, va, src[..done], size);
      RootKept(s, s1, r, va, src[..done]);
      if !ok {
        return false, [];
      }
      if src != [] {
        ReachedInSize(s, r, size[r], va, |src|);
      }
      SameReach(s, s1, r, va, src[..done], |src|);
      ok, out := Copyin(m, r, va, |src|);
      assert src[..done] == src;
      CopyBack(s, s1, r, va, src, out);
    }
  }
}
