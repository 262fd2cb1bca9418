/** copyout and copyin: the bytes of user memory behind the page tables. */
module UserCopy {
  import opened Wrappers
  import opened PageTable
  import opened Vm

  type Byte = b: int | 0 <= b < 256

  // ---------- bytes of a page ----------

  /** Little-endian bytes as a number. */
  function Load(bs: seq<Byte>): nat {
    if bs == [] then 0 else bs[0] + 256 * Load(bs[1..])
  }

  function Digit(w: nat, i: nat): Byte
    decreases i
  {
    if i == 0 then w % 256 else Digit(w / 256, i - 1)
  }

  function Pow(n: nat): nat {
    if n == 0 then 1 else 256 * Pow(n - 1)
  }

  lemma {:induction false} LoadDigit(bs: seq<Byte>, i: nat)
    requires i < |bs|
    ensures Digit(Load(bs), i) == bs[i]
    decreases i
  {
    var rest := Load(bs[1..]);
    assert (bs[0] + 256 * rest) % 256 == bs[0] && (bs[0] + 256 * rest) / 256 == rest;
    if i > 0 {
      LoadDigit(bs[1..], i - 1);
    }
  }

  lemma {:induction false} LoadBound(bs: seq<Byte>)
    ensures Load(bs) < Pow(|bs|)
    decreases bs
  {
    if bs != [] {
      LoadBound(bs[1..]);
    }
  }

  lemma PowEight(n: nat)
    requires n == 8
    ensures Pow(n) == 0x1_0000_0000_0000_0000
  {
    assert Pow(n) == 256 * Pow(n - 1) && Pow(n - 1) == 256 * Pow(n - 2) && Pow(n - 2) == 256 * Pow(n - 3);
    assert Pow(n - 3) == 256 * Pow(n - 4) && Pow(n - 4) == 256 * Pow(n - 5) && Pow(n - 5) == 256 * Pow(n - 6);
    assert Pow(n - 6) == 256 * Pow(n - 7) && Pow(n - 7) == 256 * Pow(n - 8);
  }

  function ByteAt(p: Page, k: nat): Byte
    requires k < PGSIZE
  {
    Digit(p[k / 8], k % 8)
  }

  function WordOf(bs: seq<Byte>, i: nat): (w: Word)
    requires |bs| == PGSIZE && i < NPTE
  {
    LoadBound(bs[8 * i..8 * i + 8]);
    PowEight(|bs[8 * i..8 * i + 8]|);
    Load(bs[8 * i..8 * i + 8])
  }

  function FromBytes(bs: seq<Byte>): (p: Page)
    requires |bs| == PGSIZE
  {
    seq(NPTE, i requires 0 <= i < NPTE => WordOf(bs, i))
  }

  function Digits(w: nat, n: nat): (bs: seq<Byte>)
    ensures |bs| == n
  {
    seq(n, i requires 0 <= i < n => Digit(w, i))
  }

  lemma {:induction false} LoadDigits(w: nat, n: nat)
    requires w < Pow(n)
    ensures Load(Digits(w, n)) == w
  {
    if n > 0 {
      LoadDigits(w / 256, n - 1);
      assert Digits(w, n)[1..] == Digits(w / 256, n - 1);
    }
  }

  function ToBytes(p: Page): (bs: seq<Byte>)
    ensures |bs| == PGSIZE
  {
    seq(PGSIZE, k requires 0 <= k < PGSIZE => ByteAt(p, k))
  }

  /** A page is determined by its bytes, */
  lemma WordsBack(p: Page)
    ensures FromBytes(ToBytes(p)) == p
  {
    forall i | 0 <= i < NPTE ensures WordOf(ToBytes(p), i) == p[i] {
      var bs := ToBytes(p)[8 * i..8 * i + 8];
      assert bs == Digits(p[i], 8);
      PowEight(8);
      LoadDigits(p[i], 8);
    }
  }

  /** and can hold any bytes. */
  lemma BytesBack(bs: seq<Byte>, k: nat)
    requires |bs| == PGSIZE && k < PGSIZE
    ensures ByteAt(FromBytes(bs), k) == bs[k]
  {
    var i, j := k / 8, k % 8;
    LoadDigit(bs[8 * i..8 * i + 8], j);
    assert bs[8 * i..8 * i + 8][j] == bs[8 * i + j];
  }

  /** memmove of src into the page at off. */
  function Splice(p: Page, off: nat, src: seq<Byte>): (p': Page)
    requires off + |src| <= PGSIZE
  {
    FromBytes(seq(PGSIZE, k requires 0 <= k < PGSIZE => if off <= k < off + |src| then src[k - off] else ByteAt(p, k)))
  }

  lemma SpliceByte(p: Page, off: nat, src: seq<Byte>, k: nat)
    requires off + |src| <= PGSIZE && k < PGSIZE
    ensures ByteAt(Splice(p, off, src), k) == if off <= k < off + |src| then src[k - off] else ByteAt(p, k)
  {
    hide ByteAt, FromBytes;
    var bs := seq(PGSIZE, k requires 0 <= k < PGSIZE => if off <= k < off + |src| then src[k - off] else ByteAt(p, k));
    BytesBack(bs, k);
  }

  // ---------- user memory ----------

  /** PTE_U. */
  predicate ForUser(e: Word) {
    e / 16 % 2 == 1
  }

  /** The page that user code of root r reaches at page number v. */
  ghost function UserPage(s: Memory, r: nat, v: nat): Option<nat>
    requires s.IsRoot(r)
  {
    if v < MAXVPN && s.Entry(r, v).Some? && ForUser(s.Entry(r, v).value) then Some(Target(s.Entry(r, v).value))
        else None
  }

  ghost function UserByte(s: Memory, r: nat, va: nat): Option<Byte>
    requires s.IsRoot(r)
  {
    match UserPage(s, r, va / PGSIZE)
    case None => None
    case Some(p) => if p in s.pages then Some(ByteAt(s.pages[p], va % PGSIZE)) else None
  }

  ghost predicate PrivateAt(s: Memory, r: nat, v: nat)
    requires s.IsRoot(r)
  {
    UserPage(s, r, v).Some? ==>
      var p := UserPage(s, r, v).value;
      p in s.role && s.role[p] == User(r, v) && p in s.pages
  }

  /** What user code reaches is its own memory, in every address space. */
  ghost predicate Private(s: Memory) {
    forall r, v: nat :: s.IsRoot(r) ==> PrivateAt(s, r, v)
  }

  /** The bytes at va of r are now `bytes`; all other user memory of all address spaces,
      all page tables and all other pages are as before. */
  ghost predicate Wrote(s: Memory, s': Memory, r: nat, va: nat, bytes: seq<Byte>) {
    && s'.role == s.role && s'.free == s.free && SameTrees(s, s') && s.IsRoot(r)
    && (forall q, a: nat :: s.IsRoot(q) ==>
          UserByte(s', q, a) == if q == r && va <= a < va + |bytes| then Some(bytes[a - va]) else UserByte(s, q, a))
    && (forall p :: p in s.pages && (p in s.role ==> !s.role[p].User?) ==> p in s'.pages && s'.pages[p] == s.pages[p])
  }

  lemma WroteNothing(s: Memory, r: nat, va: nat)
    requires s.IsRoot(r)
    ensures Wrote(s, s, r, va, [])
  {
  }

  function Spliced(s: Memory, p: nat, off: nat, src: seq<Byte>): Memory
    requires p in s.pages && off + |src| <= PGSIZE
  {
    Memory(s.pages[p := Splice(s.pages[p], off, src)], s.free, s.role)
  }

  /** Changing a user page disturbs no tree and no free page. */
  lemma SplicedKeeps(s: Memory, p: nat, off: nat, src: seq<Byte>, freelist: nat, pool: set<nat>)
    requires Inv(s, pool) && Linked(s, freelist) && p in s.role && s.role[p].User? && p in s.pages
    requires off + |src| <= PGSIZE
    ensures Inv(Spliced(s, p, off, src), pool) && SameTrees(s, Spliced(s, p, off, src))
    ensures Linked(Spliced(s, p, off, src), freelist)
  {
    hide Present, Target, Flags, Leafy, Top, Middle, Bottom, Linked, Splice;
    var s' := Spliced(s, p, off, src);
    assert Partition(s', pool);
    KeptTrees(s, s', pool);
    forall q | q in s'.role && s'.role[q].User? ensures RoleOk(s', q) {
      assert RoleOk(s, q);
    }
    KeptInv(s, s', pool);
    LinkedKept(s, s', freelist, pool);
  }

  /** Addresses in one page. */
  lemma PageAddress(v: nat, off: nat, a: nat)
    requires off < PGSIZE
    ensures (v * PGSIZE + off) / PGSIZE == v && (v * PGSIZE + off) % PGSIZE == off
    ensures a == a / PGSIZE * PGSIZE + a % PGSIZE
  {
  }

  /** One memmove of copyout. */
  lemma SplicedWrote(s: Memory, r: nat, v: nat, p: nat, off: nat, src: seq<Byte>)
    requires Private(s) && s.IsRoot(r) && UserPage(s, r, v) == Some(p) && p in s.pages && off + |src| <= PGSIZE
    requires SameTrees(s, Spliced(s, p, off, src))
    ensures Wrote(s, Spliced(s, p, off, src), r, v * PGSIZE + off, src)
  {
    hide Splice, ByteAt, Target, Present, Top, Middle, Bottom, ForUser;
    var s', va := Spliced(s, p, off, src), v * PGSIZE + off;
    assert PrivateAt(s, r, v);
    forall q, a: nat | s.IsRoot(q)
      ensures UserByte(s', q, a) == if q == r && va <= a < va + |src| then Some(src[a - va]) else UserByte(s, q, a)
    {
      PageAddress(v, 0, a);
      assert UserPage(s', q, a / PGSIZE) == UserPage(s, q, a / PGSIZE);
      assert PrivateAt(s, q, a / PGSIZE);
      if UserPage(s, q, a / PGSIZE) == Some(p) {
        assert q == r && a / PGSIZE == v;
        SpliceByte(s.pages[p], off, src, a % PGSIZE);
      }
    }
  }

  lemma WroteThen(s: Memory, s1: Memory, s2: Memory, r: nat, va: nat, bytes: seq<Byte>, more: seq<Byte>)
    requires Wrote(s, s1, r, va, bytes) && Wrote(s1, s2, r, va + |bytes|, more)
    ensures Wrote(s, s2, r, va, bytes + more)
  {
    hide UserByte;
  }

  lemma PrivateKept(s: Memory, s': Memory, r: nat, va: nat, bytes: seq<Byte>, pool: set<nat>)
    requires Private(s) && Wrote(s, s', r, va, bytes) && Inv(s', pool)
    ensures Private(s')
  {
    hide Target, Present, Top, Middle, Bottom, ForUser, Inv, UserByte;
    forall q, v: nat | s'.IsRoot(q) ensures PrivateAt(s', q, v) {
      assert PrivateAt(s, q, v) && UserPage(s', q, v) == UserPage(s, q, v);
      if UserPage(s, q, v).Some? {
        RoleInPool(s', UserPage(s, q, v).value, pool);
      }
    }
  }

  // ---------- code ----------

  /** walkaddr, by page number: the page that user code reaches there, or 0. */
  method Walkaddr(m: Machine, r: nat, v: nat) returns (p: nat)
    requires m.Valid() && m.View().IsRoot(r) && Private(m.View())
    modifies m`mem, m`freelist, m`free, m`role
    ensures m.Valid() && m.View() == old(m.View())
    ensures UserPage(m.View(), r, v) == if p == 0 then None else Some(p)
  {
    hide Inv, Linked, MapsKept, TablesAdded, Present, Target, Top, Middle, Bottom, ForUser, Private;
    if v >= MAXVPN {
      return 0;
    }
    var f := m.Walk(r, v, false);
    if f.Missing? {
      MissingEntry(m.View(), r, v);
      return 0;
    }
    TablePresent(m.View(), r, v, 0, f.page, m.pool);
    var e := m.mem[f.page][Index(0, v)];
    if !Present(e) || !ForUser(e) {
      return 0;
    }
    NotPageZero(m.View(), r, v, m.pool);
    return Target(e);
  }

  lemma NotPageZero(s: Memory, r: nat, v: nat, pool: set<nat>)
    requires Inv(s, pool) && Private(s) && s.IsRoot(r) && UserPage(s, r, v).Some?
    ensures
      var p := UserPage(s, r, v).value;
      p != 0 && p in s.pages && p in s.role && s.role[p] == User(r, v)
  {
    hide RoleOk, TopOk, MidOk, LowOk;
    assert PrivateAt(s, r, v);
  }

  /** Page numbers that `len` bytes at va touch. */
  predicate Touches(va: nat, len: nat, v: nat) {
    len > 0 && va / PGSIZE <= v && v * PGSIZE < va + len
  }

  /** User code reaches all of them. */
  ghost predicate AllReached(s: Memory, r: nat, va: nat, len: nat)
    requires s.IsRoot(r)
  {
    forall v: nat :: Touches(va, len, v) ==> UserPage(s, r, v).Some?
  }

  /** copyout of src to dstva: all of it, or the part before the first page that user
      code does not reach. No other user memory, of this or any other address space,
      changes. */
  method Copyout(m: Machine, r: nat, dstva: nat, src: seq<Byte>) returns (ok: bool, ghost done: nat)
    requires m.Valid() && m.View().IsRoot(r) && Private(m.View())
    modifies m`mem, m`freelist, m`free, m`role
    ensures m.Valid() && Private(m.View()) && done <= |src| && Wrote(old(m.View()), m.View(), r, dstva, src[..done])
    ensures ok <==> AllReached(old(m.View()), r, dstva, |src|)
    ensures ok ==> done == |src|
    ensures !ok ==> done < |src| && UserPage(old(m.View()), r, (dstva + done) / PGSIZE) == None
                    && AllReached(old(m.View()), r, dstva, done)
  {
    hide Inv, Linked, Private, Wrote, AllReached, UserPage, Splice;
    ghost var s0 := m.View();
    var i := 0;
    WroteNothing(s0, r, dstva);
    ReachedNone(s0, r, dstva);
    while i < |src|
      invariant 0 <= i <= |src| && m.Valid() && m.View().IsRoot(r) && Private(m.View())
      invariant Wrote(s0, m.View(), r, dstva, src[..i]) && AllReached(s0, r, dstva, i)
      invariant i < |src| ==> (dstva + i) % PGSIZE == 0 || i == 0
    {
      ghost var s1 := m.View();
      var v, off := (dstva + i) / PGSIZE, (dstva + i) % PGSIZE;
      var p := Walkaddr(m, r, v);
      SamePages(s0, s1, r, dstva, src[..i], v);
      if p == 0 {
        NotReached(s0, r, dstva, |src|, v, i);
        return false, i;
      }
      var n := if |src| - i < PGSIZE - off then |src| - i else PGSIZE - off;
      var chunk := src[i..i + n];
      NotPageZero(s1, r, v, m.pool);
      SplicedKeeps(s1, p, off, chunk, m.freelist, m.pool);
      SplicedWrote(s1, r, v, p, off, chunk);
      m.mem := m.mem[p := Splice(m.mem[p], off, chunk)];
      assert m.View() == Spliced(s1, p, off, chunk);
      PrivateKept(s1, m.View(), r, dstva + i, chunk, m.pool);
      WroteThen(s0, s1, m.View(), r, dstva, src[..i], chunk);
      ReachedMore(s0, r, dstva, i, n);
      assert src[..i] + chunk == src[..i + n];
      i := i + n;
      RootKept(s0, m.View(), r, dstva, src[..i]);
    }
    assert src[..i] == src;
    return true, i;
  }

  lemma ReachedNone(s: Memory, r: nat, va: nat)
    requires s.IsRoot(r)
    ensures AllReached(s, r, va, 0)
  {
  }

  lemma NotReached(s: Memory, r: nat, va: nat, len: nat, v: nat, i: nat)
    requires s.IsRoot(r) && i < len && v == (va + i) / PGSIZE && UserPage(s, r, v) == None
    ensures !AllReached(s, r, va, len)
  {
    assert Touches(va, len, v);
  }

  /** The chunk ends with its page or with the transfer. */
  lemma ReachedMore(s: Memory, r: nat, va: nat, i: nat, n: nat)
    requires s.IsRoot(r) && AllReached(s, r, va, i) && UserPage(s, r, (va + i) / PGSIZE).Some?
    requires (va + i) % PGSIZE + n <= PGSIZE && (i == 0 || (va + i) % PGSIZE == 0)
    ensures AllReached(s, r, va, i + n)
    ensures (va + i) % PGSIZE + n == PGSIZE ==> (va + i + n) % PGSIZE == 0
  {
    hide UserPage;
    forall v: nat | Touches(va, i + n, v) ensures UserPage(s, r, v).Some? {
      if !Touches(va, i, v) {
        assert v == (va + i) / PGSIZE;
      }
    }
  }

  lemma SamePages(s: Memory, s': Memory, r: nat, va: nat, bytes: seq<Byte>, v: nat)
    requires Wrote(s, s', r, va, bytes)
    ensures s.IsRoot(r) && s'.IsRoot(r) && UserPage(s', r, v) == UserPage(s, r, v)
  {
    hide UserByte;
  }

  lemma RootKept(s: Memory, s': Memory, r: nat, va: nat, bytes: seq<Byte>)
    requires Wrote(s, s', r, va, bytes)
    ensures s'.IsRoot(r)
  {
    hide UserByte;
  }

  /** out is the user memory of r at va. */
  ghost predicate Reads(s: Memory, r: nat, va: nat, out: seq<Byte>)
    requires s.IsRoot(r)
  {
    forall k :: 0 <= k < |out| ==> UserByte(s, r, va + k) == Some(out[k])
  }

  /** copyin of len bytes at srcva: what user code would read there, if it reaches every
      page of it. Nothing changes. */
  method Copyin(m: Machine, r: nat, srcva: nat, len: nat) returns (ok: bool, out: seq<Byte>)
    requires m.Valid() && m.View().IsRoot(r) && Private(m.View())
    modifies m`mem, m`freelist, m`free, m`role
    ensures m.Valid() && m.View() == old(m.View())
    ensures ok <==> AllReached(m.View(), r, srcva, len)
    ensures ok ==> |out| == len && Reads(m.View(), r, srcva, out)
  {
    hide Inv, Linked, Private, AllReached, UserPage, Reads, ByteAt;
    ghost var s0 := m.View();
    out := [];
    ReachedNone(s0, r, srcva);
    ReadsNone(s0, r, srcva);
    while |out| < len
      invariant |out| <= len && m.Valid() && m.View() == s0
      invariant AllReached(s0, r, srcva, |out|) && Reads(s0, r, srcva, out)
      invariant |out| < len ==> (srcva + |out|) % PGSIZE == 0 || |out| == 0
    {
      var i := |out|;
      var v, off := (srcva + i) / PGSIZE, (srcva + i) % PGSIZE;
      var p := Walkaddr(m, r, v);
      if p == 0 {
        NotReached(s0, r, srcva, len, v, i);
        return false, out;
      }
      var n := if len - i < PGSIZE - off then len - i else PGSIZE - off;
      NotPageZero(s0, r, v, m.pool);
      var chunk := Cut(m.mem[p], off, n);
      ReadsMore(s0, r, srcva, out, v, off, p, chunk);
      ReachedMore(s0, r, srcva, i, n);
      out := out + chunk;
    }
    return true, out;
  }

  /** n bytes of the page from off on. */
  function Cut(p: Page, off: nat, n: nat): (bs: seq<Byte>)
    requires off + n <= PGSIZE
    ensures |bs| == n && forall k :: 0 <= k < n ==> bs[k] == ByteAt(p, off + k)
    decreases n
  {
    if n == 0 then [] else Cut(p, off, n - 1) + [ByteAt(p, off + n - 1)]
  }

  lemma ReadsNone(s: Memory, r: nat, va: nat)
    requires s.IsRoot(r)
    ensures Reads(s, r, va, [])
  {
  }

  lemma ReadsMore(s: Memory, r: nat, va: nat, out: seq<Byte>, v: nat, off: nat, p: nat, chunk: seq<Byte>)
    requires s.IsRoot(r) && Reads(s, r, va, out) && UserPage(s, r, v) == Some(p) && p in s.pages
    requires v == (va + |out|) / PGSIZE && off == (va + |out|) % PGSIZE && off + |chunk| <= PGSIZE
    requires forall k :: 0 <= k < |chunk| ==> chunk[k] == ByteAt(s.pages[p], off + k)
    ensures Reads(s, r, va, out + chunk)
  {
    hide ByteAt, UserPage;
    forall k | 0 <= k < |out + chunk| ensures UserByte(s, r, va + k) == Some((out + chunk)[k]) {
      if k >= |out| {
        var j := k - |out|;
        PageAddress(v, off + j, va + |out|);
        assert va + k == v * PGSIZE + (off + j);
      }
    }
  }

  /** What copyout put in, copyin brings back. */
  lemma CopyBack(s: Memory, s': Memory, r: nat, va: nat, bytes: seq<Byte>, out: seq<Byte>)
    requires Wrote(s, s', r, va, bytes) && s'.IsRoot(r) && |out| == |bytes| && Reads(s', r, va, out)
    ensures out == bytes
  {
    hide UserByte;
    forall k | 0 <= k < |out| ensures out[k] == bytes[k] {
      assert UserByte(s', r, va + k) == Some(out[k]);
    }
  }

  // ---------- every operation keeps user memory private ----------

  /** uvmalloc and uvmcopy, when they work. */
  lemma AddedStaysPrivate(s: Memory, s': Memory, r: nat, first: nat, list: Filling, pool: set<nat>)
    requires Private(s) && Inv(s', pool) && PagesAdded(s, s', r, first, list)
    ensures Private(s')
  {
    hide Target, Present, Top, Middle, Bottom, ForUser, Inv, Pte;
    forall q, v: nat | s'.IsRoot(q) ensures PrivateAt(s', q, v) {
      assert PrivateAt(s, q, v);
      assert NewAt(s, s', r, first, list, v);
      if UserPage(s, q, v).Some? && UserPage(s', q, v) == UserPage(s, q, v) {
        RoleInPool(s', UserPage(s, q, v).value, pool);
      }
    }
  }

  /** The same, when they fail. */
  lemma RestoredStaysPrivate(s: Memory, s': Memory, pool: set<nat>)
    requires Private(s) && Inv(s', pool) && Restored(s, s')
    ensures Private(s')
  {
    hide Target, Present, Top, Middle, Bottom, ForUser, Inv;
    forall q, v: nat | s'.IsRoot(q) ensures PrivateAt(s', q, v) {
      assert PrivateAt(s, q, v);
      if UserPage(s, q, v).Some? {
        RoleInPool(s', UserPage(s, q, v).value, pool);
      }
    }
  }

  /** uvmunmap, and so uvmdealloc. */
  lemma UnmappedStaysPrivate(s: Memory, s': Memory, r: nat, first: nat, n: nat, pool: set<nat>)
    requires Private(s) && Inv(s', pool) && UnmappedRange(s, s', r, first, n) && UsersGone(s, s', r, first, n)
    ensures Private(s')
  {
    hide Target, Present, Top, Middle, Bottom, ForUser, Inv;
    forall q, v: nat | s'.IsRoot(q) ensures PrivateAt(s', q, v) {
      assert PrivateAt(s, q, v);
      if UserPage(s', q, v).Some? {
        RoleInPool(s', UserPage(s, q, v).value, pool);
      }
    }
  }

  /** uvmfree. */
  lemma ReleasedStaysPrivate(s: Memory, s': Memory, r: nat, pool: set<nat>)
    requires Private(s) && Inv(s', pool) && s.IsRoot(r) && Released(s, s', r)
    ensures Private(s')
  {
    hide Target, Present, Top, Middle, Bottom, ForUser, Inv;
    forall q, v: nat | s'.IsRoot(q) ensures PrivateAt(s', q, v) {
      assert PrivateAt(s, q, v);
      if UserPage(s', q, v).Some? {
        RoleInPool(s', UserPage(s, q, v).value, pool);
      }
    }
  }

  /** uvmcreate. */
  lemma CreatedStaysPrivate(s: Memory, s': Memory, r: nat, pool: set<nat>)
    requires Private(s) && Inv(s', pool) && RootAdded(s, s', r)
    ensures Private(s')
  {
    hide Target, Present, Top, Middle, Bottom, ForUser, Inv;
    forall q, v: nat | s'.IsRoot(q) ensures PrivateAt(s', q, v) {
      if q != r {
        assert PrivateAt(s, q, v);
      }
    }
  }

  lemma FlagBit(p: nat, f: nat)
    ensures (1024 * p + f) / 16 % 2 == f / 16 % 2
  {
    DivShift(64 * p, f);
    EvenShift(32 * p, f / 16);
  }

  lemma DivShift(q: nat, f: nat)
    ensures (16 * q + f) / 16 == q + f / 16
  {
  }

  lemma EvenShift(q: nat, x: nat)
    ensures (2 * q + x) % 2 == x % 2
  {
  }

  lemma EvenPlusOne(x: nat)
    requires x % 2 == 0
    ensures (x + 1) / 16 == x / 16
  {
  }

  lemma FlagOfPte(p: nat, perm: nat)
    requires p < PHYSLIMIT && perm < 1024
    ensures ForUser(Pte(p, perm)) <==> perm / 16 % 2 == 1
  {
    if perm % 2 == 0 {
      EvenPlusOne(perm);
      FlagBit(p, perm + 1);
    } else {
      FlagBit(p, perm);
    }
  }

  /** mappages without PTE_U, as for the trampoline and the trapframe. */
  lemma MappedStaysPrivate(s: Memory, s': Memory, r: nat, first: nat, n: nat, p: nat, perm: nat, pool: set<nat>)
    requires Private(s) && Inv(s', pool) && TablesAdded(s, s') && MappedRange(s, s', r, first, n, p, perm)
    requires perm / 16 % 2 == 0
    ensures Private(s')
  {
    hide Target, Present, Top, Middle, Bottom, ForUser, Inv, Pte;
    forall q, v: nat | s'.IsRoot(q) ensures PrivateAt(s', q, v) {
      assert PrivateAt(s, q, v);
      if q == r && v < MAXVPN && first <= v < first + n {
        FlagOfPte(p + (v - first), perm);
      } else if UserPage(s', q, v).Some? {
        RoleInPool(s', UserPage(s, q, v).value, pool);
      }
    }
  }
}
