/** malloc and free over a free list in memory. Addresses count units of 16 bytes, the
    size of a header. */
module Umalloc {
  import opened Wrappers
  import opened FreeList

  const HEADER := 16   // bytes in a header, and in a unit
  const MORECORE := 4096

  /** Units for nbytes and a header. */
  function Units(nbytes: nat): nat {
    (nbytes + HEADER - 1) / HEADER + 1
  }

  /** The units after the header hold nbytes, and no unit is to spare. */
  lemma UnitsEnough(nbytes: nat)
    ensures Units(nbytes) >= 1
    ensures nbytes <= HEADER * (Units(nbytes) - 1) < nbytes + HEADER
  {
  }

  /** The list index reached n steps after index f. */
  function Around(f: nat, n: nat, len: nat): (i: nat)
    requires f < len && n < len
    ensures i < len
  {
    if f + n < len then f + n else f + n - len
  }

  class Allocator {
    const base: nat         // the static header
    var ptr: map<nat, nat>  // header words
    var size: map<nat, nat>
    var freep: nat          // 0 before the first call
    ghost var list: seq<nat>
    ghost var kind: map<nat, Kind>
    ghost var owner: map<nat, nat>
    ghost var brk: nat      // all memory obtained so far lies below

    ghost function View(): Heap
      reads this
    {
      Heap(ptr, size, list, kind, owner)
    }

    ghost predicate Valid()
      reads this
    {
      && 0 < base < brk && (forall u :: u in owner ==> u < brk)
      && if freep == 0 then kind == map[] && owner == map[] else freep in list && Inv(View(), base)
    }

    constructor (base: nat)
      requires base > 0
      ensures Valid() && owner == map[] && this.base == base
    {
      this.base, ptr, size, freep := base, map[], map[], 0;
      list, kind, owner, brk := [], map[], map[], base + 1;
    }

    /** The loop of free: from freep around the ring to the place of bp. */
    method FindPlace(bp: nat) returns (p: nat, ghost t: nat)
      requires Valid() && bp in kind && kind[bp] == Live
      ensures t < |list| && p == list[t] && Between(list, t, bp)
    {
      hide OnList, Owns, Apart;
      LiveNotListed(View(), base, bp);
      ghost var place := PlaceOf(list, bp);
      p := freep;
      t :| 0 <= t < |list| && list[t] == freep;
      LinkAt(View(), base, t);
      while !(bp > p && bp < ptr[p])
        invariant t < |list| && p == list[t] && p in ptr && ptr[p] == Next(list, t)
        decreases if t <= place then place - t else place - t + |list|
      {
        if p >= ptr[p] && (bp > p || bp < ptr[p]) {
          break;
        }
        p := ptr[p];
        t := if t + 1 < |list| then t + 1 else 0;
        LinkAt(View(), base, t);
      }
    }

    /** The assignments of free. */
    method Relink(p: nat, bp: nat)
      requires p in ptr && p in size && bp in size && p != bp
      requires bp + size[bp] == ptr[p] ==> ptr[p] in size && ptr[p] in ptr
      requires ptr[p] != bp
      modifies this`ptr, this`size
      ensures
        var q := old(ptr)[p];
        var touch := bp + old(size)[bp] == q;
        var next := if touch then old(ptr)[q] else q;
        var total := if touch then old(size)[bp] + old(size)[q] else old(size)[bp];
        if p + old(size)[p] == bp
        then ptr == old(ptr)[bp := next][p := next] && size == old(size)[bp := total][p := old(size)[p] + total]
        else ptr == old(ptr)[bp := next][p := bp] && size == old(size)[bp := total]
    {
      if bp + size[bp] == ptr[p] {
        size := size[bp := size[bp] + size[ptr[p]]];
        ptr := ptr[bp := ptr[ptr[p]]];
      } else {
        ptr := ptr[bp := ptr[p]];
      }
      if p + size[p] == bp {
        size := size[p := size[p] + size[bp]];
        ptr := ptr[p := ptr[bp]];
      } else {
        ptr := ptr[p := bp];
      }
    }

    /** free of the block whose header is at bp. */
    method Free(bp: nat)
      requires Valid() && bp in kind && kind[bp] == Live
      modifies this`ptr, this`size, this`freep, this`list, this`kind, this`owner
      ensures Valid() && freep != 0
      ensures Used(View()) == Used(old(View())) - {bp} && owner.Keys == old(owner.Keys)
      ensures Untouched(old(View()), View(), bp)
      ensures bp in old(size) && exists k :: 1 <= k < |list| && list[k] in size && size[list[k]] >= old(size[bp])
    {
      hide Sound, Coalesced, Untouched, Freed, Used, TouchesNext;
      var p;
      ghost var t;
      p, t := FindPlace(bp);
      ghost var h := View();
      FreeEffect(h, base, t, bp);
      Relink(p, bp);
      freep := p;
      list, kind, owner := Freed(h, t, bp).list, Freed(h, t, bp).kind, Freed(h, t, bp).owner;
    }

    /** The new units as one block in use, as if it had been allocated. */
    method SetUp(hp: nat, n: nat)
      requires Valid() && freep != 0 && n >= 1 && hp >= brk
      modifies this`size, this`kind, this`owner, this`brk
      ensures Valid() && View() == Grown(old(View()), hp, n) && hp in size && size[hp] == n
      ensures hp in kind && kind[hp] == Live && owner.Keys == old(owner.Keys) + Span(hp, n)
    {
      hide Inv, Untouched, Used, Span, Grown;
      ghost var h := View();
      GrowEffect(h, base, hp, n);
      size := size[hp := n];
      kind, owner, brk := Grown(h, hp, n).kind, Grown(h, hp, n).owner, hp + n;
      SpanIs(hp, n);
      GrownShape(h, hp, n);
    }

    /** morecore: nu units from sbrk, which `core` stands for, go to the free list.
        Returns freep, or 0 when sbrk fails. */
    method Morecore(nu: nat, core: Option<nat>) returns (p: nat)
      requires Valid() && freep != 0 && nu >= 1 && (core.Some? ==> core.value >= brk)
      modifies this`ptr, this`size, this`freep, this`list, this`kind, this`owner, this`brk
      ensures Valid() && freep != 0 && p == (if core.None? then 0 else freep)
      ensures core.None? ==> View() == old(View())
      ensures core.Some? ==> owner.Keys == old(owner.Keys) + CoreUnits(core, nu)
      ensures core.Some? ==>
                Used(View()) == Used(old(View())) && Untouched(old(View()), View(), base) && Fits(View(), nu)
    {
      hide Inv, Untouched, Used, Span, Grown;
      var n := if nu < MORECORE then MORECORE else nu;
      if core.None? {
        return 0;
      }
      var hp := core.value;
      ghost var h := View();
      GrowEffect(h, base, hp, n);
      SetUp(hp, n);
      ghost var g := View();
      Free(hp);
      NewlyFree(h, g, View(), base, hp, n);
      return freep;
    }

    /** Takes n units of the free block p, or all of it, off the list. */
    method Take(prevp: nat, p: nat, n: nat, ghost k: nat) returns (b: nat)
      requires Valid() && freep != 0 && 1 <= k < |list| && p == list[k] && prevp == list[k - 1]
      requires n >= 1 && p in size && size[p] >= n
      modifies this`ptr, this`size, this`freep, this`list, this`kind, this`owner
      ensures Valid() && freep == prevp != 0 && owner.Keys == old(owner.Keys)
      ensures b !in Used(old(View())) && Used(View()) == Used(old(View())) + {b} && b in size && size[b] == n
      ensures Untouched(old(View()), View(), base)
    {
      hide Inv, Untouched, Used;
      ghost var h := View();
      TakeEffect(h, base, k, n);
      if size[p] == n {
        ptr := ptr[prevp := ptr[p]];
        b := p;
        list, kind := Unlinked(h, k).list, Unlinked(h, k).kind;
      } else {
        size := size[p := size[p] - n];
        b := p + size[p];
        size := size[b := n];
        kind, owner := Split(h, k, n).kind, Split(h, k, n).owner;
      }
      freep := prevp;
    }

    /** malloc of nbytes; `core` is what sbrk returns if it is called. The address
        returned is that of the unit after the header, 0 when there is no memory. */
    method Malloc(nbytes: nat, core: Option<nat>) returns (r: nat, ghost grew: bool)
      requires Valid() && (core.Some? ==> core.value >= brk)
      modifies this`ptr, this`size, this`freep, this`list, this`kind, this`owner, this`brk
      ensures Valid() && freep != 0
      ensures r == 0 <==> core.None? && !Fits(old(View()), Units(nbytes))
      ensures grew <==> core.Some? && !Fits(old(View()), Units(nbytes))
      ensures owner.Keys == old(owner.Keys) + if grew then CoreUnits(core, Units(nbytes)) else {}
      ensures r == 0 ==> Used(View()) == Used(old(View()))
      ensures r != 0 ==> r - 1 !in Used(old(View())) && Used(View()) == Used(old(View())) + {r - 1}
                         && r - 1 in size && size[r - 1] == Units(nbytes)
      ensures Untouched(old(View()), View(), base)
    {
      hide Inv, Untouched, Used, Fits, CoreUnits, At, Around, Since, Rejected, Units;
      var nunits := Units(nbytes);
      UnitsEnough(nbytes);
      grew := false;
      ghost var h0 := View();
      if freep == 0 {
        FirstCall(h0, base, nunits, core);
        ptr, size, freep := ptr[base := base], size[base := 0], base;
        list := [base];
      } else {
        SinceSelf(h0, base, nunits, core);
      }
      var prevp := freep;
      ghost var f: nat, c: nat := IndexOf(list, freep), 0;
      Places(View(), base, f, 0);
      RejectedNone(View(), f, nunits);
      var p := ptr[prevp];
      while true
        invariant Valid() && freep != 0
        invariant f < |list| && list[f] == freep && c < |list|
        invariant prevp == list[Around(f, c, |list|)] && p == list[At(f, c, |list|)]
        invariant Rejected(View(), f, c, nunits)
        invariant Since(h0, View(), base, nunits, core, grew) && (!grew ==> brk == old(brk))
        decreases if grew then 0 else 1, |list| - c
      {
        ghost var h := View();
        Places(h, base, f, c);
        if size[p] >= nunits {
          FoundAt(h, base, f, c, nunits);
          var b := Take(prevp, p, nunits, At(f, c, |list|));
          SinceTaken(h0, h, View(), base, nunits, core, grew);
          return b + 1, grew;
        }
        RejectedMore(h, base, f, c, nunits);
        if p == freep {
          NothingFits(h, base, f, c, nunits);
          StillSmall(h0, h, base, nunits, core, grew);
          p := Morecore(nunits, core);
          if p == 0 {
            return 0, grew;
          }
          SinceGrown(h0, h, View(), base, nunits, core);
          grew := true;
          f, c := IndexOf(list, freep), 0;
          RejectedNone(View(), f, nunits);
        } else {
          c := c + 1;
        }
        Places(View(), base, f, c);
        prevp := p;
        p := ptr[p];
      }
    }
  }

  lemma LinkAt(h: Heap, base: nat, k: nat)
    requires Inv(h, base) && k < |h.list|
    ensures h.list[k] in h.ptr && h.ptr[h.list[k]] == Next(h.list, k)
  {
    hide Owns, OnList;
    assert LinkOk(h, k);
  }

  /** The test of free compares with the next entry, or the base after the last. */
  lemma NextTouch(h: Heap, base: nat, t: nat, b: nat)
    requires Inv(h, base) && Between(h.list, t, b) && b in h.kind && b in h.size && b > base
    ensures Next(h.list, t) != b
    ensures b + h.size[b] == Next(h.list, t) <==> TouchesNext(h, t, b)
    ensures TouchesNext(h, t, b) ==> h.list[t + 1] in h.ptr && h.ptr[h.list[t + 1]] == Next(h.list, t + 1)
  {
    hide Owns, OnList;
    if t + 1 < |h.list| {
      LinkAt(h, base, t + 1);
    }
  }

  /** What the assignments of free amount to. */
  lemma FreeEffect(h: Heap, base: nat, t: nat, b: nat)
    requires Inv(h, base) && Between(h.list, t, b) && b in h.kind && h.kind[b] == Live
    ensures b in h.size && h.list[t] in h.ptr && h.list[t] >= base
    ensures
      var p := h.list[t];
      var q := h.ptr[p];
      var touch := b + h.size[b] == q;
      && p != b && q != b && (touch ==> q in h.size && q in h.ptr)
      && var next, size := if touch then h.ptr[q] else q, if touch then h.size[b] + h.size[q] else h.size[b];
      var f := Freed(h, t, b);
      && (if p + h.size[p] == b
          then f.ptr == h.ptr[b := next][p := next] && f.size == h.size[b := size][p := h.size[p] + size]
          else f.ptr == h.ptr[b := next][p := b] && f.size == h.size[b := size])
      && Inv(f, base) && p in f.list && Used(f) == Used(h) - {b} && f.owner.Keys == h.owner.Keys && Untouched(h, f, b)
      && exists k :: 1 <= k < |f.list| && f.list[k] in f.size && f.size[f.list[k]] >= h.size[b]
  {
    hide Sound, Coalesced, Untouched, Freed, Used;
    RoomFor(h, base, t, b);
    LinkAt(h, base, t);
    FreedInv(h, base, t, b);
    FreedUsed(h, base, t, b);
    FreedWords(h, t, b);
    NextTouch(h, base, t, b);
    BaseFirst(h, base, t);
  }

  lemma BaseFirst(h: Heap, base: nat, t: nat)
    requires Inv(h, base) && t < |h.list|
    ensures h.list[t] >= base
  {
    hide OnList, Blocks, LinkOk;
  }

  lemma LiveNotListed(h: Heap, base: nat, b: nat)
    requires Inv(h, base) && b in h.kind && h.kind[b] == Live
    ensures b !in h.list && b > base
  {
    hide LinkOk;
    assert Owns(h, b);
    assert b in h.owner;
  }

  /** The last list entry below b. */
  ghost function PlaceOf(list: seq<nat>, b: nat): (t: nat)
    requires list != [] && list[0] < b && Sorted(list)
    ensures t < |list| && list[t] < b && forall k :: t < k < |list| ==> list[k] >= b
  {
    if list[|list| - 1] < b then |list| - 1 else PlaceOf(list[..|list| - 1], b)
  }

  /** Some free block has room for n units. */
  ghost predicate Fits(h: Heap, n: nat) {
    exists b :: b in h.kind && h.kind[b] == Free && b in h.size && h.size[b] >= n
  }

  /** The list index of the entry after n steps and one more from index f. */
  function At(f: nat, n: nat, len: nat): (i: nat)
    requires f < len && n < len
    ensures i < len
  {
    if f + 1 + n < len then f + 1 + n else f + 1 + n - len
  }

  ghost function IndexOf(list: seq<nat>, a: nat): (k: nat)
    requires a in list
    ensures k < |list| && list[k] == a
  {
    var k :| 0 <= k < |list| && list[k] == a;
    k
  }

  /** The c entries after freep are too small. */
  ghost predicate Rejected(h: Heap, f: nat, c: nat, n: nat)
    requires f < |h.list| && c <= |h.list|
  {
    forall d :: 0 <= d < c ==> h.list[At(f, d, |h.list|)] in h.size && h.size[h.list[At(f, d, |h.list|)]] < n
  }

  lemma RejectedNone(h: Heap, f: nat, n: nat)
    requires f < |h.list|
    ensures Rejected(h, f, 0, n)
  {
  }

  /** malloc's two pointers are neighbours on the ring. */
  lemma Places(h: Heap, base: nat, f: nat, c: nat)
    requires Inv(h, base) && f < |h.list| && c < |h.list|
    ensures
      var i, j := Around(f, c, |h.list|), At(f, c, |h.list|);
      && h.list[i] in h.ptr && h.ptr[h.list[i]] == h.list[j] && h.list[j] in h.size
      && (c == 0 ==> h.list[i] == h.list[f])
      && (h.list[j] == h.list[f] <==> c == |h.list| - 1)
      && (c > 0 ==> i == At(f, c - 1, |h.list|))
  {
    hide OnList, Blocks;
    LinkAt(h, base, Around(f, c, |h.list|));
  }

  lemma RejectedMore(h: Heap, base: nat, f: nat, c: nat, n: nat)
    requires f < |h.list| && c < |h.list| && Rejected(h, f, c, n)
    requires h.list[At(f, c, |h.list|)] in h.size && h.size[h.list[At(f, c, |h.list|)]] < n
    ensures Rejected(h, f, c + 1, n)
  {
    hide At;
  }

  lemma FoundAt(h: Heap, base: nat, f: nat, c: nat, n: nat)
    requires Inv(h, base) && f < |h.list| && c < |h.list| && n >= 1
    requires var p := h.list[At(f, c, |h.list|)]; p in h.size && h.size[p] >= n
    ensures
      var k := At(f, c, |h.list|);
      k >= 1 && h.list[k - 1] == h.list[Around(f, c, |h.list|)] && Fits(h, n)
  {
    hide Blocks, LinkOk;
    var k := At(f, c, |h.list|);
    FreeAt(h, base, k);
  }

  lemma NothingFits(h: Heap, base: nat, f: nat, c: nat, n: nat)
    requires Inv(h, base) && f < |h.list| && c < |h.list| && Rejected(h, f, c + 1, n)
    requires h.list[At(f, c, |h.list|)] == h.list[f]
    ensures !Fits(h, n)
  {
    hide Blocks, LinkOk;
    forall b | b in h.kind && h.kind[b] == Free && b in h.size ensures h.size[b] < n {
      assert b in h.list;
      var k := IndexOf(h.list, b);
      var d := if k > f then k - f - 1 else k + |h.list| - f - 1;
      assert At(f, d, |h.list|) == k;
    }
  }

  ghost function CoreUnits(core: Option<nat>, n: nat): set<nat>
    requires core.Some?
  {
    Span(core.value, if n < MORECORE then MORECORE else n)
  }

  /** What has happened since malloc was called with h0: at most one morecore. */
  ghost predicate Since(h0: Heap, h: Heap, base: nat, n: nat, core: Option<nat>, grew: bool) {
    && Used(h) == Used(h0) && Untouched(h0, h, base)
    && if grew then core.Some? && Fits(h, n) && !Fits(h0, n) && h.owner.Keys == h0.owner.Keys + CoreUnits(core, n)
       else h.owner == h0.owner && Fits(h, n) == Fits(h0, n)
  }

  lemma SinceSelf(h: Heap, base: nat, n: nat, core: Option<nat>)
    ensures Since(h, h, base, n, core, false)
  {
    hide Used, Fits;
  }

  lemma FirstCall(h: Heap, base: nat, n: nat, core: Option<nat>)
    requires h.kind == map[] && h.owner == map[]
    ensures
      var h' := Heap(h.ptr[base := base], h.size[base := 0], [base], h.kind, h.owner);
      Inv(h', base) && Since(h, h', base, n, core, false)
  {
    var h' := Heap(h.ptr[base := base], h.size[base := 0], [base], h.kind, h.owner);
    assert LinkOk(h', 0);
  }

  /** Nothing fits after morecore is impossible, so sbrk is not called twice. */
  lemma StillSmall(h0: Heap, h: Heap, base: nat, n: nat, core: Option<nat>, grew: bool)
    requires Since(h0, h, base, n, core, grew) && !Fits(h, n)
    ensures !grew && !Fits(h0, n) && Used(h) == Used(h0) && h.owner == h0.owner && Untouched(h0, h, base)
  {
    hide Used, Fits, Untouched;
  }

  lemma SinceGrown(h0: Heap, h: Heap, h': Heap, base: nat, n: nat, core: Option<nat>)
    requires Since(h0, h, base, n, core, false) && !Fits(h, n) && core.Some?
    requires h'.owner.Keys == h.owner.Keys + CoreUnits(core, n)
    requires Used(h') == Used(h) && Untouched(h, h', base) && Fits(h', n)
    ensures Since(h0, h', base, n, core, true)
  {
    hide Used, Fits, Span, Untouched;
    UntouchedThen(h0, h, h', base);
  }

  lemma SinceTaken(h0: Heap, h: Heap, h': Heap, base: nat, n: nat, core: Option<nat>, grew: bool)
    requires Since(h0, h, base, n, core, grew) && Fits(h, n)
    requires h'.owner.Keys == h.owner.Keys && Untouched(h, h', base)
    ensures Used(h) == Used(h0) && Untouched(h0, h', base)
    ensures grew <==> core.Some? && !Fits(h0, n)
    ensures !grew ==> Fits(h0, n)
    ensures h'.owner.Keys == h0.owner.Keys + if grew then CoreUnits(core, n) else {}
  {
    hide Used, Fits, Span, Untouched;
    UntouchedThen(h0, h, h', base);
  }

  lemma GrowEffect(h: Heap, base: nat, b: nat, n: nat)
    requires Inv(h, base) && b > base && n >= 1 && forall u :: u in h.owner ==> u < b
    ensures Inv(Grown(h, b, n), base) && b !in h.kind && Grown(h, b, n).owner.Keys == h.owner.Keys + Span(b, n)
    ensures Untouched(h, Grown(h, b, n), base) && Used(Grown(h, b, n)) == Used(h) + {b} && b !in Used(h)
  {
    hide Blocks, Ring, OnList, Used, Untouched, Coalesced;
    GrownInv(h, base, b, n);
    GrownUntouched(h, base, b, n);
    GrownUsed(h, base, b, n);
  }

  lemma GrownShape(h: Heap, b: nat, n: nat)
    ensures
      var g := Grown(h, b, n);
      g.ptr == h.ptr && g.size == h.size[b := n] && g.list == h.list && b in g.kind && g.kind[b] == Live
  {
  }

  lemma NewlyFree(h: Heap, g: Heap, f: Heap, base: nat, b: nat, n: nat)
    requires Inv(h, base) && Inv(f, base) && b !in h.kind && Untouched(h, g, base) && Untouched(g, f, b)
    requires b !in Used(h) && Used(g) == Used(h) + {b} && Used(f) == Used(g) - {b}
    requires exists k :: 1 <= k < |f.list| && f.list[k] in f.size && f.size[f.list[k]] >= n
    ensures Used(f) == Used(h) && Untouched(h, f, base) && forall m: nat :: m <= n ==> Fits(f, m)
  {
    hide LinkOk, Owns, Used;
    var k :| 1 <= k < |f.list| && f.list[k] in f.size && f.size[f.list[k]] >= n;
    FreeAt(f, base, k);
  }

  lemma TakeEffect(h: Heap, base: nat, k: nat, n: nat)
    requires Inv(h, base) && 1 <= k < |h.list| && h.list[k] in h.size && 1 <= n <= h.size[h.list[k]]
    ensures
      var p, prevp := h.list[k], h.list[k - 1];
      && p in h.ptr && prevp in h.ptr && prevp >= base
      && if h.size[p] == n
         then var u := Unlinked(h, k);
           && u.ptr == h.ptr[prevp := h.ptr[p]] && u.size == h.size && u.owner == h.owner && prevp in u.list
           && Inv(u, base) && Untouched(h, u, base) && Used(u) == Used(h) + {p} && p !in Used(h)
         else var u, b := Split(h, k, n), p + h.size[p] - n;
           && u.ptr == h.ptr && u.size == h.size[p := h.size[p] - n][b := n] && u.list == h.list && prevp in u.list
           && u.owner.Keys == h.owner.Keys
           && Inv(u, base) && Untouched(h, u, base) && Used(u) == Used(h) + {b} && b !in Used(h)
  {
    hide Blocks, Coalesced, OnList, Used, Untouched, Owns;
    LinkAt(h, base, k);
    LinkAt(h, base, k - 1);
    BaseFirst(h, base, k - 1);
    if h.size[h.list[k]] == n {
      UnlinkedInv(h, base, k);
      UnlinkedUntouched(h, base, k);
      assert Unlinked(h, k).list[k - 1] == h.list[k - 1];
    } else {
      SplitInv(h, base, k, n);
      SplitUntouched(h, base, k, n);
      SplitUsed(h, base, k, n);
    }
  }
}
