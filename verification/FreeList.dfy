/** The memory of the user-level allocator as a value: blocks of 16-byte units, each
    free or in use, and the free list through their headers. */
module FreeList {

  datatype Kind = Free | Live

  /** `ptr` and `size` are the two header words; `list` is the free list in address
      order, starting with the static header `base`; `kind` knows every block by its
      address, and `owner` the block that each unit obtained from sbrk belongs to. */
  datatype Heap = Heap(
    ptr: map<nat, nat>, size: map<nat, nat>, list: seq<nat>, kind: map<nat, Kind>, owner: map<nat, nat>)

  function Next(list: seq<nat>, k: nat): nat
    requires k < |list|
  {
    if k + 1 < |list| then list[k + 1] else list[0]
  }

  // ---------- invariant ----------

  ghost predicate Sorted(list: seq<nat>) {
    forall j, k :: 0 <= j < k < |list| ==> list[j] < list[k]
  }

  ghost predicate LinkOk(h: Heap, k: nat)
    requires k < |h.list|
  {
    h.list[k] in h.ptr && h.ptr[h.list[k]] == Next(h.list, k)
  }

  /** The list is a ring in address order, entered at the base. */
  ghost predicate Ring(h: Heap, base: nat) {
    && h.list != [] && h.list[0] == base && Sorted(h.list)
    && (forall k :: 0 <= k < |h.list| ==> LinkOk(h, k))
    && base in h.size && h.size[base] == 0 && base !in h.kind
  }

  /** The list has exactly the free blocks, after the base. */
  ghost predicate OnList(h: Heap, base: nat) {
    forall b :: (b in h.list && b != base) <==> (b in h.kind && h.kind[b] == Free)
  }

  /** The units of a block are the ones from its header on. */
  ghost predicate Owns(h: Heap, b: nat) {
    && b in h.size && h.size[b] >= 1
    && forall u :: (u in h.owner && h.owner[u] == b) <==> b <= u < b + h.size[b]
  }

  ghost predicate Blocks(h: Heap, base: nat) {
    && (forall b :: b in h.kind ==> Owns(h, b))
    && (forall u :: u in h.owner ==> h.owner[u] in h.kind && u > base)
  }

  /** A list entry ends before the next one begins: they cannot be merged. */
  ghost predicate Apart(h: Heap, k: int)
    requires forall j :: 0 <= j < |h.list| ==> h.list[j] in h.size
  {
    0 <= k && k + 1 < |h.list| ==> h.list[k] + h.size[h.list[k]] < h.list[k + 1]
  }

  ghost predicate Sound(h: Heap, base: nat) {
    Ring(h, base) && OnList(h, base) && Blocks(h, base)
  }

  lemma ListSized(h: Heap, base: nat)
    requires Sound(h, base)
    ensures forall j :: 0 <= j < |h.list| ==> h.list[j] in h.size
  {
    forall j | 1 <= j < |h.list| ensures h.list[j] in h.size {
      assert h.list[j] in h.list && Owns(h, h.list[j]);
    }
  }

  ghost predicate Coalesced(h: Heap)
    requires forall j :: 0 <= j < |h.list| ==> h.list[j] in h.size
  {
    forall k :: 0 <= k < |h.list| ==> Apart(h, k)
  }

  ghost predicate Inv(h: Heap, base: nat) {
    Sound(h, base) && (forall j :: 0 <= j < |h.list| ==> h.list[j] in h.size) && Coalesced(h)
  }

  // ---------- what callers may rely on ----------

  ghost function Used(h: Heap): set<nat> {
    set b | b in h.kind && h.kind[b] == Live
  }

  predicate InUse(h: Heap, u: nat) {
    u in h.owner && h.owner[u] in h.kind && h.kind[h.owner[u]] == Live
  }

  predicate SameWord(m: map<nat, nat>, m': map<nat, nat>, u: nat) {
    (u in m' <==> u in m) && (u in m ==> m'[u] == m[u])
  }

  /** Units of blocks in use, other than `but`, still belong to them, and no header word
      was written inside them. */
  ghost predicate Untouched(h: Heap, h': Heap, but: nat) {
    forall u :: InUse(h, u) && h.owner[u] != but ==>
      InUse(h', u) && h'.owner[u] == h.owner[u] && SameWord(h.ptr, h'.ptr, u) && SameWord(h.size, h'.size, u)
  }

  /** Two blocks in use share no unit, and none is on the free list. */
  lemma BlocksDisjoint(h: Heap, base: nat, b: nat, c: nat, u: nat)
    requires Inv(h, base) && b in h.kind && c in h.kind
    requires b <= u < b + h.size[b] && c <= u < c + h.size[c]
    ensures b == c
  {
    assert Owns(h, b) && Owns(h, c);
    assert u in h.owner && h.owner[u] == b;
  }

  ghost function UnitsOf(h: Heap, blocks: set<nat>): set<nat> {
    set u | u in h.owner && h.owner[u] in blocks
  }

  ghost function TotalSize(h: Heap, blocks: set<nat>): nat
    requires forall b :: b in blocks ==> b in h.size
  {
    if blocks == {} then 0 else
      var b :| b in blocks;
      h.size[b] + TotalSize(h, blocks - {b})
  }

  ghost function Span(b: nat, n: nat): (s: set<nat>)
    ensures |s| == n && forall u :: u in s <==> b <= u < b + n
  {
    if n == 0 then {} else Span(b, n - 1) + {b + n - 1}
  }

  lemma OneMore(h: Heap, base: nat, blocks: set<nat>, b: nat)
    requires Sound(h, base) && blocks <= h.kind.Keys && b in blocks
    ensures b in h.size && |UnitsOf(h, blocks)| == |UnitsOf(h, blocks - {b})| + h.size[b]
  {
    assert Owns(h, b);
    var rest, mine := UnitsOf(h, blocks - {b}), Span(b, h.size[b]);
    forall u ensures u in UnitsOf(h, blocks) <==> u in rest || u in mine {
      assert u in mine <==> u in h.owner && h.owner[u] == b;
    }
    assert UnitsOf(h, blocks) == rest + mine && rest !! mine;
  }

  lemma {:induction false} SizesCount(h: Heap, base: nat, blocks: set<nat>)
    requires Sound(h, base) && blocks <= h.kind.Keys
    ensures forall b :: b in blocks ==> b in h.size
    ensures |UnitsOf(h, blocks)| == TotalSize(h, blocks)
    decreases blocks
  {
    forall b | b in blocks ensures b in h.size {
      assert Owns(h, b);
    }
    if blocks == {} {
      assert UnitsOf(h, blocks) == {};
    } else {
      var b :| b in blocks && TotalSize(h, blocks) == h.size[b] + TotalSize(h, blocks - {b});
      SizesCount(h, base, blocks - {b});
      OneMore(h, base, blocks, b);
    }
  }

  /** Units free plus units in use are the units obtained from sbrk. */
  lemma UnitsConserved(h: Heap, base: nat)
    requires Inv(h, base)
    ensures forall b :: b in h.kind ==> b in h.size
    ensures TotalSize(h, Used(h)) + TotalSize(h, h.kind.Keys - Used(h)) == |h.owner|
  {
    hide Ring, OnList, Owns, Coalesced, TotalSize;
    SizesCount(h, base, h.kind.Keys);
    SizesCount(h, base, Used(h));
    SizesCount(h, base, h.kind.Keys - Used(h));
    var a, b := UnitsOf(h, Used(h)), UnitsOf(h, h.kind.Keys - Used(h));
    assert a !! b && a + b == h.owner.Keys;
  }

  // ---------- linking a block into the list ----------

  /** The place of address b in the list. */
  ghost predicate Between(list: seq<nat>, t: int, b: nat) {
    0 <= t < |list| && list[t] < b && (t + 1 < |list| ==> b < list[t + 1])
  }

  function Inserted(list: seq<nat>, t: nat, b: nat): (r: seq<nat>)
    requires t < |list|
    ensures |r| == |list| + 1
    ensures forall k :: 0 <= k < |r| ==> r[k] == if k <= t then list[k] else if k == t + 1 then b else list[k - 1]
  {
    list[..t + 1] + [b] + list[t + 1..]
  }

  function Without(list: seq<nat>, t: nat): (r: seq<nat>)
    requires t < |list|
    ensures |r| == |list| - 1
    ensures forall k :: 0 <= k < |r| ==> r[k] == if k < t then list[k] else list[k + 1]
  {
    list[..t] + list[t + 1..]
  }

  function Linked(h: Heap, t: nat, b: nat): Heap
    requires t < |h.list|
  {
    Heap(h.ptr[b := Next(h.list, t)][h.list[t] := b], h.size, Inserted(h.list, t, b), h.kind[b := Free], h.owner)
  }

  lemma InsertedSorted(list: seq<nat>, t: nat, b: nat)
    requires Sorted(list) && Between(list, t, b)
    ensures Sorted(Inserted(list, t, b))
  {
    var r := Inserted(list, t, b);
    forall j, k | 0 <= j < k < |r| ensures r[j] < r[k] {
      if k == t + 1 {
        assert j < t ==> list[j] < list[t];
      } else if j == t + 1 {
        assert k > t + 2 ==> list[t + 1] < list[k - 1];
      } else {
        assert list[if j <= t then j else j - 1] < list[if k <= t then k else k - 1];
      }
    }
  }

  lemma LinkedRing(h: Heap, base: nat, t: nat, b: nat)
    requires Ring(h, base) && Between(h.list, t, b) && b in h.kind
    ensures Ring(Linked(h, t, b), base)
  {
    var h' := Linked(h, t, b);
    InsertedSorted(h.list, t, b);
    forall k | 0 <= k < |h'.list| ensures LinkOk(h', k) {
      if k != t + 1 {
        assert LinkOk(h, if k < t + 1 then k else k - 1);
        assert h'.list[k] != h'.list[t + 1] && (k != t ==> h'.list[k] != h'.list[t]);
      }
    }
  }

  lemma InsertedMembers(list: seq<nat>, t: nat, b: nat)
    requires t < |list|
    ensures forall c :: c in Inserted(list, t, b) <==> c == b || c in list
  {
    forall c ensures c in Inserted(list, t, b) <==> c == b || c in list {
    }
  }

  lemma LinkedSound(h: Heap, base: nat, t: nat, b: nat)
    requires Inv(h, base) && Between(h.list, t, b) && b in h.kind
    ensures Sound(Linked(h, t, b), base)
    ensures forall j :: 0 <= j < |Linked(h, t, b).list| ==> Linked(h, t, b).list[j] in h.size
  {
    hide LinkOk;
    LinkedRing(h, base, t, b);
    InsertedMembers(h.list, t, b);
    var h' := Linked(h, t, b);
    forall c | c in h'.kind ensures Owns(h', c) {
      assert Owns(h, c);
    }
    ListSized(h', base);
  }

  /** Only the gaps around b may have closed. */
  lemma LinkedApart(h: Heap, base: nat, t: nat, b: nat, k: nat)
    requires Inv(h, base) && Between(h.list, t, b) && b in h.kind && k != t && k != t + 1
    requires forall j :: 0 <= j < |Linked(h, t, b).list| ==> Linked(h, t, b).list[j] in h.size
    ensures Apart(Linked(h, t, b), k)
  {
    hide Ring, OnList, LinkOk, Owns;
    assert Apart(h, if k < t then k else k - 1);
  }

  lemma NoOverlap(h: Heap, base: nat, b: nat, c: nat)
    requires Blocks(h, base) && b in h.kind && c in h.kind && b < c
    ensures b in h.size && b + h.size[b] <= c
  {
    assert Owns(h, b) && Owns(h, c);
    assert c in h.owner && h.owner[c] == c;
  }

  // ---------- merging neighbours ----------

  /** List entry k takes over entry k + 1, which begins where it ends. */
  function Merged(h: Heap, k: nat): Heap
    requires k + 1 < |h.list| && h.list[k] in h.size && h.list[k + 1] in h.size
  {
    var p, q := h.list[k], h.list[k + 1];
    Heap(h.ptr[p := Next(h.list, k + 1)], h.size[p := h.size[p] + h.size[q]], Without(h.list, k + 1),
         h.kind - {q}, map u | u in h.owner :: if h.owner[u] == q then p else h.owner[u])
  }

  lemma MergedRing(h: Heap, base: nat, k: nat)
    requires Ring(h, base) && 1 <= k && k + 1 < |h.list| && h.list[k] in h.size && h.list[k + 1] in h.size
    ensures Ring(Merged(h, k), base)
  {
    
    var h' := Merged(h, k);
    forall j | 0 <= j < |h'.list| ensures LinkOk(h', j) {
      assert LinkOk(h, if j < k + 1 then j else j + 1);
    }
  }

  lemma MergedBlocks(h: Heap, base: nat, k: nat)
    requires Blocks(h, base) && k + 1 < |h.list| && h.list[k] in h.kind && h.list[k + 1] in h.kind
    requires h.list[k] in h.size && h.list[k + 1] in h.size && h.list[k] + h.size[h.list[k]] == h.list[k + 1]
    ensures Blocks(Merged(h, k), base)
  {
    hide Without;
    var h', p, q := Merged(h, k), h.list[k], h.list[k + 1];
    assert Owns(h, p) && Owns(h, q);
    forall b | b in h'.kind ensures Owns(h', b) {
      assert Owns(h, b);
    }
  }

  lemma FreeAt(h: Heap, base: nat, k: nat)
    requires Ring(h, base) && OnList(h, base) && 1 <= k < |h.list|
    ensures h.list[k] in h.kind && h.kind[h.list[k]] == Free && h.list[k] > base
  {
    assert h.list[k] in h.list;
  }

  lemma WithoutMembers(list: seq<nat>, t: nat)
    requires t < |list| && Sorted(list)
    ensures forall c :: c in Without(list, t) <==> c in list && c != list[t]
  {
    forall c | c in list && c != list[t] ensures c in Without(list, t) {
      var j :| 0 <= j < |list| && list[j] == c;
      assert Without(list, t)[if j < t then j else j - 1] == c;
    }
    forall c | c in Without(list, t) ensures c in list && c != list[t] {
      var j :| 0 <= j < |Without(list, t)| && Without(list, t)[j] == c;
      assert c == list[if j < t then j else j + 1];
    }
  }

  lemma MergedSound(h: Heap, base: nat, k: nat)
    requires Sound(h, base) && 1 <= k && k + 1 < |h.list| && forall j :: 0 <= j < |h.list| ==> h.list[j] in h.size
    requires h.list[k] + h.size[h.list[k]] == h.list[k + 1]
    ensures Sound(Merged(h, k), base)
    ensures forall j :: 0 <= j < |Merged(h, k).list| ==> Merged(h, k).list[j] in Merged(h, k).size
  {
    hide LinkOk, Owns, Blocks;
    MergedRing(h, base, k);
    FreeAt(h, base, k);
    FreeAt(h, base, k + 1);
    MergedBlocks(h, base, k);
    WithoutMembers(h.list, k + 1);
    ListSized(Merged(h, k), base);
  }

  lemma MergedApart(h: Heap, base: nat, k: nat, j: nat)
    requires Sound(h, base) && 1 <= k && k + 1 < |h.list| && forall j :: 0 <= j < |h.list| ==> h.list[j] in h.size
    requires h.list[k] + h.size[h.list[k]] == h.list[k + 1] && Apart(h, if j < k then j else j + 1)
    requires forall j :: 0 <= j < |Merged(h, k).list| ==> Merged(h, k).list[j] in Merged(h, k).size
    ensures Apart(Merged(h, k), j)
  {
    hide OnList, LinkOk, Owns, Blocks;
  }

  // ---------- taking a block ----------

  /** A free block that fits exactly leaves the list. */
  function Unlinked(h: Heap, k: nat): Heap
    requires 1 <= k < |h.list|
  {
    Heap(h.ptr[h.list[k - 1] := Next(h.list, k)], h.size, Without(h.list, k), h.kind[h.list[k] := Live], h.owner)
  }

  lemma UnlinkedRing(h: Heap, base: nat, k: nat)
    requires Ring(h, base) && 1 <= k < |h.list|
    ensures Ring(Unlinked(h, k), base)
  {
    var h' := Unlinked(h, k);
    forall j | 0 <= j < |h'.list| ensures LinkOk(h', j) {
      assert LinkOk(h, if j < k then j else j + 1);
    }
    assert h.list[k] != base;
  }

  lemma UnlinkedInv(h: Heap, base: nat, k: nat)
    requires Inv(h, base) && 1 <= k < |h.list|
    ensures Inv(Unlinked(h, k), base)
  {
    hide Ring, OnList, Blocks;
    UnlinkedRing(h, base, k);
    UnlinkedBlocks(h, base, k);
    ListSized(Unlinked(h, k), base);
    UnlinkedApart(h, base, k);
  }

  lemma UnlinkedBlocks(h: Heap, base: nat, k: nat)
    requires Sound(h, base) && 1 <= k < |h.list|
    ensures OnList(Unlinked(h, k), base) && Blocks(Unlinked(h, k), base)
  {
    hide LinkOk;
    var h' := Unlinked(h, k);
    FreeAt(h, base, k);
    WithoutMembers(h.list, k);
    forall c | c in h'.kind ensures Owns(h', c) {
      assert Owns(h, c);
    }
  }

  lemma UnlinkedApart(h: Heap, base: nat, k: nat)
    requires Inv(h, base) && 1 <= k < |h.list|
    requires forall j :: 0 <= j < |Unlinked(h, k).list| ==> Unlinked(h, k).list[j] in Unlinked(h, k).size
    ensures Coalesced(Unlinked(h, k))
  {
    hide LinkOk, OnList, Blocks;
    var h' := Unlinked(h, k);
    forall j | 0 <= j < |h'.list| ensures Apart(h', j) {
      assert Apart(h, j) && Apart(h, j + 1);
    }
  }

  /** The last n units of a larger free block become a block of their own. */
  function Split(h: Heap, k: nat, n: nat): Heap
    requires k < |h.list| && h.list[k] in h.size && n < h.size[h.list[k]]
  {
    var p := h.list[k];
    var q := p + h.size[p] - n;
    Heap(h.ptr, h.size[p := h.size[p] - n][q := n], h.list, h.kind[q := Live],
         map u | u in h.owner :: if h.owner[u] == p && u >= q then q else h.owner[u])
  }

  lemma SplitBlocks(h: Heap, base: nat, k: nat, n: nat)
    requires Blocks(h, base) && k < |h.list| && h.list[k] in h.kind && h.list[k] in h.size && 1 <= n < h.size[h.list[k]]
    ensures Blocks(Split(h, k, n), base)
    ensures h.list[k] + h.size[h.list[k]] - n !in h.kind && h.list[k] + h.size[h.list[k]] - n > base
  {
    var h', p := Split(h, k, n), h.list[k];
    var q := p + h.size[p] - n;
    assert Owns(h, p);
    assert q in h.owner && h.owner[q] == p;
    assert q in h.kind ==> Owns(h, q);
    forall b | b in h'.kind ensures Owns(h', b) {
      assert b != q ==> Owns(h, b);
    }
  }

  lemma SplitInv(h: Heap, base: nat, k: nat, n: nat)
    requires Inv(h, base) && 1 <= k < |h.list| && 1 <= n < h.size[h.list[k]]
    ensures Inv(Split(h, k, n), base)
    ensures h.list[k] + h.size[h.list[k]] - n !in h.kind && Split(h, k, n).owner.Keys == h.owner.Keys
  {
    hide Owns, Blocks;
    FreeAt(h, base, k);
    SplitBlocks(h, base, k, n);
    var h' := Split(h, k, n);
    forall j | 0 <= j < |h'.list| ensures LinkOk(h', j) {
      assert LinkOk(h, j);
    }
    ListSized(h', base);
    forall j | 0 <= j < |h'.list| ensures Apart(h', j) {
      assert Apart(h, j);
      assert h.list[j] in h.list;
    }
  }

  // ---------- more memory ----------

  /** n fresh units at b, as a block in use. */
  ghost function Grown(h: Heap, b: nat, n: nat): Heap {
    Heap(h.ptr, h.size[b := n], h.list, h.kind[b := Live], Widened(h.owner, b, Span(b, n)))
  }

  ghost function Widened(owner: map<nat, nat>, b: nat, span: set<nat>): (r: map<nat, nat>)
    ensures forall u :: u in r <==> u in owner || u in span
    ensures forall u :: u in r ==> r[u] == if u in owner then owner[u] else b
  {
    map u | u in owner.Keys + span :: if u in owner then owner[u] else b
  }

  lemma WidenedOwns(h: Heap, h': Heap, b: nat, n: nat, span: set<nat>, c: nat)
    requires n >= 1 && (forall u :: u in h.owner ==> u < b) && forall u :: u in span <==> b <= u < b + n
    requires h'.owner == Widened(h.owner, b, span) && h'.size == h.size[b := n]
    requires if c == b then forall u :: u in h.owner ==> h.owner[u] != b else Owns(h, c)
    ensures Owns(h', c)
  {
  }

  lemma GrownOwners(h: Heap, base: nat, b: nat, n: nat)
    requires Blocks(h, base) && b > base
    ensures
      var h' := Grown(h, b, n);
      && h'.owner.Keys == h.owner.Keys + Span(b, n)
      && forall u :: u in h'.owner ==> h'.owner[u] in h'.kind && u > base
  {
    hide Span, Owns;
    SpanIs(b, n);
  }

  lemma GrownBlocks(h: Heap, base: nat, b: nat, n: nat)
    requires Blocks(h, base) && b > base && n >= 1 && forall u :: u in h.owner ==> u < b
    ensures Blocks(Grown(h, b, n), base) && b !in h.kind
    ensures Grown(h, b, n).owner.Keys == h.owner.Keys + Span(b, n)
  {
    hide Owns, Span, Widened;
    var h' := Grown(h, b, n);
    SpanIs(b, n);
    NewAddress(h, base, b);
    GrownOwners(h, base, b, n);
    forall c | c in h'.kind ensures Owns(h', c) {
      WidenedOwns(h, h', b, n, Span(b, n), c);
    }
  }

  lemma SpanIs(b: nat, n: nat)
    ensures forall u :: u in Span(b, n) <==> b <= u < b + n
  {
  }

  lemma NewAddress(h: Heap, base: nat, b: nat)
    requires Blocks(h, base) && forall u :: u in h.owner ==> u < b
    ensures b !in h.kind && forall u :: u in h.owner ==> h.owner[u] != b
  {
    assert b in h.kind ==> Owns(h, b) && b in h.owner;
  }

  lemma GrownInv(h: Heap, base: nat, b: nat, n: nat)
    requires Inv(h, base) && b > base && n >= 1 && forall u :: u in h.owner ==> u < b
    ensures Inv(Grown(h, b, n), base) && b !in h.kind && b !in h.list
    ensures Grown(h, b, n).owner.Keys == h.owner.Keys + Span(b, n)
  {
    hide Ring, OnList, Owns, Blocks, Span, Widened;
    GrownBlocks(h, base, b, n);
    GrownList(h, base, b, n);
    GrownApart(h, b, n);
  }

  lemma GrownList(h: Heap, base: nat, b: nat, n: nat)
    requires Ring(h, base) && OnList(h, base) && b != base && b !in h.kind
    ensures b !in h.list && Ring(Grown(h, b, n), base) && OnList(Grown(h, b, n), base)
  {
    hide Span, Widened;
    var h' := Grown(h, b, n);
    forall j | 0 <= j < |h'.list| ensures LinkOk(h', j) {
      assert LinkOk(h, j);
    }
  }

  lemma GrownApart(h: Heap, b: nat, n: nat)
    requires (forall j :: 0 <= j < |h.list| ==> h.list[j] in h.size) && Coalesced(h) && b !in h.list
    ensures forall j :: 0 <= j < |h.list| ==> h.list[j] in Grown(h, b, n).size
    ensures Coalesced(Grown(h, b, n))
  {
    hide Span, Widened;
    var h' := Grown(h, b, n);
    forall j | 0 <= j < |h.list| ensures h'.size[h.list[j]] == h.size[h.list[j]] {
    }
    forall j | 0 <= j < |h'.list| ensures Apart(h', j) {
      assert Apart(h, j);
    }
  }

  // ---------- the whole of free ----------

  /** Linked in, and merged with the next entry if that begins where b ends. */
  function WithNext(h: Heap, t: nat, b: nat): (c: Heap)
    requires t < |h.list| && b in h.size && forall j :: 0 <= j < |h.list| ==> h.list[j] in h.size
    ensures t + 1 < |c.list| && c.list[t] == h.list[t] && c.list[t + 1] == b && h.list[t] in c.size && b in c.size
  {
    var a := Linked(h, t, b);
    if t + 1 < |h.list| && b + h.size[b] == h.list[t + 1] then Merged(a, t + 1) else a
  }

  /** Block b, between entries t and t + 1, is linked in and merged with its neighbours
      where they touch. */
  function Freed(h: Heap, t: nat, b: nat): Heap
    requires t < |h.list| && b in h.size && forall j :: 0 <= j < |h.list| ==> h.list[j] in h.size
  {
    var c := WithNext(h, t, b);
    if h.list[t] + h.size[h.list[t]] == b then Merged(c, t) else c
  }

  lemma LinkedUntouched(h: Heap, base: nat, t: nat, b: nat)
    requires Sound(h, base) && t < |h.list| && b in h.kind
    ensures Untouched(h, Linked(h, t, b), b)
  {
    hide LinkOk, Inserted;
    assert Owns(h, b);
    if t > 0 {
      FreeAt(h, base, t);
      assert Owns(h, h.list[t]);
    }
  }

  lemma FreeUnit(h: Heap, base: nat, p: nat)
    requires Blocks(h, base) && p in h.kind && h.kind[p] == Free
    ensures p in h.owner && h.owner[p] == p && !InUse(h, p)
  {
    assert Owns(h, p);
    assert p in h.owner && h.owner[p] == p;
  }

  lemma MergedUntouched(h: Heap, base: nat, k: nat, b: nat)
    requires Sound(h, base) && 1 <= k && k + 1 < |h.list| && h.list[k] in h.size && h.list[k + 1] in h.size
    ensures Untouched(h, Merged(h, k), b)
  {
    hide Ring, OnList, LinkOk, Without, Blocks, Owns;
    FreeAt(h, base, k);
    FreeAt(h, base, k + 1);
    FreeUnit(h, base, h.list[k]);
  }

  lemma UntouchedThen(h: Heap, h1: Heap, h2: Heap, b: nat)
    requires Untouched(h, h1, b) && Untouched(h1, h2, b)
    ensures Untouched(h, h2, b)
  {
  }

  /** Both neighbours leave room for b. */
  lemma RoomFor(h: Heap, base: nat, t: nat, b: nat)
    requires Inv(h, base) && Between(h.list, t, b) && b in h.kind
    ensures b in h.size && h.size[b] >= 1 && b > base
    ensures h.list[t] + h.size[h.list[t]] <= b && (t == 0 ==> h.list[t] + h.size[h.list[t]] < b)
    ensures t + 1 < |h.list| ==> b + h.size[b] <= h.list[t + 1]
  {
    hide LinkOk;
    assert Owns(h, b);
    assert b in h.owner;
    if t > 0 {
      FreeAt(h, base, t);
      NoOverlap(h, base, h.list[t], b);
    }
    if t + 1 < |h.list| {
      FreeAt(h, base, t + 1);
      NoOverlap(h, base, b, h.list[t + 1]);
    }
  }

  lemma WithNextApart(h: Heap, base: nat, t: nat, b: nat)
    requires Inv(h, base) && Between(h.list, t, b) && b in h.kind && b in h.size
    ensures
      var c := WithNext(h, t, b);
      && Sound(c, base) && (forall j :: 0 <= j < |c.list| ==> c.list[j] in c.size)
      && (forall j :: 0 <= j < |c.list| && j != t ==> Apart(c, j))
      && c.owner.Keys == h.owner.Keys && Untouched(h, c, b)
  {
    hide LinkOk, Owns, OnList, Blocks, Ring, Linked, Merged, Untouched;
    RoomFor(h, base, t, b);
    LinkedLength(h, t, b);
    LinkedSound(h, base, t, b);
    LinkedUntouched(h, base, t, b);
    LinkedSame(h, t, b);
    if t + 1 < |h.list| && b + h.size[b] == h.list[t + 1] {
      MergedNext(h, base, t, b);
    } else {
      LinkedApartElse(h, base, t, b);
    }
  }

  lemma LinkedSame(h: Heap, t: nat, b: nat)
    requires t < |h.list|
    ensures Linked(h, t, b).size == h.size && Linked(h, t, b).owner == h.owner
  {
  }

  /** Linked in with room on both sides. */
  lemma LinkedApartElse(h: Heap, base: nat, t: nat, b: nat)
    requires Inv(h, base) && Between(h.list, t, b) && b in h.kind && b in h.size
    requires !(t + 1 < |h.list| && b + h.size[b] == h.list[t + 1])
    requires forall j :: 0 <= j < |Linked(h, t, b).list| ==> Linked(h, t, b).list[j] in h.size
    ensures forall j :: 0 <= j < |Linked(h, t, b).list| && j != t ==> Apart(Linked(h, t, b), j)
  {
    hide LinkOk, Owns, OnList, Blocks, Inserted, Ring;
    RoomFor(h, base, t, b);
    LinkedLength(h, t, b);
    forall j | 0 <= j < |Linked(h, t, b).list| && j != t ensures Apart(Linked(h, t, b), j) {
      if j != t + 1 {
        LinkedApart(h, base, t, b, j);
      }
    }
  }

  /** Linked in and merged with the entry that begins where b ends. */
  lemma MergedNext(h: Heap, base: nat, t: nat, b: nat)
    requires Inv(h, base) && Between(h.list, t, b) && b in h.kind && b in h.size
    requires t + 1 < |h.list| && b + h.size[b] == h.list[t + 1]
    ensures
      var c := Merged(Linked(h, t, b), t + 1);
      && Sound(c, base) && (forall j :: 0 <= j < |c.list| ==> c.list[j] in c.size)
      && (forall j :: 0 <= j < |c.list| && j != t ==> Apart(c, j))
      && c.owner.Keys == h.owner.Keys && Untouched(h, c, b)
  {
    hide LinkOk, Owns, OnList, Blocks, Inserted, Without, Ring, Untouched;
    var a := Linked(h, t, b);
    var c := Merged(a, t + 1);
    RoomFor(h, base, t, b);
    LinkedLength(h, t, b);
    LinkedSound(h, base, t, b);
    LinkedUntouched(h, base, t, b);
    MergedSound(a, base, t + 1);
    MergedUntouched(a, base, t + 1, b);
    UntouchedThen(h, a, c, b);
    forall j | 0 <= j < |c.list| && j != t ensures Apart(c, j) {
      LinkedApart(h, base, t, b, if j < t + 1 then j else j + 1);
      MergedApart(a, base, t + 1, j);
    }
  }

  lemma LinkedLength(h: Heap, t: nat, b: nat)
    requires t < |h.list|
    ensures
      var list := Linked(h, t, b).list;
      && |list| == |h.list| + 1 && list[t] == h.list[t] && list[t + 1] == b
      && (t + 1 < |h.list| ==> list[t + 2] == h.list[t + 1])
  {
  }

  /** Freeing keeps the list in order and fully merged; the units of b are in a free
      block at least as large; all other blocks in use are left alone. */
  lemma FreedInv(h: Heap, base: nat, t: nat, b: nat)
    requires Inv(h, base) && Between(h.list, t, b) && b in h.kind && b in h.size
    ensures Inv(Freed(h, t, b), base)
    ensures Freed(h, t, b).owner.Keys == h.owner.Keys && Untouched(h, Freed(h, t, b), b)
    ensures exists k :: 1 <= k < |Freed(h, t, b).list| && Freed(h, t, b).size[Freed(h, t, b).list[k]] >= h.size[b]
  {
    hide LinkOk, Owns, OnList, Blocks, Inserted, Without, Ring, WithNext, Untouched;
    var c, f := WithNext(h, t, b), Freed(h, t, b);
    RoomFor(h, base, t, b);
    WithNextApart(h, base, t, b);
    NextSizes(h, t, b);
    if h.list[t] + h.size[h.list[t]] == b {
      MergedSound(c, base, t);
      MergedUntouched(c, base, t, b);
      UntouchedThen(h, c, f, b);
      forall j | 0 <= j < |f.list| ensures Apart(f, j) {
        MergedApart(c, base, t, j);
      }
      MergedSize(c, t);
    } else {
      assert c.list[t + 1] == b;
    }
  }

  lemma NextSizes(h: Heap, t: nat, b: nat)
    requires t < |h.list| && b in h.size && h.list[t] != b && forall j :: 0 <= j < |h.list| ==> h.list[j] in h.size
    ensures
      var c := WithNext(h, t, b);
      && t + 1 < |c.list| && c.list[t] == h.list[t] && c.list[t + 1] == b && h.list[t] in c.size && b in c.size
      && c.size[h.list[t]] == h.size[h.list[t]] && c.size[b] >= h.size[b]
  {
    LinkedLength(h, t, b);
  }

  lemma MergedSize(h: Heap, k: nat)
    requires k + 1 < |h.list| && h.list[k] in h.size && h.list[k + 1] in h.size
    ensures
      var f := Merged(h, k);
      && k < |f.list| && f.list[k] == h.list[k]
      && f.ptr == h.ptr[h.list[k] := Next(h.list, k + 1)]
      && f.size == h.size[h.list[k] := h.size[h.list[k]] + h.size[h.list[k + 1]]]
  {
  }

  lemma Overwritten(m: map<nat, nat>, p: nat, x: nat, y: nat)
    ensures m[p := x][p := y] == m[p := y]
  {
  }

  lemma MergedUsed(h: Heap, base: nat, k: nat)
    requires Sound(h, base) && 1 <= k && k + 1 < |h.list| && h.list[k] in h.size && h.list[k + 1] in h.size
    ensures Used(Merged(h, k)) == Used(h)
  {
    hide LinkOk, Owns, Without;
    FreeAt(h, base, k + 1);
  }

  lemma FreedUsed(h: Heap, base: nat, t: nat, b: nat)
    requires Inv(h, base) && Between(h.list, t, b) && b in h.kind && b in h.size
    ensures Used(Freed(h, t, b)) == Used(h) - {b}
  {
    hide LinkOk, Owns, OnList, Blocks, Inserted, Without, Ring;
    RoomFor(h, base, t, b);
    LinkedSound(h, base, t, b);
    LinkedLength(h, t, b);
    WithNextApart(h, base, t, b);
    assert Used(Linked(h, t, b)) == Used(h) - {b};
    if t + 1 < |h.list| && b + h.size[b] == h.list[t + 1] {
      MergedUsed(Linked(h, t, b), base, t + 1);
    }
    if h.list[t] + h.size[h.list[t]] == b {
      MergedUsed(WithNext(h, t, b), base, t);
    }
  }

  // ---------- what taking a block leaves alone ----------

  lemma UnlinkedUntouched(h: Heap, base: nat, k: nat)
    requires Sound(h, base) && 1 <= k < |h.list|
    ensures Untouched(h, Unlinked(h, k), base) && Used(Unlinked(h, k)) == Used(h) + {h.list[k]} && h.list[k] !in Used(h)
  {
    hide LinkOk, Without;
    FreeAt(h, base, k);
    if k > 1 {
      FreeAt(h, base, k - 1);
      assert Owns(h, h.list[k - 1]);
    }
  }

  lemma SplitUntouched(h: Heap, base: nat, k: nat, n: nat)
    requires Sound(h, base) && 1 <= k < |h.list| && h.list[k] in h.size && 1 <= n < h.size[h.list[k]]
    ensures Untouched(h, Split(h, k, n), base)
  {
    hide Ring, OnList, LinkOk, Blocks, Owns;
    FreeAt(h, base, k);
    SplitBlocks(h, base, k, n);
    FreeInside(h, base, h.list[k], 0);
    FreeInside(h, base, h.list[k], h.size[h.list[k]] - n);
  }

  /** No unit of a free block belongs to one in use. */
  lemma FreeInside(h: Heap, base: nat, p: nat, d: nat)
    requires Blocks(h, base) && p in h.kind && h.kind[p] == Free && p in h.size && d < h.size[p]
    ensures p + d in h.owner && h.owner[p + d] == p && !InUse(h, p + d)
  {
    assert Owns(h, p);
    assert p + d in h.owner && h.owner[p + d] == p;
  }

  lemma SplitUsed(h: Heap, base: nat, k: nat, n: nat)
    requires Sound(h, base) && 1 <= k < |h.list| && h.list[k] in h.size && 1 <= n < h.size[h.list[k]]
    ensures
      var q := h.list[k] + h.size[h.list[k]] - n;
      Used(Split(h, k, n)) == Used(h) + {q} && q !in Used(h)
  {
    hide LinkOk, Owns;
    FreeAt(h, base, k);
    SplitBlocks(h, base, k, n);
  }

  lemma GrownUntouched(h: Heap, base: nat, b: nat, n: nat)
    requires Blocks(h, base) && n >= 1 && forall u :: u in h.owner ==> u < b
    ensures Untouched(h, Grown(h, b, n), base)
  {
    hide Span, Owns;
    NewAddress(h, base, b);
  }

  lemma GrownUsed(h: Heap, base: nat, b: nat, n: nat)
    requires Blocks(h, base) && n >= 1 && forall u :: u in h.owner ==> u < b
    ensures Used(Grown(h, b, n)) == Used(h) + {b} && b !in Used(h)
  {
    hide Span, Widened, Owns;
    NewAddress(h, base, b);
  }

  // ---------- the header words free leaves behind ----------

  predicate TouchesNext(h: Heap, t: nat, b: nat)
    requires t < |h.list| && b in h.size
  {
    t + 1 < |h.list| && b + h.size[b] == h.list[t + 1]
  }

  lemma WithNextWords(h: Heap, t: nat, b: nat)
    requires t < |h.list| && b in h.size && h.list[t] != b && forall j :: 0 <= j < |h.list| ==> h.list[j] in h.size
    ensures
      var c, p := WithNext(h, t, b), h.list[t];
      && t + 1 < |c.list| && c.list[t] == p && c.list[t + 1] == b
      && if TouchesNext(h, t, b)
         then
           && c.ptr == h.ptr[b := Next(h.list, t + 1)][p := b]
           && c.size == h.size[b := h.size[b] + h.size[h.list[t + 1]]]
           && Next(c.list, t + 1) == Next(h.list, t + 1)
         else
           && c.ptr == h.ptr[b := Next(h.list, t)][p := b] && c.size == h.size
           && Next(c.list, t + 1) == Next(h.list, t)
  {
    LinkedLength(h, t, b);
    var a := Linked(h, t, b);
    if TouchesNext(h, t, b) {
      assert Next(a.list, t + 2) == Next(h.list, t + 1);
    }
  }

  lemma FreedWords(h: Heap, t: nat, b: nat)
    requires t < |h.list| && b in h.size && h.list[t] != b && forall j :: 0 <= j < |h.list| ==> h.list[j] in h.size
    ensures
      var f, p := Freed(h, t, b), h.list[t];
      var next := if TouchesNext(h, t, b) then Next(h.list, t + 1) else Next(h.list, t);
      var size := if TouchesNext(h, t, b) then h.size[b] + h.size[h.list[t + 1]] else h.size[b];
      && p in f.list
      && if p + h.size[p] == b
         then f.ptr == h.ptr[b := next][p := next] && f.size == h.size[b := size][p := h.size[p] + size]
         else f.ptr == h.ptr[b := next][p := b] && f.size == h.size[b := size]
  {
    hide WithNext, Linked, Inserted, Merged, Next;
    WithNextWords(h, t, b);
    var c, p := WithNext(h, t, b), h.list[t];
    if p + h.size[p] == b {
      MergedSize(c, t);
      Overwritten(c.ptr, p, b, Next(c.list, t + 1));
      var next := if TouchesNext(h, t, b) then Next(h.list, t + 1) else Next(h.list, t);
      Overwritten(h.ptr[b := next], p, b, next);
    }
    assert Freed(h, t, b).list[t] == p;
  }
}
