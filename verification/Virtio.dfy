/** The virtio disk driver: descriptors, the two rings and requests in flight (sections
    2.6 and 5.2 of VIRTIO 1.1). Each method of `Disk` is one critical section of the
    driver or one step of the device, so a run is any sequence of calls. */
module VirtioRing {
  import opened Wrappers

  const NUM := 8
  const WRAP := 65536   // the ring indices are 16 bits wide

  const NEXT := 1       // VRING_DESC_F_NEXT
  const WRITE := 2      // VRING_DESC_F_WRITE
  const HEADLEN := 16   // sizeof(struct virtio_blk_req)
  const BSIZE := 1024

  /** What a descriptor's address points to. */
  datatype Addr = Null | Op(i: nat) | Data(buf: nat) | Status(i: nat)
  datatype Desc = Desc(addr: Addr, len: nat, flags: nat, next: nat)
  datatype Cmd = Cmd(write: bool, sector: nat)
  datatype Info = Info(buf: Option<nat>, status: nat)

  /** A request: its buffer, command and the second and third descriptor. */
  datatype Req = Req(buf: nat, write: bool, sector: nat, i1: nat, i2: nat)
  datatype Stage = Unread | Working | Unseen | Complete

  /** Driver and device memory with, for the proof, the requests by first descriptor,
      their stage, the chain of each descriptor in use, the request of each buffer, and
      the heads that wait to be read by the device and by the driver. */
  datatype State = State(
    free: seq<bool>, desc: seq<Desc>, ops: seq<Cmd>, info: seq<Info>, busy: set<nat>,
    requests: map<nat, Req>, stage: map<nat, Stage>, part: map<nat, nat>, at: map<nat, nat>,
    unread: seq<nat>, unseen: seq<nat>)

  // ---------- invariant ----------

  ghost predicate Sized(s: State) {
    |s.free| == NUM && |s.desc| == NUM && |s.ops| == NUM && |s.info| == NUM
  }

  predicate InChain(h: nat, r: Req, i: nat) {
    i == h || i == r.i1 || i == r.i2
  }

  function Flags(write: bool): nat {
    if write then NEXT else WRITE + NEXT
  }

  /** What the device finds when it follows the chain from descriptor h. */
  function Decode(s: State, h: nat): Option<Req>
    requires |s.desc| == NUM && |s.ops| == NUM
  {
    if h >= NUM then None else
      var d0 := s.desc[h];
      if d0 != Desc(Op(h), HEADLEN, NEXT, d0.next) || d0.next >= NUM then None else
        var d1 := s.desc[d0.next];
        if !d1.addr.Data? || d1.len != BSIZE || d1.flags != Flags(s.ops[h].write) || d1.next >= NUM then None else
          var d2 := s.desc[d1.next];
          if d2 != Desc(Status(h), 1, WRITE, 0) then None
          else Some(Req(d1.addr.buf, s.ops[h].write, s.ops[h].sector, d0.next, d1.next))
  }

  /** Chain h is three descriptors of its own that spell out its request. */
  ghost predicate ChainOk(s: State, h: nat)
    requires Sized(s) && h in s.requests
  {
    var r := s.requests[h];
    && h < NUM && r.i1 < NUM && r.i2 < NUM && h != r.i1 && h != r.i2 && r.i1 != r.i2
    && h in s.part && s.part[h] == h && r.i1 in s.part && s.part[r.i1] == h && r.i2 in s.part && s.part[r.i2] == h
    && Decode(s, h) == Some(r) && s.info[h].buf == Some(r.buf)
  }

  /** Every descriptor is free or in exactly one chain. */
  ghost predicate Chains(s: State) {
    && Sized(s)
    && (forall h :: h in s.requests ==> ChainOk(s, h))
    && (forall i :: 0 <= i < NUM ==> (s.free[i] <==> i !in s.part))
    && (forall i :: i in s.part ==> i < NUM && s.part[i] in s.requests && InChain(s.part[i], s.requests[s.part[i]], i))
  }

  ghost predicate Distinct(q: seq<nat>) {
    forall j, k :: 0 <= j < k < |q| ==> q[j] != q[k]
  }

  /** The two queues hold the requests of their stages, once each. */
  ghost predicate Queues(s: State) {
    && s.stage.Keys == s.requests.Keys && Distinct(s.unread) && Distinct(s.unseen)
    && (forall h :: h in s.unread <==> h in s.stage && s.stage[h] == Unread)
    && (forall h :: h in s.unseen <==> h in s.stage && s.stage[h] == Unseen)
  }

  /** A buffer is marked busy while its own request is unfinished. */
  ghost predicate Buffers(s: State) {
    && (forall h :: h in s.requests ==> s.requests[h].buf in s.at && s.at[s.requests[h].buf] == h)
    && (forall b :: b in s.at ==> s.at[b] in s.requests && s.requests[s.at[b]].buf == b)
    && (forall b :: b in s.busy <==> b in s.at && s.at[b] in s.stage && s.stage[s.at[b]] != Complete)
  }

  ghost predicate Inv(s: State) {
    Chains(s) && Queues(s) && Buffers(s)
  }

  // ---------- at most two requests ----------

  ghost function Members(s: State, heads: set<nat>): set<nat> {
    set i | i in s.part && s.part[i] in heads
  }

  lemma ChainMembers(s: State, h: nat)
    requires Chains(s) && h in s.requests
    ensures forall i :: (i in s.part && s.part[i] == h) <==> InChain(h, s.requests[h], i)
    ensures
      var r := s.requests[h];
      h < NUM && r.i1 < NUM && r.i2 < NUM && h != r.i1 && h != r.i2 && r.i1 != r.i2
  {
    hide Decode;
    assert ChainOk(s, h);
  }

  lemma OneChain(s: State, heads: set<nat>, h: nat)
    requires Chains(s) && heads <= s.requests.Keys && h in heads
    ensures |Members(s, heads)| == |Members(s, heads - {h})| + 3
  {
    hide Chains;
    ChainMembers(s, h);
    var r := s.requests[h];
    var rest, mine := Members(s, heads - {h}), {h, r.i1, r.i2};
    assert Members(s, heads) == rest + mine && rest !! mine;
    assert mine == {h} + {r.i1} + {r.i2};
  }

  lemma {:induction false} ThreeEach(s: State, heads: set<nat>)
    requires Chains(s) && heads <= s.requests.Keys
    ensures |Members(s, heads)| == 3 * |heads|
    decreases heads
  {
    hide Chains;
    if heads == {} {
      assert Members(s, heads) == {};
    } else {
      var h :| h in heads;
      ThreeEach(s, heads - {h});
      OneChain(s, heads, h);
      assert |heads| == |heads - {h}| + 1;
    }
  }

  lemma {:induction false} BelowCount(q: set<nat>, n: nat)
    requires forall i :: i in q ==> i < n
    ensures |q| <= n
    decreases n
  {
    if n > 0 {
      BelowCount(q - {n - 1}, n - 1);
    } else {
      assert q == {};
    }
  }

  /** Descriptors allow two requests at a time. */
  lemma TwoAtMost(s: State)
    requires Chains(s)
    ensures |s.requests| <= 2
  {
    ThreeEach(s, s.requests.Keys);
    BelowCount(Members(s, s.requests.Keys), NUM);
  }

  lemma {:induction false} QueueCount(q: seq<nat>, heads: set<nat>)
    requires Distinct(q) && forall k :: 0 <= k < |q| ==> q[k] in heads
    ensures |q| <= |heads|
    decreases q
  {
    if q != [] {
      var last := q[|q| - 1];
      QueueCount(q[..|q| - 1], heads - {last});
    }
  }

  lemma ShortQueues(s: State)
    requires Inv(s)
    ensures |s.unread| <= 2 && |s.unseen| <= 2
  {
    hide Chains, Buffers;
    TwoAtMost(s);
    assert forall k :: 0 <= k < |s.unread| ==> s.unread[k] in s.unread;
    assert forall k :: 0 <= k < |s.unseen| ==> s.unseen[k] in s.unseen;
    QueueCount(s.unread, s.requests.Keys);
    QueueCount(s.unseen, s.requests.Keys);
  }

  // ---------- 16-bit indices ----------

  lemma WholeRounds(a: nat, k: nat)
    ensures (NUM * a + k) % NUM == k % NUM
  {
  }

  /** NUM divides the range of the indices, so wrapping does not disturb ring places. */
  lemma PlaceAfterWrap(k: nat)
    ensures k % WRAP % NUM == k % NUM
  {
    WholeRounds(8192 * (k / WRAP), k % WRAP);
  }

  lemma IndexMoves(k: nat)
    ensures (k % WRAP + 1) % WRAP == (k + 1) % WRAP
  {
  }

  /** Two counts at most NUM apart have equal indices only if they are equal. */
  lemma IndexEqual(k: nat, n: nat)
    requires n <= NUM
    ensures k % WRAP == (k + n) % WRAP <==> n == 0
  {
  }

  lemma PlacesDiffer(a: nat, b: nat)
    requires a < b < a + NUM
    ensures a % NUM != b % NUM
  {
  }

  /** The entries of a ring from count `from` on. */
  ghost predicate Holds(ring: seq<nat>, from: nat, q: seq<nat>) {
    |ring| == NUM && forall k :: 0 <= k < |q| ==> ring[(from + k) % NUM] == q[k]
  }

  /** A new entry overwrites none that is still waiting. */
  lemma HoldsMore(ring: seq<nat>, from: nat, q: seq<nat>, h: nat)
    requires Holds(ring, from, q) && |q| < NUM
    ensures Holds(ring[(from + |q|) % NUM := h], from, q + [h])
  {
    var ring', q' := ring[(from + |q|) % NUM := h], q + [h];
    forall k | 0 <= k < |q'| ensures ring'[(from + k) % NUM] == q'[k] {
      if k < |q| {
        PlacesDiffer(from + k, from + |q|);
      }
    }
  }

  lemma HoldsLess(ring: seq<nat>, from: nat, q: seq<nat>)
    requires Holds(ring, from, q) && q != []
    ensures ring[from % NUM] == q[0] && Holds(ring, from + 1, q[1..])
  {
    assert ring[(from + 0) % NUM] == q[0];
    forall k | 0 <= k < |q[1..]| ensures ring[(from + 1 + k) % NUM] == q[1..][k] {
      assert ring[(from + (k + 1)) % NUM] == q[k + 1];
    }
  }

  // ---------- what each step does to the state ----------

  /** virtio_disk_rw up to its sleep: three free descriptors become the chain of a new
      request, and its head waits for the device. */
  function Posted(s: State, h: nat, r: Req): State
    requires Sized(s) && h < NUM && r.i1 < NUM && r.i2 < NUM
  {
    s.(free := s.free[h := false][r.i1 := false][r.i2 := false],
       desc := s.desc[h := Desc(Op(h), HEADLEN, NEXT, r.i1)][r.i1 := Desc(Data(r.buf), BSIZE, Flags(r.write), r.i2)]
                     [r.i2 := Desc(Status(h), 1, WRITE, 0)],
       ops := s.ops[h := Cmd(r.write, r.sector)],
       info := s.info[h := Info(Some(r.buf), 0xff)],
       busy := s.busy + {r.buf},
       requests := s.requests[h := r], stage := s.stage[h := Unread],
       part := s.part[h := h][r.i1 := h][r.i2 := h], at := s.at[r.buf := h],
       unread := s.unread + [h])
  }

  ghost predicate CanPost(s: State, h: nat, r: Req)
    requires Sized(s)
  {
    && h < NUM && r.i1 < NUM && r.i2 < NUM && h != r.i1 && h != r.i2 && r.i1 != r.i2
    && s.free[h] && s.free[r.i1] && s.free[r.i2] && r.buf !in s.at
  }

  lemma PostedDecode(s: State, h: nat, r: Req)
    requires Sized(s) && CanPost(s, h, r)
    ensures Decode(Posted(s, h, r), h) == Some(r)
  {
  }

  lemma PostedWords(s: State, h: nat, r: Req)
    requires Sized(s) && h < NUM && r.i1 < NUM && r.i2 < NUM
    ensures
      var p := Posted(s, h, r);
      && p.free == s.free[h := false][r.i1 := false][r.i2 := false]
      && p.desc == s.desc[h := Desc(Op(h), HEADLEN, NEXT, r.i1)][r.i1 := Desc(Data(r.buf), BSIZE, Flags(r.write), r.i2)]
                         [r.i2 := Desc(Status(h), 1, WRITE, 0)]
      && p.ops == s.ops[h := Cmd(r.write, r.sector)] && p.info == s.info[h := Info(Some(r.buf), 0xff)]
      && p.busy == s.busy + {r.buf} && p.unread == s.unread + [h] && p.unseen == s.unseen
  {
  }

  /** Descriptor i and what the chains say of it are the same. */
  predicate SameAt(s: State, s': State, i: nat)
    requires Sized(s) && Sized(s') && i < NUM
  {
    && s'.desc[i] == s.desc[i] && s'.ops[i] == s.ops[i] && s'.info[i].buf == s.info[i].buf
    && (i in s.part ==> i in s'.part && s'.part[i] == s.part[i])
  }

  /** A chain none of whose descriptors changed is as good as before. */
  lemma ChainKept(s: State, s': State, h: nat)
    requires Sized(s) && Sized(s') && h in s.requests && h in s'.requests && s'.requests[h] == s.requests[h]
    requires ChainOk(s, h)
    requires SameAt(s, s', h) && SameAt(s, s', s.requests[h].i1) && SameAt(s, s', s.requests[h].i2)
    ensures ChainOk(s', h)
  {
  }

  lemma ChainsSame(s: State, s': State)
    requires Chains(s) && Sized(s') && s'.free == s.free && s'.part == s.part && s'.requests == s.requests
    requires forall i :: 0 <= i < NUM ==> SameAt(s, s', i)
    ensures Chains(s')
  {
    hide ChainOk, Decode;
    forall g | g in s'.requests ensures ChainOk(s', g) {
      ChainMembers(s, g);
      ChainKept(s, s', g);
    }
  }

  lemma NewHead(s: State, h: nat)
    requires Chains(s) && h < NUM && s.free[h]
    ensures h !in s.requests && forall g :: g in s.requests ==> !InChain(g, s.requests[g], h)
  {
    hide Decode;
    forall g | g in s.requests ensures g != h && !InChain(g, s.requests[g], h) {
      ChainMembers(s, g);
    }
  }

  lemma PostedChains(s: State, h: nat, r: Req)
    requires Sized(s) && Chains(s) && CanPost(s, h, r)
    ensures Chains(Posted(s, h, r)) && h !in s.requests
  {
    hide ChainOk, Decode, Chains;
    var s' := Posted(s, h, r);
    NewHead(s, h);
    NewHead(s, r.i1);
    NewHead(s, r.i2);
    forall g | g in s'.requests ensures ChainOk(s', g) {
      if g == h {
        PostedChain(s, h, r);
      } else {
        ChainMembers(s, g);
        ChainHere(s, g);
        ChainKept(s, s', g);
      }
    }
    PostedParts(s, h, r);
  }

  lemma ChainHere(s: State, h: nat)
    requires Chains(s) && h in s.requests
    ensures Sized(s) && ChainOk(s, h)
  {
  }

  lemma PostedChain(s: State, h: nat, r: Req)
    requires Sized(s) && CanPost(s, h, r)
    ensures ChainOk(Posted(s, h, r), h)
  {
    hide Decode;
    PostedDecode(s, h, r);
  }

  lemma PostedParts(s: State, h: nat, r: Req)
    requires Chains(s) && CanPost(s, h, r) && h !in s.requests
    requires forall g :: g in Posted(s, h, r).requests ==> ChainOk(Posted(s, h, r), g)
    ensures Chains(Posted(s, h, r))
  {
    hide ChainOk, Decode;
  }

  lemma Appended(q: seq<nat>, h: nat)
    requires Distinct(q) && h !in q
    ensures Distinct(q + [h]) && forall g :: g in q + [h] <==> g in q || g == h
  {
  }

  lemma Dropped(q: seq<nat>)
    requires Distinct(q) && q != []
    ensures Distinct(q[1..]) && q[0] in q && forall g :: g in q[1..] <==> g in q && g != q[0]
  {
    forall g | g in q && g != q[0] ensures g in q[1..] {
      var k :| 0 <= k < |q| && q[k] == g;
      assert q[1..][k - 1] == g;
    }
    forall g | g in q[1..] ensures g in q && g != q[0] {
      var k :| 0 <= k < |q[1..]| && q[1..][k] == g;
      assert q[k + 1] == g;
    }
  }

  lemma PostedInv(s: State, h: nat, r: Req)
    requires Inv(s) && CanPost(s, h, r)
    ensures Inv(Posted(s, h, r)) && h !in s.requests
  {
    hide Queues, Buffers;
    PostedChains(s, h, r);
    PostedQueues(s, h, r);
    PostedBuffers(s, h, r);
  }

  lemma PostedQueues(s: State, h: nat, r: Req)
    requires Sized(s) && Queues(s) && CanPost(s, h, r) && h !in s.requests
    ensures Queues(Posted(s, h, r))
  {
    assert h !in s.unread && h !in s.unseen;
    Appended(s.unread, h);
  }

  lemma PostedBuffers(s: State, h: nat, r: Req)
    requires Sized(s) && Queues(s) && Buffers(s) && CanPost(s, h, r) && h !in s.requests
    ensures Buffers(Posted(s, h, r))
  {
  }

  /** The device reads the next avail entry. */
  function Taken(s: State): State
    requires s.unread != []
  {
    s.(unread := s.unread[1..], stage := s.stage[s.unread[0] := Working])
  }

  lemma TakenInv(s: State)
    requires Inv(s) && s.unread != []
    ensures Inv(Taken(s)) && s.unread[0] in s.requests && Decode(s, s.unread[0]) == Some(s.requests[s.unread[0]])
  {
    hide Decode, Chains, Queues, Buffers;
    TakenQueues(s);
    ChainsSized(s);
    ChainsSame(s, Taken(s));
    TakenBuffers(s);
    ChainDecodes(s, s.unread[0]);
  }

  lemma ChainsSized(s: State)
    requires Chains(s)
    ensures Sized(s)
  {
    hide ChainOk;
  }

  lemma TakenQueues(s: State)
    requires Queues(s) && s.unread != []
    ensures s.unread[0] in s.requests && s.unread[0] in s.stage && s.stage[s.unread[0]] == Unread && Queues(Taken(s))
  {
    Dropped(s.unread);
  }

  lemma TakenBuffers(s: State)
    requires Buffers(s) && s.unread != [] && s.unread[0] in s.stage && s.stage[s.unread[0]] == Unread
    ensures Buffers(Taken(s))
  {
  }

  lemma ChainDecodes(s: State, h: nat)
    requires Chains(s) && h in s.requests
    ensures Sized(s) && Decode(s, h) == Some(s.requests[h])
  {
    hide Decode;
    assert ChainOk(s, h);
  }

  /** The device reports request h with a status. */
  function Finished(s: State, h: nat, status: nat): State
    requires Sized(s) && h < NUM
  {
    s.(info := s.info[h := s.info[h].(status := status)], unseen := s.unseen + [h], stage := s.stage[h := Unseen])
  }

  lemma FinishedInv(s: State, h: nat, status: nat)
    requires Inv(s) && h in s.stage && s.stage[h] == Working
    ensures h < NUM && Inv(Finished(s, h, status))
  {
    hide Decode, Chains, Queues, Buffers;
    ChainsSized(s);
    StageKeys(s, h);
    ChainMembers(s, h);
    ChainsSame(s, Finished(s, h, status));
    FinishedQueues(s, h, status);
    FinishedBuffers(s, h, status);
  }

  lemma StageKeys(s: State, h: nat)
    requires Queues(s) && h in s.stage
    ensures h in s.requests
  {
  }

  lemma FinishedQueues(s: State, h: nat, status: nat)
    requires Sized(s) && h < NUM && Queues(s) && h in s.stage && s.stage[h] == Working
    ensures Queues(Finished(s, h, status))
  {
    assert h !in s.unseen;
    Appended(s.unseen, h);
  }

  lemma FinishedBuffers(s: State, h: nat, status: nat)
    requires Sized(s) && h < NUM && Buffers(s) && h in s.stage && s.stage[h] == Working
    ensures Buffers(Finished(s, h, status))
  {
  }

  /** The driver handles the next used entry. */
  function Seen(s: State): State
    requires s.unseen != [] && s.unseen[0] in s.requests
  {
    s.(unseen := s.unseen[1..], stage := s.stage[s.unseen[0] := Complete],
        busy := s.busy - {s.requests[s.unseen[0]].buf})
  }

  lemma SeenInv(s: State)
    requires Inv(s) && s.unseen != []
    ensures s.unseen[0] in s.requests && Inv(Seen(s)) && s.unseen[0] < NUM
    ensures s.info[s.unseen[0]].buf == Some(s.requests[s.unseen[0]].buf) && Seen(s).unseen == s.unseen[1..]
  {
    hide Decode, Chains, Queues, Buffers;
    ChainsSized(s);
    SeenQueues(s);
    ChainsSame(s, Seen(s));
    SeenBuffers(s);
    ChainInfo(s, s.unseen[0]);
  }

  lemma SeenQueues(s: State)
    requires Queues(s) && s.unseen != []
    ensures s.unseen[0] in s.requests && s.unseen[0] in s.stage && Queues(Seen(s))
  {
    Dropped(s.unseen);
  }

  lemma SeenBuffers(s: State)
    requires Buffers(s) && s.unseen != [] && s.unseen[0] in s.requests && s.unseen[0] in s.stage
    ensures Buffers(Seen(s))
  {
    var h := s.unseen[0];
    assert s.requests[h].buf in s.at && s.at[s.requests[h].buf] == h;
  }

  lemma ChainInfo(s: State, h: nat)
    requires Chains(s) && h in s.requests
    ensures Sized(s) && h < NUM && s.info[h].buf == Some(s.requests[h].buf)
  {
    hide Decode;
    assert ChainOk(s, h);
  }

  /** virtio_disk_rw after its sleep: the chain of a completed request is free again. */
  function Retired(s: State, h: nat): State
    requires Sized(s) && h in s.requests && h < NUM && s.requests[h].i1 < NUM && s.requests[h].i2 < NUM
  {
    var r, z := s.requests[h], Desc(Null, 0, 0, 0);
    s.(free := s.free[h := true][r.i1 := true][r.i2 := true], desc := s.desc[h := z][r.i1 := z][r.i2 := z],
       info := s.info[h := s.info[h].(buf := None)],
       requests := s.requests - {h}, stage := s.stage - {h}, part := s.part - {h, r.i1, r.i2}, at := s.at - {r.buf})
  }

  lemma RetiredChains(s: State, h: nat)
    requires Chains(s) && h in s.requests
    ensures h < NUM && s.requests[h].i1 < NUM && s.requests[h].i2 < NUM && Chains(Retired(s, h))
  {
    hide ChainOk, Decode, Chains;
    ChainMembers(s, h);
    ChainHere(s, h);
    var s' := Retired(s, h);
    forall g | g in s'.requests ensures ChainOk(s', g) {
      ChainMembers(s, g);
      ChainHere(s, g);
      ChainKept(s, s', g);
    }
    RetiredParts(s, s', h);
  }

  lemma RetiredParts(s: State, s': State, h: nat)
    requires Sized(s) && Sized(s') && Chains(s) && h in s.requests && h < NUM && s.requests[h].i1 < NUM
    requires s.requests[h].i2 < NUM
    requires s' == Retired(s, h) && forall g :: g in s'.requests ==> ChainOk(s', g)
    ensures Chains(s')
  {
    hide ChainOk, Decode;
    ChainMembers(s, h);
  }

  lemma RetiredInv(s: State, h: nat)
    requires Inv(s) && h in s.stage && s.stage[h] == Complete
    ensures h in s.requests && h < NUM && s.requests[h].i1 < NUM && s.requests[h].i2 < NUM && Inv(Retired(s, h))
  {
    hide Chains, Queues, Buffers;
    StageKeys(s, h);
    ChainsSized(s);
    RetiredChains(s, h);
    RetiredQueues(s, h);
    RetiredBuffers(s, h);
  }

  ghost predicate CanRetire(s: State, h: nat) {
    && Sized(s) && h in s.requests && h < NUM && s.requests[h].i1 < NUM && s.requests[h].i2 < NUM
    && h in s.stage && s.stage[h] == Complete
  }

  lemma RetiredQueues(s: State, h: nat)
    requires Queues(s) && CanRetire(s, h)
    ensures Queues(Retired(s, h))
  {
  }

  lemma RetiredBuffers(s: State, h: nat)
    requires Buffers(s) && CanRetire(s, h)
    ensures Buffers(Retired(s, h))
  {
    assert s.requests[h].buf in s.at && s.at[s.requests[h].buf] == h;
  }

  /** A free descriptor's contents do not matter. */
  lemma FreeDescAny(s: State, desc: seq<Desc>)
    requires Inv(s) && |desc| == NUM && forall i :: 0 <= i < NUM && !s.free[i] ==> desc[i] == s.desc[i]
    ensures Inv(s.(desc := desc))
  {
    hide ChainOk, Decode;
    var s' := s.(desc := desc);
    forall g | g in s'.requests ensures ChainOk(s', g) {
      ChainMembers(s, g);
      ChainHere(s, g);
      ChainKept(s, s', g);
    }
  }

  class Disk {
    var free: seq<bool>
    var desc: seq<Desc>
    var ops: seq<Cmd>
    var info: seq<Info>
    var busy: set<nat>      // buffers with b->disk set
    var avail: seq<nat>     // avail->ring, and avail->idx
    var availIdx: nat
    var devIdx: nat         // how far the device has read it
    var used: seq<nat>      // used->ring, and used->idx
    var usedIdx: nat
    var seenIdx: nat        // disk.used_idx: how far the driver has read it
    ghost var state: State
    ghost var nread: nat    // entries the device has read since boot
    ghost var nseen: nat    // entries the driver has handled since boot

    ghost predicate Rings()
      reads this
    {
      && devIdx == nread % WRAP && Ring(avail, availIdx, nread, state.unread)
      && seenIdx == nseen % WRAP && Ring(used, usedIdx, nseen, state.unseen)
    }

    ghost predicate Valid()
      reads this
    {
      && Inv(state) && Rings() && free == state.free && desc == state.desc && ops == state.ops && info == state.info
      && busy == state.busy
    }

    /** virtio_disk_init. */
    constructor ()
      ensures Valid() && state.requests == map[] && busy == {} && forall i :: 0 <= i < NUM ==> free[i]
    {
      free, desc := seq(NUM, _ => true), seq(NUM, _ => Desc(Null, 0, 0, 0));
      ops, info, busy := seq(NUM, _ => Cmd(false, 0)), seq(NUM, _ => Info(None, 0)), {};
      avail, availIdx, devIdx := seq(NUM, _ => 0), 0, 0;
      used, usedIdx, seenIdx := seq(NUM, _ => 0), 0, 0;
      nread, nseen := 0, 0;
      state := State(seq(NUM, _ => true), seq(NUM, _ => Desc(Null, 0, 0, 0)), seq(NUM, _ => Cmd(false, 0)),
                     seq(NUM, _ => Info(None, 0)), {}, map[], map[], map[], map[], [], []);
    }

    /** alloc_desc: the first free descriptor, or -1. */
    method AllocDesc() returns (i: int)
      requires |free| == NUM
      modifies this`free
      ensures i == -1 ==> free == old(free) && forall k :: 0 <= k < NUM ==> !free[k]
      ensures i != -1 ==> 0 <= i < NUM && old(free)[i] && free == old(free)[i := false]
      ensures i != -1 ==> forall k :: 0 <= k < i ==> !old(free)[k]
    {
      i := 0;
      while i < NUM
        invariant 0 <= i <= NUM && free == old(free) && forall k :: 0 <= k < i ==> !free[k]
      {
        if free[i] {
          free := free[i := false];
          return;
        }
        i := i + 1;
      }
      return -1;
    }

    /** free_desc; false is either panic. */
    method FreeDesc(i: nat) returns (ok: bool)
      requires |free| == NUM && |desc| == NUM
      modifies this`free, this`desc
      ensures ok <==> i < NUM && !old(free)[i]
      ensures ok ==> free == old(free)[i := true] && desc == old(desc)[i := Desc(Null, 0, 0, 0)]
      ensures !ok ==> free == old(free) && desc == old(desc)
    {
      if i >= NUM || free[i] {
        return false;
      }
      desc := desc[i := Desc(Null, 0, 0, 0)];
      free := free[i := true];
      return true;
    }

    /** alloc3_desc: three descriptors, or none and everything put back, which happens
        exactly when fewer than three are free. */
    method Alloc3() returns (ok: bool, idx: seq<nat>)
      requires |free| == NUM && |desc| == NUM
      modifies this`free, this`desc
      ensures |free| == NUM && |desc| == NUM && forall i :: 0 <= i < NUM && !old(free)[i] ==> desc[i] == old(desc)[i]
      ensures !ok ==> free == old(free)
                      && forall i, j, k :: 0 <= i < j < k < NUM ==> !(free[i] && free[j] && free[k])
      ensures ok ==>
                && |idx| == 3 && idx[0] < NUM && idx[1] < NUM && idx[2] < NUM
                && idx[0] != idx[1] && idx[0] != idx[2] && idx[1] != idx[2]
                && old(free)[idx[0]] && old(free)[idx[1]] && old(free)[idx[2]]
                && free == old(free)[idx[0] := false][idx[1] := false][idx[2] := false] && desc == old(desc)
    {
      idx := [];
      while |idx| < 3
        invariant |idx| <= 3 && |free| == NUM && desc == old(desc) && Distinct(idx)
        invariant forall k :: 0 <= k < |idx| ==> idx[k] < NUM && old(free)[idx[k]] && !free[idx[k]]
        invariant forall i :: 0 <= i < NUM ==> (free[i] <==> old(free)[i] && i !in idx)
      {
        var d := AllocDesc();
        if d < 0 {
          GiveBack(idx);
          AtMostThese(free, idx);
          return false, [];
        }
        Appended(idx, d);
        idx := idx + [d];
      }
      return true, idx;
    }

    /** The failure path of alloc3_desc. */
    method GiveBack(idx: seq<nat>)
      requires |free| == NUM && |desc| == NUM && Distinct(idx)
      requires forall k :: 0 <= k < |idx| ==> idx[k] < NUM && !free[idx[k]]
      modifies this`free, this`desc
      ensures |free| == NUM && |desc| == NUM
      ensures forall i :: 0 <= i < NUM ==> (free[i] <==> old(free)[i] || i in idx)
      ensures forall i :: 0 <= i < NUM && i !in idx ==> desc[i] == old(desc)[i]
    {
      var j := 0;
      while j < |idx|
        invariant 0 <= j <= |idx| && |free| == NUM && |desc| == NUM
        invariant forall i :: 0 <= i < NUM ==> (free[i] <==> old(free)[i] || i in idx[..j])
        invariant forall k :: j <= k < |idx| ==> !free[idx[k]]
        invariant forall i :: 0 <= i < NUM && i !in idx ==> desc[i] == old(desc)[i]
      {
        var ok := FreeDesc(idx[j]);
        assert idx[..j + 1] == idx[..j] + [idx[j]];
        j := j + 1;
      }
      assert idx[..j] == idx;
    }

    /** virtio_disk_rw for buffer b up to the sleep that waits for the device. None means
        it sleeps for descriptors instead; the caller holds b's lock, so b has no request
        yet. */
    method Start(b: nat, blockno: nat, write: bool) returns (head: Option<nat>, ghost r: Req)
      requires Valid() && b !in state.at
      modifies this`free, this`desc, this`ops, this`info, this`busy, this`avail, this`availIdx, this`state
      ensures Valid()
      ensures head.None? ==>
                && state == old(state).(desc := desc)
                && forall i, j, k :: 0 <= i < j < k < NUM ==> !(free[i] && free[j] && free[k])
      ensures head.Some? ==>
                && r.buf == b && r.write == write && r.sector == Sector(blockno)
                && (blockno < 0x8000_0000 <==> 512 * r.sector == 1024 * blockno)
                && Sized(old(state)) && CanPost(old(state), head.value, r) && head.value !in old(state).requests
                && state == Posted(old(state), head.value, r)
    {
      hide Inv, Ring, Sector, Posted;
      ghost var s := state;
      InvSized(s);
      var ok, idx := Alloc3();
      if !ok {
        FreeDescAny(s, desc);
        state := s.(desc := desc);
        return None, Req(b, write, 0, 0, 0);
      }
      SectorExact(blockno);
      r := Req(b, write, Sector(blockno), idx[1], idx[2]);
      Post(b, Sector(blockno), write, idx, r);
      return Some(idx[0]), r;
    }

    /** Formatting the request and telling the device. */
    method Post(b: nat, sector: nat, write: bool, idx: seq<nat>, ghost r: Req)
      requires Inv(state) && Rings() && Sized(state) && |idx| == 3 && r == Req(b, write, sector, idx[1], idx[2])
      requires CanPost(state, idx[0], r) && free == state.free[idx[0] := false][idx[1] := false][idx[2] := false]
      requires desc == state.desc && ops == state.ops && info == state.info && busy == state.busy
      modifies this`desc, this`ops, this`info, this`busy, this`avail, this`availIdx, this`state
      ensures Valid() && state == Posted(old(state), idx[0], r) && idx[0] !in old(state).requests
    {
      hide Inv, Ring, Posted;
      PostedInv(state, idx[0], r);
      ShortQueues(state);
      RingMore(avail, availIdx, nread, state.unread, idx[0]);
      PostedWords(state, idx[0], r);
      Format(b, sector, write, idx);
      avail := avail[availIdx % NUM := idx[0]];
      availIdx := (availIdx + 1) % WRAP;
      state := Posted(state, idx[0], r);
    }

    /** Filling in the three descriptors. */
    method Format(b: nat, sector: nat, write: bool, idx: seq<nat>)
      requires |desc| == NUM && |ops| == NUM && |info| == NUM
      requires |idx| == 3 && idx[0] < NUM && idx[1] < NUM && idx[2] < NUM
      modifies this`desc, this`ops, this`info, this`busy
      ensures ops == old(ops)[idx[0] := Cmd(write, sector)] && busy == old(busy) + {b}
      ensures info == old(info)[idx[0] := Info(Some(b), 0xff)]
      ensures desc == old(desc)[idx[0] := Desc(Op(idx[0]), HEADLEN, NEXT, idx[1])]
                         [idx[1] := Desc(Data(b), BSIZE, Flags(write), idx[2])]
                         [idx[2] := Desc(Status(idx[0]), 1, WRITE, 0)]
    {
      ops := ops[idx[0] := Cmd(write, sector)];
      desc := desc[idx[0] := Desc(Op(idx[0]), HEADLEN, NEXT, idx[1])];
      desc := desc[idx[1] := Desc(Data(b), BSIZE, if write then 0 else WRITE, idx[2])];
      desc := desc[idx[1] := desc[idx[1]].(flags := desc[idx[1]].flags + NEXT)];
      info := info[idx[0] := info[idx[0]].(status := 0xff)];
      desc := desc[idx[2] := Desc(Status(idx[0]), 1, WRITE, 0)];
      busy := busy + {b};
      info := info[idx[0] := info[idx[0]].(buf := Some(b))];
    }

    /** The device reads the next avail entry and follows its chain: it finds the oldest
        request it has not read, as it was posted. */
    method DeviceRead() returns (head: nat, cmd: Option<Req>)
      requires Valid() && devIdx != availIdx
      modifies this`devIdx, this`state, this`nread
      ensures Valid() && old(state).unread != [] && head == old(state).unread[0] && state == Taken(old(state))
      ensures head in state.requests && cmd == Some(state.requests[head])
    {
      hide Inv, Ring, Decode;
      ShortQueues(state);
      RingEmpty(avail, availIdx, nread, state.unread);
      InvSized(state);
      TakenInv(state);
      RingLess(avail, availIdx, nread, state.unread);
      head := avail[devIdx % NUM];
      cmd := DecodeAt(head);
      devIdx := (devIdx + 1) % WRAP;
      state, nread := Taken(state), nread + 1;
    }

    method DecodeAt(head: nat) returns (cmd: Option<Req>)
      requires Sized(state) && desc == state.desc && ops == state.ops
      ensures cmd == Decode(state, head)
    {
      if head >= NUM || desc[head].addr != Op(head) || desc[head].len != HEADLEN || desc[head].flags != NEXT
         || desc[head].next >= NUM {
        return None;
      }
      var i1 := desc[head].next;
      if !desc[i1].addr.Data? || desc[i1].len != BSIZE || desc[i1].flags != Flags(ops[head].write) ||
          desc[i1].next >= NUM {
        return None;
      }
      var i2 := desc[i1].next;
      if desc[i2] != Desc(Status(head), 1, WRITE, 0) {
        return None;
      }
      return Some(Req(desc[i1].addr.buf, ops[head].write, ops[head].sector, i1, i2));
    }

    /** The device is done with a request, in whatever order, and reports its status. */
    method DeviceFinish(head: nat, status: nat)
      requires Valid() && head in state.stage && state.stage[head] == Working
      modifies this`info, this`used, this`usedIdx, this`state
      ensures Valid() && head < NUM && Sized(old(state)) && state == Finished(old(state), head, status)
    {
      hide Inv, Ring;
      InvSized(state);
      FinishedInv(state, head, status);
      ShortQueues(state);
      RingMore(used, usedIdx, nseen, state.unseen, head);
      info := info[head := info[head].(status := status)];
      used := used[usedIdx % NUM := head];
      usedIdx := (usedIdx + 1) % WRAP;
      state := Finished(state, head, status);
    }

    /** One round of virtio_disk_intr's loop: the oldest completion that has not been
        handled. The device may report more between two rounds. False is the panic on a
        bad status. */
    method IntrRound() returns (more: bool, ok: bool)
      requires Valid()
      modifies this`busy, this`seenIdx, this`state, this`nseen
      ensures Valid() && (more <==> old(state).unseen != [])
      ensures !more ==> ok && state == old(state)
      ensures more ==>
                && old(state).unseen[0] < |old(state).info|
                && (ok <==> old(state).info[old(state).unseen[0]].status == 0)
                && old(state).unseen[0] in old(state).requests
                && state == if ok then Seen(old(state)) else old(state)
    {
      hide Inv, Ring, Seen;
      ShortQueues(state);
      RingEmpty(used, usedIdx, nseen, state.unseen);
      if seenIdx == usedIdx {
        return false, true;
      }
      InvSized(state);
      SeenInv(state);
      RingLess(used, usedIdx, nseen, state.unseen);
      SeenParts(state);
      var id := used[seenIdx % NUM];
      if info[id].status != 0 {
        return true, false;
      }
      busy := busy - {info[id].buf.value};
      seenIdx := (seenIdx + 1) % WRAP;
      state, nseen := Seen(state), nseen + 1;
      return true, true;
    }

    /** virtio_disk_intr while the device reports nothing more: every request reported,
        and no other, has its buffer released. False is the panic on a bad status. */
    method Intr() returns (ok: bool)
      requires Valid()
      modifies this`busy, this`seenIdx, this`state, this`nseen
      ensures Valid()
      ensures ok <==> GoodStatus(old(state), old(state).unseen)
      ensures ok ==> state.unseen == [] && Handled(old(state), state, old(state).unseen)
    {
      hide Inv, Ring, Handled, GoodStatus, Seen;
      ghost var s0, n := state, 0;
      HandledNone(s0);
      var more;
      more, ok := true, true;
      while more
        invariant Valid() && ok && n <= |s0.unseen| && state.unseen == s0.unseen[n..]
        invariant Handled(s0, state, s0.unseen[..n]) && GoodStatus(s0, s0.unseen[..n])
        invariant !more ==> state.unseen == []
        decreases |s0.unseen| - n, more
      {
        ghost var s := state;
        InvSized(s);
        more, ok := IntrRound();
        if more {
          OneStatus(s0, s, n);
          if !ok {
            return;
          }
          HandledMore(s0, s, n);
          n := n + 1;
        }
      }
      assert s0.unseen[..|s0.unseen|] == s0.unseen;
    }

    /** free_chain from descriptor i, the head of a chain: its three descriptors are
        freed, without a panic. */
    method FreeChain(i: nat) returns (ok: bool)
      requires Sized(state) && i in state.requests && ChainOk(state, i) && free == state.free && desc == state.desc
      requires InUse(state, i)
      modifies this`free, this`desc
      ensures ok && free == Retired(state, i).free && desc == Retired(state, i).desc
    {
      ghost var r, p := state.requests[i], 0;
      ghost var z := Desc(Null, 0, 0, 0);
      var k := i;
      while true
        invariant 0 <= p <= 2 && k == (if p == 0 then i else if p == 1 then r.i1 else r.i2)
        invariant p == 0 ==> free == state.free && desc == state.desc
        invariant p == 1 ==> free == state.free[i := true] && desc == state.desc[i := z]
        invariant p == 2 ==> free == state.free[i := true][r.i1 := true] && desc == state.desc[i := z][r.i1 := z]
        decreases 2 - p
      {
        var flag, nxt := desc[k].flags, desc[k].next;
        ok := FreeDesc(k);
        if !ok {
          return;
        }
        if flag % 2 == NEXT {
          k := nxt;
          p := p + 1;
        } else {
          break;
        }
      }
    }

    /** virtio_disk_rw after its sleep: the request of b at `head` is over. False would be
        a panic of free_desc; it does not happen. */
    method Finish(b: nat, head: nat) returns (ok: bool)
      requires Valid() && head in state.requests && state.requests[head].buf == b && b !in busy
      modifies this`free, this`desc, this`info, this`state
      ensures ok && Valid() && Sized(old(state)) && head < NUM
      ensures old(state).requests[head].i1 < NUM && old(state).requests[head].i2 < NUM
      ensures state == Retired(old(state), head)
    {
      hide Inv, Ring, Retired, ChainOk;
      OwnComplete(state, head);
      RetiredInv(state, head);
      InvSized(state);
      RetiredWords(state, head);
      info := info[head := info[head].(buf := None)];
      ok := FreeChain(head);
      state := Retired(state, head);
    }
  }

  predicate InUse(s: State, h: nat)
    requires Sized(s) && h in s.requests
  {
    h < NUM && s.requests[h].i1 < NUM && s.requests[h].i2 < NUM
    && !s.free[h] && !s.free[s.requests[h].i1] && !s.free[s.requests[h].i2]
  }

  /** b->disk is clear only once its own request has been handled. */
  lemma OwnComplete(s: State, h: nat)
    requires Inv(s) && h in s.requests && s.requests[h].buf !in s.busy
    ensures h in s.stage && s.stage[h] == Complete && Sized(s) && ChainOk(s, h) && InUse(s, h)
  {
    hide ChainOk, Decode;
    ChainMembers(s, h);
    ChainHere(s, h);
  }

  lemma RetiredWords(s: State, h: nat)
    requires Sized(s) && h in s.requests && h < NUM && s.requests[h].i1 < NUM && s.requests[h].i2 < NUM
    ensures
      var t := Retired(s, h);
      && t.info == s.info[h := s.info[h].(buf := None)] && t.ops == s.ops && t.busy == s.busy
      && t.unread == s.unread && t.unseen == s.unseen
  {
  }

  ghost predicate GoodStatus(s: State, q: seq<nat>) {
    forall h :: h in q ==> h < |s.info| && s.info[h].status == 0
  }

  /** The status of the entry being handled decides. */
  lemma OneStatus(s0: State, s: State, n: nat)
    requires Sized(s) && n < |s0.unseen| && s.unseen == s0.unseen[n..] && s.unseen[0] < NUM
    requires Handled(s0, s, s0.unseen[..n]) && GoodStatus(s0, s0.unseen[..n])
    ensures if s.info[s.unseen[0]].status == 0 then GoodStatus(s0, s0.unseen[..n + 1]) else !GoodStatus(s0, s0.unseen)
  {
    OneHandled(s0, n);
  }

  /** The requests `q` are complete and their buffers released; nothing else changed. */
  ghost predicate Handled(s: State, s': State, q: seq<nat>) {
    && s'.requests == s.requests && s'.stage.Keys == s.stage.Keys && s'.unread == s.unread
    && (forall h :: h in s.stage ==> s'.stage[h] == if h in q then Complete else s.stage[h])
    && (forall b :: b in s'.busy <==> b in s.busy && (b in s.at ==> s.at[b] !in q))
    && s' == s.(stage := s'.stage, busy := s'.busy, unseen := s'.unseen)
  }

  lemma HandledNone(s: State)
    ensures Handled(s, s, []) && GoodStatus(s, [])
  {
  }

  lemma SeenParts(s: State)
    requires s.unseen != [] && s.unseen[0] in s.requests
    ensures Seen(s).unseen == s.unseen[1..] && Seen(s).busy == s.busy - {s.requests[s.unseen[0]].buf}
    ensures Seen(s).free == s.free && Seen(s).desc == s.desc && Seen(s).ops == s.ops && Seen(s).info == s.info
    ensures Seen(s).unread == s.unread
  {
  }

  lemma OneHandled(s: State, n: nat)
    requires n < |s.unseen|
    ensures s.unseen[n..][0] == s.unseen[n] && s.unseen[n..][1..] == s.unseen[n + 1..] && s.unseen[n] in s.unseen
    ensures forall h :: h in s.unseen[..n + 1] <==> h in s.unseen[..n] || h == s.unseen[n]
  {
    assert s.unseen[..n + 1] == s.unseen[..n] + [s.unseen[n]];
  }

  lemma HandledMore(s0: State, s: State, n: nat)
    requires Inv(s) && n < |s0.unseen| && s.unseen == s0.unseen[n..] && Handled(s0, s, s0.unseen[..n])
    ensures s.unseen != [] && s.unseen[0] in s.requests && Handled(s0, Seen(s), s0.unseen[..n + 1])
    ensures Seen(s).unseen == s0.unseen[n + 1..] && Seen(s).busy == s.busy - {s.requests[s.unseen[0]].buf}
    ensures Seen(s).free == s.free && Seen(s).desc == s.desc && Seen(s).ops == s.ops && Seen(s).info == s.info
    ensures Seen(s).unread == s.unread
  {
    hide Chains, Decode;
    OneHandled(s0, n);
    assert s.unseen[0] in s.unseen;
  }

  /** A ring with its index: the entries from count `from` on are q, and the index is
      the count after them, cut to 16 bits. */
  ghost predicate Ring(ring: seq<nat>, idx: nat, from: nat, q: seq<nat>) {
    Holds(ring, from, q) && idx == (from + |q|) % WRAP
  }

  lemma RingMore(ring: seq<nat>, idx: nat, from: nat, q: seq<nat>, h: nat)
    requires Ring(ring, idx, from, q) && |q| < NUM
    ensures |ring| == NUM && Ring(ring[idx % NUM := h], (idx + 1) % WRAP, from, q + [h])
  {
    hide Holds;
    HoldsSized(ring, from, q);
    HoldsMore(ring, from, q, h);
    PlaceAfterWrap(from + |q|);
    IndexMoves(from + |q|);
  }

  lemma HoldsSized(ring: seq<nat>, from: nat, q: seq<nat>)
    requires Holds(ring, from, q)
    ensures |ring| == NUM
  {
  }

  lemma RingLess(ring: seq<nat>, idx: nat, from: nat, q: seq<nat>)
    requires Ring(ring, idx, from, q) && q != []
    ensures |ring| == NUM && ring[from % WRAP % NUM] == q[0] && Ring(ring, idx, from + 1, q[1..])
    ensures (from % WRAP + 1) % WRAP == (from + 1) % WRAP
  {
    hide Holds;
    HoldsSized(ring, from, q);
    HoldsLess(ring, from, q);
    PlaceAfterWrap(from);
    IndexMoves(from);
  }

  /** The reader's index meets the ring's exactly when nothing is waiting. */
  lemma RingEmpty(ring: seq<nat>, idx: nat, from: nat, q: seq<nat>)
    requires Ring(ring, idx, from, q) && |q| <= NUM
    ensures from % WRAP == idx <==> q == []
  {
    hide Holds;
    IndexEqual(from, |q|);
  }

  /** The product is a 32-bit one. */
  function Sector(blockno: nat): nat {
    blockno * (BSIZE / 512) % 0x1_0000_0000
  }

  /** A block's 512-byte sectors start at the block's own byte of the device exactly for
      the block numbers below 2 to the 31. */
  lemma SectorExact(blockno: nat)
    ensures 512 * Sector(blockno) == 1024 * blockno <==> blockno < 0x8000_0000
  {
  }

  /** Blocks below that bound never share a byte of the device; the first block at the
      bound falls on block 0. */
  lemma SectorsApart(a: nat, b: nat)
    requires a < b < 0x8000_0000
    ensures 512 * Sector(a) + 1024 <= 512 * Sector(b)
    ensures Sector(0x8000_0000 + a) == Sector(a)
  {
    hide Sector;
    SectorExact(a);
    SectorExact(b);
    SectorWraps(a);
  }

  lemma SectorWraps(a: nat)
    ensures Sector(0x8000_0000 + a) == Sector(a)
  {
  }

  lemma InvSized(s: State)
    requires Inv(s)
    ensures Sized(s)
  {
  }

  lemma AtMostThese(free: seq<bool>, idx: seq<nat>)
    requires |free| == NUM && |idx| < 3 && forall i :: 0 <= i < NUM && free[i] ==> i in idx
    ensures forall i, j, k :: 0 <= i < j < k < NUM ==> !(free[i] && free[j] && free[k])
  {
  }
}
