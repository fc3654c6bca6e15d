// The virtio block driver of xv6 (CLab/xv6/kernel/virtio_disk.c) over a split virtqueue:
// sections 2.6 and 5.2 of the Virtual I/O Device (VIRTIO) specification, version 1.1.
//
// The driver's sections under vdisk_lock and the device's steps run in any order. What
// sleep() waits for in between is the caller's: a section that would sleep answers so.

module VirtioDisk {
  const NUM := 8
  const WRAP := 0x1_0000
  const NEXT := 1
  const WRITE := 2
  const T_IN := 0
  const T_OUT := 1

  /** Where a descriptor points. */
  datatype Addr = Null | Ops(i: int) | Data(b: int) | Status(i: int)

  datatype Desc = Desc(addr: Addr, len: int, flags: int, next: int)

  datatype Op = Op(kind: int, sector: int)

  /** info[i]: b is 0 for none. */
  datatype Info = Info(b: int, status: int)

  /** How far a request has come: in the avail ring, with the device, in the used ring,
      or seen by the interrupt handler. */
  datatype Stage = Queued | Taken | Used | Done

  /** A request in flight, in descriptors h (its key), d1 and d2. */
  datatype Chain = Chain(b: int, block: int, write: bool, d1: int, d2: int, stage: Stage)

  /** The shared memory, and (proof state) the requests in flight, the request of each
      descriptor, the unread parts of the two rings, how many entries were read, and the
      requests that the device has finished, in order. */
  datatype Q = Q(free: seq<bool>, desc: seq<Desc>, ops: seq<Op>, info: seq<Info>,
                 availIdx: int, availRing: seq<int>, usedIdx: int, usedRing: seq<int>,
                 seenIdx: int, devIdx: int, held: set<int>, busy: map<int, bool>,
                 ghost chains: map<int, Chain>, ghost owner: map<int, int>, ghost queue: seq<int>,
                 ghost usedq: seq<int>,
                 ghost taken: nat, ghost seen: nat, ghost fin: seq<int>)

  predicate IsDesc(i: int) {
    0 <= i < NUM
  }

  ghost predicate Shape(s: Q) {
    |s.free| == |s.desc| == |s.ops| == |s.info| == |s.availRing| == |s.usedRing| == NUM
  }

  /** free[] is the complement of the descriptors of chains and of those being set up. */
  ghost predicate FreeOk(s: Q, loose: set<int>)
    requires Shape(s)
  {
    && (forall i :: IsDesc(i) ==> (!s.free[i] <==> i in s.owner || i in loose))
    && (forall i :: i in loose ==> IsDesc(i) && i !in s.owner)
    && (forall i {:trigger i in s.owner} :: i in s.owner ==> IsDesc(i) && OneOf(s, i, s.owner[i]))
  }

  ghost predicate OneOf(s: Q, i: int, h: int) {
    h in s.chains && (i == h || i == s.chains[h].d1 || i == s.chains[h].d2)
  }

  function SectorOf(block: int): int {
    block * 2
  }

  /** The three descriptors of chain h say what the request is. */
  ghost predicate Formatted(s: Q, h: int, c: Chain)
    requires Shape(s)
  {
    && IsDesc(h) && IsDesc(c.d1) && IsDesc(c.d2) && h != c.d1 && h != c.d2 && c.d1 != c.d2
    && s.desc[h] == Desc(Ops(h), 16, NEXT, c.d1)
    && s.desc[c.d1] == Desc(Data(c.b), 1024, (if c.write then 0 else WRITE) + NEXT, c.d2)
    && s.desc[c.d2] == Desc(Status(h), 1, WRITE, 0)
    && s.ops[h] == Op(if c.write then T_OUT else T_IN, SectorOf(c.block))
    && s.info[h].b == c.b && c.b != 0
  }

  /** What the stage of a request says about the rest of memory. */
  ghost predicate StageOk(s: Q, h: int, c: Chain)
    requires Shape(s) && IsDesc(h)
  {
    && (c.stage == Queued <==> h in s.queue)
    && (c.stage == Taken <==> h in s.held)
    && (c.stage == Used <==> h in s.usedq)
    && s.info[h].status == (if c.stage == Used || c.stage == Done then 0 else 255)
    && c.b in s.busy && (s.busy[c.b] <==> c.stage != Done)
  }

  ghost predicate ChainOk(s: Q, h: int)
    requires Shape(s) && h in s.chains
  {
    var c := s.chains[h];
    && Formatted(s, h, c) && StageOk(s, h, c)
    && h in s.owner && s.owner[h] == h && c.d1 in s.owner && s.owner[c.d1] == h && c.d2 in s.owner && s.owner[c.d2] == h
  }

  ghost predicate NoDup(q: seq<int>) {
    forall i, j :: 0 <= i < j < |q| ==> q[i] != q[j]
  }

  /** A ring holds the entries from n on, at 16-bit indices modulo its size. */
  ghost predicate RingOk(ring: seq<int>, q: seq<int>, n: nat, idx: int, end: int)
    requires |ring| == NUM
  {
    && idx == n % WRAP && end == (n + |q|) % WRAP
    && (forall k :: 0 <= k < |q| ==> ring[(n + k) % NUM] == q[k])
    && NoDup(q)
  }

  ghost predicate ChainsOk(s: Q)
    requires Shape(s)
  {
    forall h {:trigger h in s.chains} :: h in s.chains ==> ChainOk(s, h)
  }

  /** Each buffer has one request. */
  ghost predicate OneEach(s: Q) {
    forall h, g {:trigger s.chains[h], s.chains[g]} ::
      h in s.chains && g in s.chains && s.chains[h].b == s.chains[g].b ==> h == g
  }

  ghost predicate Listed(s: Q) {
    && (forall h {:trigger h in s.queue} :: h in s.queue ==> h in s.chains)
    && (forall h {:trigger h in s.usedq} :: h in s.usedq ==> h in s.chains)
    && (forall h {:trigger h in s.held} :: h in s.held ==> h in s.chains)
  }

  ghost predicate Ok(s: Q, loose: set<int>) {
    && Shape(s) && FreeOk(s, loose) && ChainsOk(s) && OneEach(s) && Listed(s)
    && RingOk(s.availRing, s.queue, s.taken, s.devIdx, s.availIdx)
    && RingOk(s.usedRing, s.usedq, s.seen, s.seenIdx, s.usedIdx)
  }

  // ------------------------------------------------------- rings that wrap around

  /** Distinct descriptor numbers are few. */
  lemma {:induction false} FewHeads(q: seq<int>, n: nat)
    requires NoDup(q) && forall h :: h in q ==> 0 <= h < n
    ensures |q| <= n
    decreases n
  {
    if q == [] {
      return;
    }
    assert q[0] in q;
    assert 0 <= q[0] < n;
    if n - 1 in q {
      var k :| 0 <= k < |q| && q[k] == n - 1;
      var r := q[..k] + q[k + 1..];
      forall h | h in r ensures 0 <= h < n - 1 {
        var i :| 0 <= i < |r| && r[i] == h;
        var j := if i < k then i else i + 1;
        assert h == q[j] && q[j] in q;
        assert if j < k then q[j] != q[k] else q[k] != q[j];
      }
      FewHeads(r, n - 1);
    } else {
      FewHeads(q, n - 1);
    }
  }

  lemma WrapMod(n: nat)
    ensures n % WRAP % NUM == n % NUM
  {
  }

  /** Distinct slots for entries that are less than a ring apart. */
  lemma SlotsApart(n: nat, j: nat, k: nat)
    requires j < k < j + NUM
    ensures (n + j) % NUM != (n + k) % NUM
  {
  }

  /** The slot beyond the last entry is none of the unread ones. */
  lemma SlotFree(ring: seq<int>, q: seq<int>, n: nat, idx: int, end: int, h: int)
    requires |ring| == NUM && RingOk(ring, q, n, idx, end) && |q| < NUM
    ensures 0 <= end % NUM < NUM && RingOk(ring[end % NUM := h], q, n, idx, end)
  {
    WrapMod(n + |q|);
    forall k | 0 <= k < |q| ensures ring[end % NUM := h][(n + k) % NUM] == q[k] {
      SlotsApart(n, k, |q|);
    }
  }

  lemma RingPushed(ring: seq<int>, q: seq<int>, n: nat, idx: int, end: int, h: int)
    requires |ring| == NUM && RingOk(ring, q, n, idx, end) && |q| < NUM && h !in q
    ensures 0 <= end % NUM < NUM
    ensures RingOk(ring[end % NUM := h], q + [h], n, idx, (end + 1) % WRAP)
  {
    WrapMod(n + |q|);
    SlotFree(ring, q, n, idx, end, h);
  }

  lemma RingPopped(ring: seq<int>, q: seq<int>, n: nat, idx: int, end: int)
    requires |ring| == NUM && RingOk(ring, q, n, idx, end) && q != []
    ensures ring[idx % NUM] == q[0]
    ensures RingOk(ring, q[1..], n + 1, (idx + 1) % WRAP, end)
  {
    WrapMod(n);
    forall k | 0 <= k < |q[1..]| ensures ring[(n + 1 + k) % NUM] == q[1..][k] {
      assert q[1..][k] == q[k + 1];
    }
  }

  /** The indices tell an empty ring from any other, however far they have wrapped. */
  lemma RingEmptyIff(ring: seq<int>, q: seq<int>, n: nat, idx: int, end: int)
    requires |ring| == NUM && RingOk(ring, q, n, idx, end) && |q| <= NUM
    ensures idx == end <==> q == []
  {
  }

  // ---------------------------------------------------------- steps on the queue

  ghost function TookDesc(s: Q, i: int): Q
    requires 0 <= i < |s.free|
  {
    s.(free := s.free[i := false])
  }

  lemma TookDescOk(s: Q, loose: set<int>, i: int)
    requires Ok(s, loose) && IsDesc(i) && s.free[i]
    ensures i !in loose && i !in s.owner
    ensures Ok(TookDesc(s, i), loose + {i})
  {
    hide RingOk;
    var t := TookDesc(s, i);
    forall h | h in t.chains ensures ChainOk(t, h) {
      assert ChainOk(s, h);
    }
  }

  ghost function FreedDesc(s: Q, i: int): Q
    requires 0 <= i < |s.free| && i < |s.desc|
  {
    s.(free := s.free[i := true], desc := s.desc[i := Desc(Null, 0, 0, 0)])
  }

  lemma FreedDescOk(s: Q, loose: set<int>, i: int)
    requires Ok(s, loose) && i in loose
    ensures IsDesc(i) && !s.free[i]
    ensures Ok(FreedDesc(s, i), loose - {i})
  {
    hide RingOk;
    var t := FreedDesc(s, i);
    forall h | h in t.chains ensures ChainOk(t, h) {
      assert ChainOk(s, h);
    }
  }

  // What is set up but not published yet: memory that no request refers to.

  /** t is s but for the loose descriptors, and what goes with them. */
  ghost predicate OnlyLoose(s: Q, t: Q, loose: set<int>)
    requires Shape(s) && Shape(t)
  {
    && t == s.(desc := t.desc, ops := t.ops, info := t.info)
    && forall i :: IsDesc(i) && i !in loose ==> t.desc[i] == s.desc[i] && t.ops[i] == s.ops[i] && t.info[i] == s.info[i]
  }

  lemma LooseOk(s: Q, t: Q, loose: set<int>)
    requires Ok(s, loose) && Shape(t) && OnlyLoose(s, t, loose)
    ensures Ok(t, loose)
  {
    hide RingOk;
    forall i | i in t.owner ensures OneOf(t, i, t.owner[i]) {
      assert OneOf(s, i, s.owner[i]);
    }
    forall g | g in t.chains ensures ChainOk(t, g) {
      assert ChainOk(s, g);
    }
  }

  /** The buffer is marked as with the disk. */
  lemma BusyOk(s: Q, loose: set<int>, b: int)
    requires Ok(s, loose) && forall g :: g in s.chains ==> s.chains[g].b != b
    ensures Ok(s.(busy := s.busy[b := true]), loose)
  {
    hide RingOk;
    var t := s.(busy := s.busy[b := true]);
    forall i | i in t.owner ensures OneOf(t, i, t.owner[i]) {
      assert OneOf(s, i, s.owner[i]);
    }
    forall g | g in t.chains ensures ChainOk(t, g) {
      assert ChainOk(s, g);
    }
  }

  ghost function Slotted(s: Q, h: int): Q
    requires 0 <= s.availIdx % NUM < |s.availRing|
  {
    s.(availRing := s.availRing[s.availIdx % NUM := h])
  }

  lemma SlottedOk(s: Q, loose: set<int>, h: int)
    requires Ok(s, loose) && h in loose
    ensures 0 <= s.availIdx % NUM < |s.availRing| && Ok(Slotted(s, h), loose)
  {
    QueueRoom(s, loose, h);
    SlotFree(s.availRing, s.queue, s.taken, s.devIdx, s.availIdx, h);
    hide RingOk;
    var t := Slotted(s, h);
    forall i | i in t.owner ensures OneOf(t, i, t.owner[i]) {
      assert OneOf(s, i, s.owner[i]);
    }
    forall g | g in t.chains ensures ChainOk(t, g) {
      assert ChainOk(s, g);
    }
  }

  /** All of a request is in memory, and its head in the slot beyond the index. */
  ghost predicate Ready(s: Q, h: int, c: Chain) {
    && Ok(s, {h, c.d1, c.d2}) && Formatted(s, h, c) && c.stage == Queued && s.info[h].status == 255
    && c.b in s.busy && s.busy[c.b] && s.availRing[s.availIdx % NUM] == h
    && (forall g :: g in s.chains ==> s.chains[g].b != c.b)
  }

  /** The index moves: this is what publishes the request. */
  ghost function Published(s: Q, h: int, c: Chain): Q {
    s.(availIdx := (s.availIdx + 1) % WRAP, queue := s.queue + [h], chains := s.chains[h := c],
       owner := s.owner[h := h][c.d1 := h][c.d2 := h])
  }

  lemma ReadyFacts(s: Q, h: int, c: Chain)
    requires Ready(s, h, c)
    ensures h !in s.owner && c.d1 !in s.owner && c.d2 !in s.owner && h !in s.chains && h !in s.queue && h !in s.usedq
    ensures h !in s.held && |s.queue| < NUM
  {
    var loose := {h, c.d1, c.d2};
    assert h in loose && c.d1 in loose && c.d2 in loose;
    QueueRoom(s, loose, h);
    NotYetChain(s, h, loose);
  }

  lemma PublishedOther(s: Q, h: int, c: Chain, g: int)
    requires Ready(s, h, c) && g in s.chains
    ensures g != h && ChainOk(Published(s, h, c), g)
  {
    hide RingOk, FreeOk, OneEach;
    ReadyFacts(s, h, c);
    assert ChainOk(s, g);
  }

  lemma PublishedNew(s: Q, h: int, c: Chain)
    requires Ready(s, h, c)
    ensures Shape(Published(s, h, c)) && ChainOk(Published(s, h, c), h)
  {
    hide RingOk, FreeOk, OneEach, ChainsOk;
    ReadyFacts(s, h, c);
  }

  lemma PublishedFree(s: Q, h: int, c: Chain)
    requires Ready(s, h, c)
    ensures FreeOk(Published(s, h, c), {})
  {
    hide RingOk, OneEach, ChainsOk;
    ReadyFacts(s, h, c);
    var t := Published(s, h, c);
    forall i | i in t.owner ensures IsDesc(i) && OneOf(t, i, t.owner[i]) {
      if i != h && i != c.d1 && i != c.d2 {
        assert OneOf(s, i, s.owner[i]);
      }
    }
  }

  lemma PublishedListed(s: Q, h: int, c: Chain)
    requires Ready(s, h, c)
    ensures Listed(Published(s, h, c)) && OneEach(Published(s, h, c))
  {
    hide RingOk, FreeOk, ChainsOk, Formatted;
    ReadyFacts(s, h, c);
    var t := Published(s, h, c);
    forall f, g | f in t.chains && g in t.chains && t.chains[f].b == t.chains[g].b ensures f == g {
      assert f != h && g != h ==> s.chains[f].b == s.chains[g].b;
    }
  }

  lemma PublishedOk(s: Q, h: int, c: Chain)
    requires Ready(s, h, c)
    ensures Ok(Published(s, h, c), {})
  {
    ReadyFacts(s, h, c);
    RingPushed(s.availRing, s.queue, s.taken, s.devIdx, s.availIdx, h);
    assert s.availRing[s.availIdx % NUM := h] == s.availRing;
    PublishedNew(s, h, c);
    PublishedFree(s, h, c);
    PublishedListed(s, h, c);
    hide RingOk, ChainOk, FreeOk, Listed, OneEach, Formatted;
    var t := Published(s, h, c);
    forall g | g in t.chains ensures ChainOk(t, g) {
      if g != h {
        PublishedOther(s, h, c, g);
      }
    }
  }

  lemma QueueRoom(s: Q, loose: set<int>, h: int)
    requires Ok(s, loose) && h in loose
    ensures h !in s.queue && h !in s.usedq && h !in s.held && |s.queue| < NUM
  {
    hide FreeOk, OneEach;
    NotYetChain(s, h, loose);
    forall g | g in s.queue ensures IsDesc(g) && g != h {
      assert ChainOk(s, g);
    }
    var q := s.queue + [h];
    assert forall i :: 0 <= i < |s.queue| ==> s.queue[i] in s.queue;
    assert NoDup(q);
    LooseIsDesc(s, loose, h);
    FewHeads(q, NUM);
  }

  lemma LooseIsDesc(s: Q, loose: set<int>, h: int)
    requires Ok(s, loose) && h in loose
    ensures IsDesc(h) && h !in s.owner
  {
  }

  // Stages

  /** The same requests, at other stages. */
  ghost predicate Staged(s: Q, t: Q) {
    && t.chains.Keys == s.chains.Keys && t.owner == s.owner && t.free == s.free
    && forall h {:trigger t.chains[h]} :: h in s.chains ==> t.chains[h] == s.chains[h].(stage := t.chains[h].stage)
  }

  lemma StagedFree(s: Q, t: Q, loose: set<int>)
    requires Staged(s, t) && Shape(s) && Shape(t) && FreeOk(s, loose)
    ensures FreeOk(t, loose)
  {
    forall i | i in t.owner ensures OneOf(t, i, t.owner[i]) {
      assert OneOf(s, i, s.owner[i]);
      assert t.chains[t.owner[i]].d1 == s.chains[s.owner[i]].d1;
    }
  }

  lemma StagedEach(s: Q, t: Q)
    requires Staged(s, t) && OneEach(s)
    ensures OneEach(t)
  {
    forall h, g | h in t.chains && g in t.chains && t.chains[h].b == t.chains[g].b ensures h == g {
      assert s.chains[h].b == s.chains[g].b;
    }
  }

  ghost function WithStage(s: Q, h: int, stage: Stage): Q
    requires h in s.chains
  {
    s.(chains := s.chains[h := s.chains[h].(stage := stage)])
  }

  /** The device takes the next entry of the avail ring. */
  ghost function TakenNext(s: Q): Q
    requires s.queue != [] && s.queue[0] in s.chains
  {
    WithStage(s, s.queue[0], Taken).(queue := s.queue[1..], taken := s.taken + 1, devIdx := (s.devIdx + 1) % WRAP,
                                        held := s.held + {s.queue[0]})
  }

  lemma HeadAndTail(q: seq<int>)
    requires NoDup(q) && q != []
    ensures q[0] in q && q[0] !in q[1..] && NoDup(q[1..])
    ensures forall h {:trigger h in q} {:trigger h in q[1..]} :: h in q <==> h == q[0] || h in q[1..]
  {
    assert q == [q[0]] + q[1..];
  }

  lemma QueueHead(s: Q, loose: set<int>)
    requires Ok(s, loose) && s.queue != []
    ensures s.queue[0] in s.chains && s.chains[s.queue[0]].stage == Queued && IsDesc(s.queue[0])
    ensures s.queue[0] !in s.queue[1..]
    ensures forall h {:trigger h in s.queue} {:trigger h in s.queue[1..]} ::
              h in s.queue <==> h == s.queue[0] || h in s.queue[1..]
  {
    HeadAndTail(s.queue);
    assert s.queue[0] in s.queue;
    assert ChainOk(s, s.queue[0]);
  }

  lemma TakenChain(s: Q, loose: set<int>, h: int)
    requires Ok(s, loose) && s.queue != [] && h in s.chains && s.queue[0] in s.chains
    ensures Shape(TakenNext(s)) && ChainOk(TakenNext(s), h)
  {
    hide RingOk, FreeOk, OneEach;
    QueueHead(s, loose);
    assert ChainOk(s, h);
  }

  lemma TakenListed(s: Q, loose: set<int>)
    requires Ok(s, loose) && s.queue != [] && s.queue[0] in s.chains
    ensures Listed(TakenNext(s)) && Staged(s, TakenNext(s))
  {
    hide RingOk, FreeOk, OneEach, ChainsOk;
    assert s.queue[0] in s.queue;
    assert forall h :: h in s.queue[1..] ==> h in s.queue;
  }

  lemma TakenChains(s: Q, loose: set<int>)
    requires Ok(s, loose) && s.queue != [] && s.queue[0] in s.chains
    ensures Shape(TakenNext(s)) && ChainsOk(TakenNext(s))
  {
    hide RingOk, FreeOk, OneEach, ChainOk, Listed;
    forall h | h in TakenNext(s).chains ensures ChainOk(TakenNext(s), h) {
      TakenChain(s, loose, h);
    }
  }

  lemma TakenNextOk(s: Q, loose: set<int>)
    requires Ok(s, loose) && s.queue != []
    ensures s.queue[0] in s.chains && s.chains[s.queue[0]].stage == Queued
    ensures |s.availRing| == NUM && s.availRing[s.devIdx % NUM] == s.queue[0]
    ensures Ok(TakenNext(s), loose)
  {
    QueueHead(s, loose);
    TakenListed(s, loose);
    TakenChains(s, loose);
    hide RingOk, FreeOk, OneEach, ChainsOk, Listed, Staged;
    RingPopped(s.availRing, s.queue, s.taken, s.devIdx, s.availIdx);
    StagedFree(s, TakenNext(s), loose);
    StagedEach(s, TakenNext(s));
  }

  /** The device finishes request h: it clears the status byte and adds a used entry. */
  ghost function Completed(s: Q, h: int): Q
    requires h in s.chains && 0 <= h < |s.info| && 0 <= s.usedIdx % NUM < |s.usedRing|
  {
    WithStage(s, h, Used).(info := s.info[h := s.info[h].(status := 0)],
                           usedRing := s.usedRing[s.usedIdx % NUM := h], usedIdx := (s.usedIdx + 1) % WRAP,
                           usedq := s.usedq + [h], held := s.held - {h}, fin := s.fin + [h])
  }

  lemma UsedRoom(s: Q, loose: set<int>, h: int)
    requires Ok(s, loose) && h in s.chains && s.chains[h].stage == Taken
    ensures h !in s.usedq && h !in s.queue && |s.usedq| < NUM && IsDesc(h) && h !in loose
  {
    assert ChainOk(s, h);
    forall g | g in s.usedq ensures IsDesc(g) {
      assert ChainOk(s, g);
    }
    var q := s.usedq + [h];
    assert NoDup(q);
    FewHeads(q, NUM);
  }

  lemma CompletedChain(s: Q, loose: set<int>, h: int, g: int)
    requires Ok(s, loose) && h in s.chains && s.chains[h].stage == Taken && g in s.chains && IsDesc(h) && h !in s.usedq
    requires |s.info| == NUM && 0 <= s.usedIdx % NUM < |s.usedRing|
    ensures Shape(Completed(s, h)) && g in Completed(s, h).chains && ChainOk(Completed(s, h), g)
  {
    hide RingOk, FreeOk, OneEach;
    assert ChainOk(s, g) && ChainOk(s, h);
  }

  lemma CompletedListed(s: Q, loose: set<int>, h: int)
    requires Ok(s, loose) && h in s.chains && IsDesc(h) && |s.info| == NUM && 0 <= s.usedIdx % NUM < |s.usedRing|
    ensures Listed(Completed(s, h)) && Staged(s, Completed(s, h))
  {
    hide RingOk, FreeOk, OneEach, ChainsOk;
  }

  lemma CompletedChains(s: Q, loose: set<int>, h: int)
    requires Ok(s, loose) && h in s.chains && s.chains[h].stage == Taken && IsDesc(h) && h !in s.usedq
    requires |s.info| == NUM && 0 <= s.usedIdx % NUM < |s.usedRing|
    ensures Shape(Completed(s, h)) && ChainsOk(Completed(s, h))
  {
    hide RingOk, FreeOk, OneEach, ChainOk, Listed;
    forall g | g in Completed(s, h).chains ensures ChainOk(Completed(s, h), g) {
      CompletedChain(s, loose, h, g);
    }
  }

  lemma CompletedOk(s: Q, loose: set<int>, h: int)
    requires Ok(s, loose) && h in s.chains && s.chains[h].stage == Taken
    ensures IsDesc(h) && |s.info| == |s.usedRing| == NUM && 0 <= s.usedIdx % NUM < NUM
    ensures Ok(Completed(s, h), loose)
  {
    hide RingOk, FreeOk, OneEach, ChainsOk, Listed, Staged;
    UsedRoom(s, loose, h);
    CompletedListed(s, loose, h);
    CompletedChains(s, loose, h);
    RingPushed(s.usedRing, s.usedq, s.seen, s.seenIdx, s.usedIdx, h);
    StagedFree(s, Completed(s, h), loose);
    StagedEach(s, Completed(s, h));
  }

  lemma CompletedOnward(s: Q, loose: set<int>, h: int)
    requires h in s.chains && s.chains[h].stage == Taken && h !in loose
    requires 0 <= h < |s.info| && 0 <= s.usedIdx % NUM < |s.usedRing|
    ensures Onward(s, Completed(s, h)) && DriverKept(s, Completed(s, h), loose)
  {
  }

  /** The interrupt handler's turn: the next used entry's buffer is done. */
  ghost function SeenNext(s: Q): Q
    requires s.usedq != [] && s.usedq[0] in s.chains
  {
    var h := s.usedq[0];
    WithStage(s, h, Done).(usedq := s.usedq[1..], seen := s.seen + 1, seenIdx := (s.seenIdx + 1) % WRAP,
                           busy := s.busy[s.chains[h].b := false])
  }

  lemma UsedHead(s: Q)
    requires Ok(s, {}) && s.usedq != []
    ensures s.usedq[0] in s.chains && s.chains[s.usedq[0]].stage == Used && IsDesc(s.usedq[0])
    ensures |s.info| == NUM && s.info[s.usedq[0]].status == 0 && s.info[s.usedq[0]].b == s.chains[s.usedq[0]].b
    ensures s.usedq[0] !in s.usedq[1..]
    ensures forall h {:trigger h in s.usedq} {:trigger h in s.usedq[1..]} ::
              h in s.usedq <==> h == s.usedq[0] || h in s.usedq[1..]
  {
    HeadAndTail(s.usedq);
    assert s.usedq[0] in s.usedq;
    assert ChainOk(s, s.usedq[0]);
  }

  lemma SeenChain(s: Q, g: int)
    requires Ok(s, {}) && s.usedq != [] && g in s.chains && s.usedq[0] in s.chains
    ensures Shape(SeenNext(s)) && ChainOk(SeenNext(s), g)
  {
    hide RingOk, FreeOk;
    UsedHead(s);
    assert ChainOk(s, g);
  }

  lemma SeenListed(s: Q)
    requires Ok(s, {}) && s.usedq != [] && s.usedq[0] in s.chains
    ensures Listed(SeenNext(s)) && Staged(s, SeenNext(s))
  {
    hide RingOk, FreeOk, OneEach, ChainsOk;
    assert forall h :: h in s.usedq[1..] ==> h in s.usedq;
  }

  lemma SeenChains(s: Q)
    requires Ok(s, {}) && s.usedq != [] && s.usedq[0] in s.chains
    ensures Shape(SeenNext(s)) && ChainsOk(SeenNext(s))
  {
    hide RingOk, FreeOk, OneEach, ChainOk, Listed;
    forall g | g in SeenNext(s).chains ensures ChainOk(SeenNext(s), g) {
      SeenChain(s, g);
    }
  }

  lemma SeenNextOk(s: Q)
    requires Ok(s, {}) && s.usedq != []
    ensures s.usedq[0] in s.chains && s.chains[s.usedq[0]].stage == Used && IsDesc(s.usedq[0])
    ensures |s.usedRing| == NUM && s.usedRing[s.seenIdx % NUM] == s.usedq[0]
    ensures |s.info| == NUM && s.info[s.usedq[0]].status == 0 && s.info[s.usedq[0]].b == s.chains[s.usedq[0]].b
    ensures Ok(SeenNext(s), {})
  {
    UsedHead(s);
    SeenListed(s);
    SeenChains(s);
    hide RingOk, FreeOk, OneEach, ChainsOk, Listed, Staged;
    RingPopped(s.usedRing, s.usedq, s.seen, s.seenIdx, s.usedIdx);
    StagedFree(s, SeenNext(s), {});
    StagedEach(s, SeenNext(s));
  }

  /** The request is over; its descriptors are still to be freed. */
  ghost function Retired(s: Q, h: int): Q
    requires h in s.chains && 0 <= h < |s.info|
  {
    s.(chains := s.chains - {h}, owner := s.owner - {h, s.chains[h].d1, s.chains[h].d2},
       info := s.info[h := s.info[h].(b := 0)])
  }

  lemma RetiredChain(s: Q, h: int, g: int)
    requires Ok(s, {}) && h in s.chains && IsDesc(h) && g in s.chains && g != h
    ensures Shape(Retired(s, h)) && ChainOk(Retired(s, h), g)
  {
    hide RingOk, FreeOk;
    assert ChainOk(s, h) && ChainOk(s, g);
  }

  lemma RetiredFree(s: Q, h: int)
    requires Ok(s, {}) && h in s.chains && IsDesc(h)
    ensures Shape(Retired(s, h)) && FreeOk(Retired(s, h), {h, s.chains[h].d1, s.chains[h].d2})
  {
    hide RingOk, OneEach;
    assert ChainOk(s, h);
    var t := Retired(s, h);
    forall i | i in t.owner ensures OneOf(t, i, t.owner[i]) {
      assert OneOf(s, i, s.owner[i]);
    }
  }

  lemma RetiredListed(s: Q, h: int)
    requires Ok(s, {}) && h in s.chains && s.chains[h].stage == Done && IsDesc(h)
    ensures Listed(Retired(s, h)) && OneEach(Retired(s, h))
  {
    hide RingOk, FreeOk;
    assert ChainOk(s, h);
    var t := Retired(s, h);
    forall f, g | f in t.chains && g in t.chains && t.chains[f].b == t.chains[g].b ensures f == g {
      assert s.chains[f].b == s.chains[g].b;
    }
  }

  lemma RetiredOk(s: Q, h: int)
    requires Ok(s, {}) && h in s.chains && s.chains[h].stage == Done
    ensures IsDesc(h) && |s.info| == NUM && Formatted(s, h, s.chains[h])
    ensures Ok(Retired(s, h), {h, s.chains[h].d1, s.chains[h].d2})
  {
    assert ChainOk(s, h);
    RetiredFree(s, h);
    RetiredListed(s, h);
    hide RingOk, FreeOk, OneEach, Listed, ChainOk;
    var t := Retired(s, h);
    forall g | g in t.chains ensures ChainOk(t, g) {
      RetiredChain(s, h, g);
    }
  }

  // ------------------------------------------------------------ driver and device

  /** From s to t the device takes requests in their order and finishes some of them; what
      it had finished before stays as it was. */
  ghost predicate Onward(s: Q, t: Q) {
    && t.chains.Keys == s.chains.Keys && t.seen == s.seen
    && s.fin <= t.fin && t.usedq == s.usedq + t.fin[|s.fin|..]
    && |t.queue| <= |s.queue| && t.queue == s.queue[|s.queue| - |t.queue|..]
    && (forall h {:trigger h in s.chains} {:trigger h in t.chains} :: h in s.chains ==>
          t.chains[h] == s.chains[h].(stage := t.chains[h].stage) &&
          (s.chains[h].stage == Used || s.chains[h].stage == Done ==> t.chains[h].stage == s.chains[h].stage) &&
          (t.chains[h].stage == Done ==> s.chains[h].stage == Done))
  }

  /** The device writes to no memory of the driver's, loose descriptors included. */
  ghost predicate DriverKept(s: Q, t: Q, loose: set<int>) {
    && t.free == s.free && t.desc == s.desc && t.ops == s.ops && t.availIdx == s.availIdx && t.availRing == s.availRing
    && t.busy == s.busy && t.owner == s.owner && |t.info| == |s.info|
    && forall i :: i in loose && 0 <= i < |s.info| ==> t.info[i] == s.info[i]
  }

  /** s without the request published last. */
  ghost function Without(s: Q, h: int): Q
    requires s.queue != []
  {
    s.(chains := s.chains - {h}, queue := s.queue[..|s.queue| - 1])
  }

  /** The requests that the interrupt handler has yet to see. */
  ghost function Unseen(s: Q): set<int> {
    set h | h in s.chains && s.chains[h].stage != Done
  }

  lemma OnwardTrans(s: Q, t: Q, u: Q)
    requires Onward(s, t) && Onward(t, u)
    ensures Onward(s, u)
  {
    assert forall h :: h in s.chains <==> h in t.chains;
    assert u.fin[|s.fin|..] == t.fin[|s.fin|..] + u.fin[|t.fin|..];
  }

  lemma KeptTrans(s: Q, t: Q, u: Q, loose: set<int>)
    requires DriverKept(s, t, loose) && DriverKept(t, u, loose)
    ensures DriverKept(s, u, loose)
  {
  }

  /** What the driver stores is not what the device's progress is about. */
  lemma OnwardStore(s: Q, t: Q)
    requires t.chains == s.chains && t.seen == s.seen && t.fin == s.fin && t.usedq == s.usedq && t.queue == s.queue
    ensures Onward(s, t)
  {
  }

  lemma OnwardBuffers(s: Q, t: Q, b: int)
    requires Onward(s, t) && forall g :: g in s.chains ==> s.chains[g].b != b
    ensures forall g :: g in t.chains ==> t.chains[g].b != b
  {
    assert forall h :: h in s.chains <==> h in t.chains;
  }

  type Block = seq<int>

  class Disk {
    var q: Q
    var data: map<int, Block>   // b->data
    var blocks: map<int, Block> // what is on the disk

    /** Requests are for buffers and blocks that exist. */
    ghost predicate Backed()
      reads this
    {
      forall h {:trigger h in q.chains} :: h in q.chains ==> q.chains[h].b in data && q.chains[h].block in blocks
    }

    constructor (data: map<int, Block>, blocks: map<int, Block>)
      ensures Ok(q, {}) && Backed() && q.chains == map[] && this.data == data && this.blocks == blocks
    {
      q := Q(seq(NUM, _ => true), seq(NUM, _ => Desc(Null, 0, 0, 0)), seq(NUM, _ => Op(0, 0)),
             seq(NUM, _ => Info(0, 0)),
             0, seq(NUM, _ => 0), 0, seq(NUM, _ => 0), 0, 0, {}, map[], map[], map[], [], [], 0, 0, []);
      this.data, this.blocks := data, blocks;
    }

    method AllocDesc(ghost loose: set<int>) returns (i: int)
      requires Ok(q, loose)
      modifies this`q
      ensures i < 0 ==> q == old(q) && forall k :: IsDesc(k) && k < |q.free| ==> !q.free[k]
      ensures i >= 0 ==> i < |old(q).free| && IsDesc(i) && old(q).free[i] && i !in loose && q == TookDesc(old(q), i)
      ensures Ok(q, if i >= 0 then loose + {i} else loose)
    {
      hide Ok;
      ShapeOf(q, loose);
      for k := 0 to NUM
        invariant q == old(q) && forall j :: 0 <= j < k ==> !q.free[j]
      {
        if q.free[k] {
          TookDescOk(q, loose, k);
          q := q.(free := q.free[k := false]);
          return k;
        }
      }
      i := -1;
    }

    /** free_desc: its two panics are the precondition. */
    method FreeDesc(i: int, ghost loose: set<int>)
      requires Ok(q, loose) && i in loose
      modifies this`q
      ensures 0 <= i < |old(q).free| && i < |old(q).desc| && q == FreedDesc(old(q), i) && Ok(q, loose - {i})
    {
      FreedDescOk(q, loose, i);
      q := q.(desc := q.desc[i := Desc(Null, 0, 0, 0)]);
      q := q.(free := q.free[i := true]);
    }

    /** alloc3_desc: three descriptors, or none. */
    method Alloc3() returns (ok: bool, a: int, b: int, c: int)
      requires Ok(q, {})
      modifies this`q
      ensures ok ==> a != b && a != c && b != c && Ok(q, {a, b, c}) && q == old(q).(free := q.free)
      ensures !ok ==> Ok(q, {}) && q == old(q).(desc := q.desc) && Cleared(old(q), q)
      ensures !ok ==> |q.free| == NUM && forall i, j, k ::
              IsDesc(i) && IsDesc(j) && IsDesc(k) && q.free[i] && q.free[j] && q.free[k] ==>
        i == j || i == k || j == k
    {
      hide Ok;
      ghost var s := q;
      ShapeOf(s, {});
      ok, b, c := false, -1, -1;
      a := AllocDesc({});
      if a < 0 {
        return;
      }
      assert {} + {a} == {a};
      b := AllocDesc({a});
      if b < 0 {
        FreeDesc(a, {a});
        assert {a} - {a} == {};
        assert q.free == s.free;
        return;
      }
      assert {a} + {b} == {a, b};
      c := AllocDesc({a, b});
      if c < 0 {
        FreeDesc(a, {a, b});
        assert {a, b} - {a} == {b};
        FreeDesc(b, {b});
        assert {b} - {b} == {};
        assert q.free == s.free;
        return;
      }
      assert {a, b} + {c} == {a, b, c};
      ok := true;
    }

    // The driver's stores to memory of loose descriptors; after each the device may run.

    method PutOp(i: int, op: Op, ghost h: int, ghost loose: set<int>)
      requires Ok(q, loose) && Backed() && Shape(q) && i in loose && IsDesc(i) && h in loose && IsDesc(h)
      modifies this
      ensures Ok(q, loose) && Backed() && Shape(q) && Onward(old(q), q)
      ensures q.ops == old(q).ops[i := op] && q.desc == old(q).desc && q.info[h] == old(q).info[h] &&
              q.busy == old(q).busy
      ensures data.Keys == old(data).Keys && blocks.Keys == old(blocks).Keys
    {
      hide Ok, Onward, DriverKept;
      LooseOk(q, q.(ops := q.ops[i := op]), loose);
      q := q.(ops := q.ops[i := op]);
      OnwardStore(old(q), q);
      ghost var s := q;
      DeviceRuns(loose);
      OnwardTrans(old(q), s, q);
      KeptAt(s, q, loose, h);
      ShapeOf(q, loose);
    }

    method PutDesc(i: int, d: Desc, ghost h: int, ghost loose: set<int>)
      requires Ok(q, loose) && Backed() && Shape(q) && i in loose && IsDesc(i) && h in loose && IsDesc(h)
      modifies this
      ensures Ok(q, loose) && Backed() && Shape(q) && Onward(old(q), q)
      ensures q.desc == old(q).desc[i := d] && q.ops == old(q).ops && q.info[h] == old(q).info[h] &&
              q.busy == old(q).busy
      ensures data.Keys == old(data).Keys && blocks.Keys == old(blocks).Keys
    {
      hide Ok, Onward, DriverKept;
      LooseOk(q, q.(desc := q.desc[i := d]), loose);
      q := q.(desc := q.desc[i := d]);
      OnwardStore(old(q), q);
      ghost var s := q;
      DeviceRuns(loose);
      OnwardTrans(old(q), s, q);
      KeptAt(s, q, loose, h);
      ShapeOf(q, loose);
    }

    method PutInfo(i: int, x: Info, ghost h: int, ghost loose: set<int>)
      requires Ok(q, loose) && Backed() && Shape(q) && i in loose && IsDesc(i) && h in loose && IsDesc(h)
      modifies this
      ensures Ok(q, loose) && Backed() && Shape(q) && Onward(old(q), q)
      ensures q.info[h] == old(q).info[i := x][h] && q.desc == old(q).desc && q.ops == old(q).ops &&
              q.busy == old(q).busy
      ensures data.Keys == old(data).Keys && blocks.Keys == old(blocks).Keys
    {
      hide Ok, Onward, DriverKept;
      LooseOk(q, q.(info := q.info[i := x]), loose);
      q := q.(info := q.info[i := x]);
      OnwardStore(old(q), q);
      ghost var s := q;
      DeviceRuns(loose);
      OnwardTrans(old(q), s, q);
      KeptAt(s, q, loose, h);
      ShapeOf(q, loose);
    }

    method PutBusy(b: int, ghost h: int, ghost loose: set<int>)
      requires Ok(q, loose) && Backed() && Shape(q) && h in loose && IsDesc(h)
      requires forall g :: g in q.chains ==> q.chains[g].b != b
      modifies this
      ensures Ok(q, loose) && Backed() && Shape(q) && Onward(old(q), q)
      ensures q.busy == old(q).busy[b := true] && q.desc == old(q).desc && q.ops == old(q).ops &&
              q.info[h] == old(q).info[h]
      ensures data.Keys == old(data).Keys && blocks.Keys == old(blocks).Keys
    {
      hide Ok, Onward, DriverKept;
      BusyOk(q, loose, b);
      q := q.(busy := q.busy[b := true]);
      OnwardStore(old(q), q);
      ghost var s := q;
      DeviceRuns(loose);
      OnwardTrans(old(q), s, q);
      KeptAt(s, q, loose, h);
      ShapeOf(q, loose);
    }

    method PutSlot(h: int, ghost loose: set<int>)
      requires Ok(q, loose) && Backed() && Shape(q) && h in loose && IsDesc(h)
      modifies this
      ensures Ok(q, loose) && Backed() && Shape(q) && Onward(old(q), q) && q.availRing[q.availIdx % NUM] == h
      ensures q.busy == old(q).busy && q.desc == old(q).desc && q.ops == old(q).ops && q.info[h] == old(q).info[h]
      ensures data.Keys == old(data).Keys && blocks.Keys == old(blocks).Keys
    {
      hide Ok, Onward, DriverKept;
      SlottedOk(q, loose, h);
      q := q.(availRing := q.availRing[q.availIdx % NUM := h]);
      OnwardStore(old(q), q);
      ghost var s := q;
      DeviceRuns(loose);
      OnwardTrans(old(q), s, q);
      KeptAt(s, q, loose, h);
      ShapeOf(q, loose);
    }

    /** The three descriptors are formatted. */
    method Format(d0: int, d1: int, d2: int, b: int, block: int, write: bool, ghost loose: set<int>)
      requires Ok(q, loose) && Backed() && Shape(q) && IsDesc(d0) && IsDesc(d1) && IsDesc(d2)
      requires d0 in loose && d1 in loose && d2 in loose && d0 != d1 && d0 != d2 && d1 != d2
      modifies this
      ensures Ok(q, loose) && Backed() && Shape(q) && Onward(old(q), q)
      ensures data.Keys == old(data).Keys && blocks.Keys == old(blocks).Keys
      ensures q.ops[d0] == Op(if write then T_OUT else T_IN, block * (1024 / 512)) && q.info[d0].status == 255
      ensures q.desc[d0] == Desc(Ops(d0), 16, NEXT, d1) && q.desc[d2] == Desc(Status(d0), 1, WRITE, 0)
      ensures q.desc[d1] == Desc(Data(b), 1024, (if write then 0 else WRITE) + NEXT, d2)
    {
      hide Ok, Onward;
      PutOp(d0, Op(if write then T_OUT else T_IN, block * (1024 / 512)), d0, loose);
      ghost var s := q;
      PutDesc(d0, Desc(Ops(d0), 16, NEXT, d1), d0, loose);
      OnwardTrans(old(q), s, q);
      s := q;
      PutDesc(d1, Desc(Data(b), 1024, (if write then 0 else WRITE) + NEXT, d2), d0, loose);
      OnwardTrans(old(q), s, q);
      s := q;
      PutInfo(d0, q.info[d0].(status := 255), d0, loose);
      OnwardTrans(old(q), s, q);
      s := q;
      PutDesc(d2, Desc(Status(d0), 1, WRITE, 0), d0, loose);
      OnwardTrans(old(q), s, q);
    }

    /** All of the request is in memory, but for the index. */
    method Prepare(d0: int, d1: int, d2: int, b: int, block: int, write: bool)
      requires Ok(q, {d0, d1, d2}) && Backed() && d0 != d1 && d0 != d2 && d1 != d2 && b != 0
      requires forall g :: g in q.chains ==> q.chains[g].b != b
      modifies this
      ensures Backed() && Onward(old(q), q) && Ready(q, d0, Chain(b, block, write, d1, d2, Queued))
      ensures data.Keys == old(data).Keys && blocks.Keys == old(blocks).Keys
    {
      hide Ok, Onward, Formatted, Ready;
      ghost var loose, c := {d0, d1, d2}, Chain(b, block, write, d1, d2, Queued);
      LooseIsDesc(q, loose, d0);
      LooseIsDesc(q, loose, d1);
      LooseIsDesc(q, loose, d2);
      ShapeOf(q, loose);
      Format(d0, d1, d2, b, block, write, loose);
      ghost var s := q;
      OnwardBuffers(old(q), q, b);
      PutBusy(b, d0, loose);
      OnwardTrans(old(q), s, q);
      s := q;
      PutInfo(d0, q.info[d0].(b := b), d0, loose);
      OnwardTrans(old(q), s, q);
      s := q;
      PutSlot(d0, loose);
      OnwardTrans(old(q), s, q);
      OnwardBuffers(old(q), q, b);
      FormattedNow(q, d0, c);
      ReadyNow(q, d0, c);
    }

    /** avail->idx += 1 */
    method Publish(h: int, ghost c: Chain)
      requires Backed() && c.b in data && c.block in blocks
      modifies this`q
      ensures q == Published(old(q), h, c) && Backed()
    {
      q := q.(availIdx := (q.availIdx + 1) % WRAP, queue := q.queue + [h], chains := q.chains[h := c],
              owner := q.owner[h := h][c.d1 := h][c.d2 := h]);
    }

    /** virtio_disk_rw up to its sleep: the request is published, or (no descriptors)
        nothing has changed but for free descriptors. The device runs between any two
        stores. The caller holds b's lock, so b is in no other request. */
    method Begin(b: int, block: int, write: bool) returns (ok: bool, h: int)
      requires Ok(q, {}) && Backed() && b != 0 && b in data && block in blocks
      requires forall g :: g in q.chains ==> q.chains[g].b != b
      modifies this
      ensures Ok(q, {}) && Backed()
      ensures !ok ==> q == old(q).(desc := q.desc) && Cleared(old(q), q) && data == old(data) && blocks == old(blocks)
      ensures !ok ==> |old(q).free| == NUM && forall i, j, k ::
              IsDesc(i) && IsDesc(j) && IsDesc(k) && old(q).free[i] && old(q).free[j] && old(q).free[k] ==>
        i == j || i == k || j == k
      ensures ok ==> h !in old(q).chains && h in q.chains && q.queue != [] && q.queue[|q.queue| - 1] == h
      ensures ok ==> q.chains[h] == Chain(b, block, write, q.chains[h].d1, q.chains[h].d2, Queued)
      ensures ok ==> Onward(old(q), Without(q, h))
    {
      hide Ok, Onward, Ready, Cleared;
      var d1, d2;
      ok, h, d1, d2 := Alloc3();
      if !ok {
        return;
      }
      ghost var s, c := q, Chain(b, block, write, d1, d2, Queued);
      OnwardStore(old(q), s);
      NotYetChain(s, h, {h, d1, d2});
      Prepare(h, d1, d2, b, block, write);
      OnwardTrans(old(q), s, q);
      s := q;
      PublishedOk(s, h, c);
      ReadyFacts(s, h, c);
      PublishedOnward(old(q), s, h, c);
      Publish(h, c);
    }

    /** The device takes the oldest request that it has not taken. */
    method DeviceTake(ghost loose: set<int>) returns (h: int)
      requires Ok(q, loose) && Backed() && q.devIdx != q.availIdx
      modifies this`q
      ensures Ok(q, loose) && Backed() && Onward(old(q), q) && DriverKept(old(q), q, loose)
      ensures h in q.chains && q.chains[h].stage == Taken && old(q).queue == [h] + q.queue
    {
      hide Ok, RingOk;
      ghost var s := q;
      QueueNonempty(s, loose);
      TakenNextOk(s, loose);
      h := q.availRing[q.devIdx % NUM];
      q := q.(devIdx := (q.devIdx + 1) % WRAP, held := q.held + {h}, queue := q.queue[1..], taken := q.taken + 1,
              chains := q.chains[h := q.chains[h].(stage := Taken)]);
      assert q == TakenNext(s);
    }

    /** The device carries out a request that it has taken, as the descriptors say. */
    method DeviceComplete(h: int, ghost loose: set<int>)
      requires Ok(q, loose) && Backed() && h in q.chains && q.chains[h].stage == Taken
      modifies this
      ensures Ok(q, loose) && Backed() && Onward(old(q), q) && DriverKept(old(q), q, loose)
      ensures q.chains[h].stage == Used && q.usedq == old(q).usedq + [h] && q.fin == old(q).fin + [h]
      ensures q.chains[h].write ==> data == old(data) && blocks == old(blocks)[q.chains[h].block := data[q.chains[h].b]]
      ensures !q.chains[h].write ==>
                blocks == old(blocks) && data == old(data)[q.chains[h].b := blocks[q.chains[h].block]]
      ensures data.Keys == old(data).Keys && blocks.Keys == old(blocks).Keys
    {
      hide Ok, RingOk, Onward, DriverKept;
      ghost var s := q;
      CompletedOk(s, loose, h);
      ChainFormat(s, loose, h);
      UsedRoom(s, loose, h);
      CompletedOnward(s, loose, h);
      var first := q.desc[h];
      var second := q.desc[first.next];
      var third := q.desc[second.next];
      var op := q.ops[first.addr.i];
      if op.kind == T_OUT {
        blocks := blocks[op.sector / 2 := data[second.addr.b]];
      } else {
        data := data[second.addr.b := blocks[op.sector / 2]];
      }
      q := q.(info := q.info[third.addr.i := q.info[third.addr.i].(status := 0)]);
      q := q.(usedRing := q.usedRing[q.usedIdx % NUM := h]);
      q := q.(usedIdx := (q.usedIdx + 1) % WRAP, held := q.held - {h}, fin := q.fin + [h],
              chains := q.chains[h := q.chains[h].(stage := Used)], usedq := q.usedq + [h]);
      assert q == Completed(s, h);
    }

    /** virtio_disk_intr, while the device runs on. Every used entry completes the
        buffer of its own request, once, and no other is completed; the status panic does
        not happen. */
    method Intr()
      requires Ok(q, {}) && Backed()
      modifies this
      ensures Ok(q, {}) && Backed() && q.usedq == [] && q.chains.Keys == old(q).chains.Keys
      ensures old(q).fin <= q.fin && q.seen == old(q).seen + |Finished(old(q), q)|
      ensures forall h :: h in q.chains ==> Served(old(q), q, h)
    {
      hide Ok, RingOk, ChainOk, Onward, Serving;
      UsedqShort(q);
      ghost var s0 := q;
      ServingNone(s0);
      while q.seenIdx != q.usedIdx
        invariant Ok(q, {}) && Backed() && (q.seenIdx == q.usedIdx <==> q.usedq == [])
        invariant Serving(s0, q)
        decreases Unseen(q)
      {
        ghost var s := q;
        SeenNextOk(s);
        var id := q.usedRing[q.seenIdx % NUM];
        assert q.info[id].status == 0;
        var b := q.info[id].b;
        q := q.(busy := q.busy[b := false]);
        q := q.(seenIdx := (q.seenIdx + 1) % WRAP,
                chains := q.chains[id := q.chains[id].(stage := Done)], usedq := q.usedq[1..], seen := q.seen + 1);
        assert q == SeenNext(s);
        ghost var t := q;
        SeenFewer(s, id);
        ServingNext(s0, s);
        DeviceRuns({});
        OnwardServing(s0, t, q);
        UsedqShort(q);
      }
      AllSeen(q);
      AllServed(s0, q);
    }

    /** Whatever the device does in between: any takes and completions, in any order. */
    method DeviceRuns(ghost loose: set<int>)
      requires Ok(q, loose) && Backed()
      modifies this
      ensures Ok(q, loose) && Backed() && Onward(old(q), q) && DriverKept(old(q), q, loose)
      ensures data.Keys == old(data).Keys && blocks.Keys == old(blocks).Keys
    {
      hide Ok, RingOk, ChainOk, Onward, DriverKept;
      OnwardRefl(q);
      KeptRefl(q, loose);
      var n: nat := *;
      while n > 0
        invariant Ok(q, loose) && Backed() && Onward(old(q), q) && DriverKept(old(q), q, loose)
        invariant data.Keys == old(data).Keys && blocks.Keys == old(blocks).Keys
      {
        ghost var s := q;
        var h: int := *;
        var take: bool := *;
        if take && q.devIdx != q.availIdx {
          var _ := DeviceTake(loose);
          OnwardTrans(old(q), s, q);
          KeptTrans(old(q), s, q, loose);
        } else if h in q.held {
          HeldIsTaken(q, loose, h);
          DeviceComplete(h, loose);
          OnwardTrans(old(q), s, q);
          KeptTrans(old(q), s, q, loose);
        }
        n := n - 1;
      }
    }

    /** free_chain: follows the next flags. */
    method FreeChain(head: int, ghost c: Chain)
      requires Ok(q, {head, c.d1, c.d2}) && head != c.d1 && head != c.d2 && c.d1 != c.d2
      requires Shape(q) && Linked(q, head, c, 0)
      modifies this`q
      ensures Ok(q, {}) && q == old(q).(free := q.free, desc := q.desc) && Shape(q)
      ensures forall i :: IsDesc(i) ==> (q.free[i] <==> old(q).free[i] || i in {head, c.d1, c.d2})
    {
      hide Ok;
      var i := head;
      ghost var k, left := 0, {head, c.d1, c.d2};
      while true
        invariant 0 <= k < 3 && Ok(q, left) && Shape(q) && IsDesc(i)
        invariant i == (if k == 0 then head else if k == 1 then c.d1 else c.d2)
        invariant left == (if k == 0 then {head, c.d1, c.d2} else if k == 1 then {c.d1, c.d2} else {c.d2})
        invariant Linked(q, head, c, k) && q == old(q).(free := q.free, desc := q.desc)
        invariant forall j :: IsDesc(j) ==> (q.free[j] <==> old(q).free[j] || (j in {head, c.d1, c.d2} && j !in left))
        decreases 3 - k
      {
        var flag := q.desc[i].flags;
        var nxt := q.desc[i].next;
        FreedDescOk(q, left, i);
        FreeDesc(i, left);
        left := left - {i};
        if flag % 2 == NEXT {
          i := nxt;
          k := k + 1;
        } else {
          assert left == {};
          break;
        }
      }
    }

    /** virtio_disk_rw after its sleep: b->disk is 0, and the descriptors go back. */
    method End(h: int)
      requires Ok(q, {}) && Backed() && h in q.chains && q.chains[h].b in q.busy && !q.busy[q.chains[h].b]
      modifies this`q
      ensures Ok(q, {}) && Backed() && Shape(q) && Shape(old(q)) && old(q).chains[h].stage == Done
      ensures q.chains == old(q).chains - {h} && q.queue == old(q).queue && q.usedq == old(q).usedq
      ensures forall i :: IsDesc(i) ==> (q.free[i] <==> old(q).free[i] || (i in old(q).owner && old(q).owner[i] == h))
    {
      hide Ok, RingOk;
      ghost var s := q;
      ghost var c := q.chains[h];
      IdleIsDone(s, h);
      RetiredOk(s, h);
      OwnersOf(s, h);
      q := q.(info := q.info[h := q.info[h].(b := 0)], chains := q.chains - {h}, owner := q.owner - {h, c.d1, c.d2});
      assert q == Retired(s, h);
      ShapeOf(q, {h, c.d1, c.d2});
      FreeChain(h, c);
    }
  }

  /** The next fields and flags lead from head over d1 to d2, and end there. */
  ghost predicate Linked(s: Q, head: int, c: Chain, k: int)
    requires Shape(s)
  {
    && IsDesc(head) && IsDesc(c.d1) && IsDesc(c.d2)
    && (k <= 0 ==> s.desc[head].flags % 2 == NEXT && s.desc[head].next == c.d1)
    && (k <= 1 ==> s.desc[c.d1].flags % 2 == NEXT && s.desc[c.d1].next == c.d2)
    && s.desc[c.d2].flags % 2 != NEXT
  }

  /** Descriptors that were free may have been cleared; the others are as they were. */
  ghost predicate Cleared(s: Q, t: Q) {
    |s.free| == |s.desc| == |t.desc| &&
    forall i :: 0 <= i < |s.desc| ==> t.desc[i] == s.desc[i] || (s.free[i] && t.desc[i] == Desc(Null, 0, 0, 0))
  }

  /** What was in the used ring at s, and what the device has finished since. */
  ghost function Finished(s: Q, t: Q): seq<int>
    requires s.fin <= t.fin
  {
    s.usedq + t.fin[|s.fin|..]
  }

  /** Between the handler's turns: it has seen the first of the finished requests, those
      are done, and the others of them are still in the ring. */
  ghost predicate Serving(s: Q, t: Q) {
    && t.chains.Keys == s.chains.Keys && s.fin <= t.fin && 0 <= t.seen - s.seen <= |Finished(s, t)|
    && t.usedq == Finished(s, t)[t.seen - s.seen..]
    && forall h :: h in t.chains ==> Moved(s, t, h, Finished(s, t)[..t.seen - s.seen])
  }

  ghost predicate Moved(s: Q, t: Q, h: int, seen: seq<int>)
    requires h in s.chains && h in t.chains
  {
    && t.chains[h] == s.chains[h].(stage := t.chains[h].stage)
    && (t.chains[h].stage == Done <==> s.chains[h].stage == Done || h in seen)
  }

  /** The handler has returned: done are those that were, and exactly those that the
      device had finished. */
  ghost predicate Served(s: Q, t: Q, h: int)
    requires s.fin <= t.fin && h in s.chains && h in t.chains
  {
    && t.chains[h] == s.chains[h].(stage := t.chains[h].stage) && t.chains[h].stage != Used
    && (t.chains[h].stage == Done <==> s.chains[h].stage == Done || h in Finished(s, t))
  }

  lemma ServingNone(s: Q)
    ensures Serving(s, s)
  {
    assert Finished(s, s)[0..] == s.usedq;
  }

  lemma ServingNext(s: Q, t: Q)
    requires Serving(s, t) && t.usedq != [] && t.usedq[0] in t.chains
    ensures Serving(s, SeenNext(t))
  {
    var u, k := SeenNext(t), t.seen - s.seen;
    assert Finished(s, u) == Finished(s, t);
    assert Finished(s, t)[..k + 1] == Finished(s, t)[..k] + [t.usedq[0]];
    forall h | h in u.chains ensures Moved(s, u, h, Finished(s, u)[..k + 1]) {
      assert Moved(s, t, h, Finished(s, t)[..k]);
    }
  }

  lemma SeenFewer(s: Q, h: int)
    requires s.usedq != [] && s.usedq[0] == h && h in s.chains && s.chains[h].stage == Used
    ensures Unseen(SeenNext(s)) < Unseen(s)
  {
    assert h in Unseen(s) && h !in Unseen(SeenNext(s));
  }

  lemma OnwardFinished(s: Q, t: Q, u: Q, k: nat)
    requires Onward(t, u) && s.fin <= t.fin && k <= |Finished(s, t)| && t.usedq == Finished(s, t)[k..]
    ensures s.fin <= u.fin && k <= |Finished(s, u)| && u.usedq == Finished(s, u)[k..]
    ensures Finished(s, u)[..k] == Finished(s, t)[..k]
  {
    assert u.fin[|s.fin|..] == t.fin[|s.fin|..] + u.fin[|t.fin|..];
    assert Finished(s, u) == Finished(s, t) + u.fin[|t.fin|..];
  }

  lemma OnwardServing(s: Q, t: Q, u: Q)
    requires Onward(t, u) && Serving(s, t)
    ensures Serving(s, u) && Unseen(u) <= Unseen(t)
  {
    var k := t.seen - s.seen;
    OnwardFinished(s, t, u, k);
    hide Finished;
    assert forall h :: h in u.chains <==> h in t.chains;
    forall h | h in u.chains ensures Moved(s, u, h, Finished(s, u)[..k]) {
      assert h in t.chains && Moved(s, t, h, Finished(s, t)[..k]);
    }
    OnwardUnseen(t, u);
  }

  lemma OnwardUnseen(t: Q, u: Q)
    requires Onward(t, u)
    ensures Unseen(u) <= Unseen(t)
  {
    forall h | h in Unseen(u) ensures h in Unseen(t) {
      assert h in u.chains && h in t.chains;
    }
  }

  lemma AllServed(s: Q, t: Q)
    requires Serving(s, t) && t.usedq == [] && forall h :: h in t.chains ==> t.chains[h].stage != Used
    ensures t.chains.Keys == s.chains.Keys && s.fin <= t.fin && t.seen == s.seen + |Finished(s, t)|
    ensures forall h :: h in t.chains ==> Served(s, t, h)
  {
    assert Finished(s, t)[..t.seen - s.seen] == Finished(s, t);
    forall h | h in t.chains ensures Served(s, t, h) {
      assert Moved(s, t, h, Finished(s, t)[..t.seen - s.seen]);
    }
  }

  lemma PublishedOnward(s: Q, t: Q, h: int, c: Chain)
    requires Onward(s, t) && h !in t.chains
    ensures Onward(s, Without(Published(t, h, c), h))
  {
    hide Onward;
    var u := Without(Published(t, h, c), h);
    assert u.chains == t.chains && u.queue == t.queue;
    OnwardStore(t, u);
    OnwardTrans(s, t, u);
  }

  lemma FormattedNow(s: Q, h: int, c: Chain)
    requires Shape(s) && IsDesc(h) && IsDesc(c.d1) && IsDesc(c.d2) && h != c.d1 && h != c.d2 && c.d1 != c.d2 && c.b != 0
    requires s.ops[h] == Op(if c.write then T_OUT else T_IN, c.block * (1024 / 512)) && s.info[h].b == c.b
    requires s.desc[h] == Desc(Ops(h), 16, NEXT, c.d1) && s.desc[c.d2] == Desc(Status(h), 1, WRITE, 0)
    requires s.desc[c.d1] == Desc(Data(c.b), 1024, (if c.write then 0 else WRITE) + NEXT, c.d2)
    ensures Formatted(s, h, c)
  {
  }

  lemma ReadyNow(s: Q, h: int, c: Chain)
    requires Ok(s, {h, c.d1, c.d2}) && Shape(s) && Formatted(s, h, c) && c.stage == Queued && IsDesc(h)
    requires s.info[h].status == 255 && c.b in s.busy && s.busy[c.b] && s.availRing[s.availIdx % NUM] == h
    requires forall g :: g in s.chains ==> s.chains[g].b != c.b
    ensures Ready(s, h, c)
  {
  }

  lemma KeptAt(s: Q, t: Q, loose: set<int>, h: int)
    requires DriverKept(s, t, loose) && h in loose && 0 <= h < |s.info|
    ensures t.desc == s.desc && t.ops == s.ops && t.busy == s.busy && |t.info| == |s.info| && t.info[h] == s.info[h]
    ensures t.availIdx == s.availIdx && t.availRing == s.availRing
  {
  }

  lemma KeptRefl(s: Q, loose: set<int>)
    ensures DriverKept(s, s, loose)
  {
  }

  lemma OnwardRefl(s: Q)
    ensures Onward(s, s)
  {
  }

  lemma IdleIsDone(s: Q, h: int)
    requires Ok(s, {}) && h in s.chains && s.chains[h].b in s.busy && !s.busy[s.chains[h].b]
    ensures s.chains[h].stage == Done
  {
    assert ChainOk(s, h);
  }

  lemma OwnersOf(s: Q, h: int)
    requires Ok(s, {}) && h in s.chains
    ensures var c := s.chains[h];
            forall i :: i in s.owner && s.owner[i] == h <==> i in {h, c.d1, c.d2}
    ensures Shape(s) && forall i :: i in {h, s.chains[h].d1, s.chains[h].d2} ==> IsDesc(i) && !s.free[i]
  {
    assert ChainOk(s, h);
    forall i | i in s.owner && s.owner[i] == h ensures i in {h, s.chains[h].d1, s.chains[h].d2} {
      assert OneOf(s, i, h);
    }
  }

  lemma ShapeOf(s: Q, loose: set<int>)
    requires Ok(s, loose)
    ensures Shape(s)
  {
  }

  lemma NotYetChain(s: Q, h: int, loose: set<int>)
    requires Ok(s, loose) && h in loose
    ensures h !in s.chains
  {
    forall g | g in s.chains ensures g != h {
      assert ChainOk(s, g);
    }
  }

  lemma QueueNonempty(s: Q, loose: set<int>)
    requires Ok(s, loose) && s.devIdx != s.availIdx
    ensures s.queue != []
  {
  }

  lemma HeldIsTaken(s: Q, loose: set<int>, h: int)
    requires Ok(s, loose) && h in s.held
    ensures h in s.chains && s.chains[h].stage == Taken
  {
    assert ChainOk(s, h);
  }

  lemma ChainFormat(s: Q, loose: set<int>, h: int)
    requires Ok(s, loose) && h in s.chains
    ensures Shape(s) && Formatted(s, h, s.chains[h])
  {
    assert ChainOk(s, h);
  }

  lemma UsedqShort(s: Q)
    requires Ok(s, {})
    ensures s.seenIdx == s.usedIdx <==> s.usedq == []
  {
    forall g | g in s.usedq ensures IsDesc(g) {
      assert ChainOk(s, g);
    }
    FewHeads(s.usedq, NUM);
  }

  lemma AllSeen(s: Q)
    requires Ok(s, {}) && s.usedq == []
    ensures forall h :: h in s.chains ==> s.chains[h].stage != Used
  {
    forall h | h in s.chains ensures s.chains[h].stage != Used {
      assert ChainOk(s, h);
    }
  }

  ghost predicate InChain(s: Q, i: int, h: int)
    requires h in s.chains
  {
    i == h || i == s.chains[h].d1 || i == s.chains[h].d2
  }

  /** free[] is exactly the complement of the descriptors of requests in flight, each of
      which is in one request only; and each buffer in flight has one request. */
  lemma FreeIffUnused(s: Q)
    requires Ok(s, {})
    ensures Shape(s) && forall i :: IsDesc(i) ==> (s.free[i] <==> forall h :: h in s.chains ==> !InChain(s, i, h))
    ensures forall i, h, g :: h in s.chains && g in s.chains && InChain(s, i, h) && InChain(s, i, g) ==> h == g
    ensures forall h :: h in s.chains ==> |{h, s.chains[h].d1, s.chains[h].d2}| == 3
  {
    forall h, i | h in s.chains && InChain(s, i, h) ensures i in s.owner && s.owner[i] == h {
      assert ChainOk(s, h);
    }
    forall i | IsDesc(i) && i in s.owner ensures s.owner[i] in s.chains && InChain(s, i, s.owner[i]) {
      assert OneOf(s, i, s.owner[i]);
    }
    forall h | h in s.chains ensures |{h, s.chains[h].d1, s.chains[h].d2}| == 3 {
      assert ChainOk(s, h);
    }
  }
}
