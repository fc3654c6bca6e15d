// xv6 page tables and physical frames (CLab/xv6/kernel/vm.c, kalloc.c): Sv39,
// section 4.4 of the RISC-V Privileged Architecture, version 1.12.
//
// Physical memory is a map from frame address to its 512 64-bit words. A page table
// is whatever walk() makes of those words; the ghost state says which frame plays
// which part in which tree.

module PageTables {
  const PGSIZE := 4096
  const WORDS := 512
  const MAXVA := 0x40_0000_0000
  const JUNK_FREE := 0x0101_0101_0101_0101
  const JUNK_NEW := 0x0505_0505_0505_0505

  type Frame = int
  type Pte = int
  type Memory = map<Frame, seq<int>>

  // ------------------------------------------------------------------ entries

  predicate IsFrame(pa: int) {
    pa > 0 && pa % PGSIZE == 0
  }

  /** PTE_V. */
  predicate Present(w: Pte) {
    w % 2 == 1
  }

  /** PTE2PA: bits 10 and up are the frame number. */
  function Pa(w: Pte): Frame {
    w / 1024 * PGSIZE
  }

  /** PTE_FLAGS. */
  function Flags(w: Pte): int {
    w % 1024
  }

  /** None of PTE_R, PTE_W, PTE_X: the entry points to a page-table page. */
  predicate Interior(w: Pte) {
    w / 2 % 8 == 0
  }

  /** flags | PTE_V. */
  function WithValidBit(flags: int): int {
    if flags % 2 == 1 then flags else flags + 1
  }

  lemma PteParts(w: Pte, n: int, f: int)
    requires 0 <= f < 1024 && w == n * 1024 + f
    ensures w / 1024 == n && w % 1024 == f
  {
  }

  lemma Even(w: int, k: int, r: int)
    requires w == 2 * k + r && 0 <= r < 2
    ensures w % 2 == r && w / 2 == k
  {
  }

  lemma Eighths(w: int, k: int, r: int)
    requires w == 8 * k + r && 0 <= r < 8
    ensures w % 8 == r
  {
  }

  lemma PteParity(w: Pte, n: int, f: int)
    requires w == n * 1024 + f
    ensures w % 2 == f % 2
  {
    Even(w, n * 512 + f / 2, f % 2);
  }

  lemma PteKind(w: Pte, n: int, f: int)
    requires w == n * 1024 + f
    ensures w / 2 % 8 == f / 2 % 8
  {
    Even(w, n * 512 + f / 2, f % 2);
    Eighths(w / 2, n * 64 + f / 2 / 8, f / 2 % 8);
  }

  /** PA2PTE(pa) | flags | PTE_V. */
  function MakePte(pa: Frame, flags: int): (w: Pte)
    requires 0 <= flags < 1024
    ensures Present(w) && Flags(w) == WithValidBit(flags)
    ensures Pa(w) == pa - pa % PGSIZE
    ensures Interior(w) <==> flags / 2 % 8 == 0
  {
    var n, f := pa / PGSIZE, WithValidBit(flags);
    PteParts(n * 1024 + f, n, f);
    PteParity(n * 1024 + f, n, f);
    PteKind(n * 1024 + f, n, f);
    n * 1024 + f
  }

  // ------------------------------------------------------------------ addresses

  /** PX(level, va). */
  function Px(level: int, va: int): int
    requires 0 <= level <= 2
  {
    if level == 0 then va / 4096 % 512
    else if level == 1 then va / 2097152 % 512
    else va / 1073741824 % 512
  }

  /** A virtual page number's three indices: v = (Hi * 512 + Mid) * 512 + Lo. */
  function Hi(v: int): int {
    v / 262144
  }

  function Mid(v: int): int {
    v / 512 % 512
  }

  function Lo(v: int): int {
    v % 512
  }

  lemma PxIndices(va: int)
    requires 0 <= va < MAXVA
    ensures Px(2, va) == Hi(va / PGSIZE) && Px(1, va) == Mid(va / PGSIZE) && Px(0, va) == Lo(va / PGSIZE)
    ensures 0 <= Hi(va / PGSIZE) < 512
  {
    var v := va / PGSIZE;
    assert va / 2097152 == v / 512;
    assert va / 1073741824 == v / 262144;
    assert v / 262144 < 256;
  }

  lemma IndicesDetermine(v: int, u: int)
    requires Hi(v) == Hi(u) && Mid(v) == Mid(u) && Lo(v) == Lo(u)
    ensures v == u
  {
    assert v == 262144 * Hi(v) + 512 * Mid(v) + Lo(v);
    assert u == 262144 * Hi(u) + 512 * Mid(u) + Lo(u);
  }

  // ------------------------------------------------------------------- trees

  /** A page-table page's place: the root of a tree, or below an entry of another page. */
  datatype Node = Top(root: Frame) | Below(parent: Node, index: int)

  function Depth(n: Node): nat {
    match n
    case Top(_) => 0
    case Below(p, _) => 1 + Depth(p)
  }

  /** m is n or below it. */
  predicate Under(n: Node, m: Node) {
    m == n || (m.Below? && Under(n, m.parent))
  }

  /** The page holding the leaf entry of virtual page v in tree r. */
  function LeafNode(r: Frame, v: int): (n: Node)
    ensures Depth(n) == 2
  {
    var n := Below(Top(r), Hi(v));
    assert Depth(n) == 1;
    Below(n, Mid(v))
  }

  /** All of memory: its words, the chain of free frames from freelist, and (as proof
      state) the parts that the frames of the pool play. held are the frames that
      kalloc gave out and that are not page-table pages. */
  datatype State = State(pool: set<Frame>, mem: Memory, freelist: Frame, free: seq<Frame>,
                         tabs: map<Node, Frame>, role: map<Frame, Node>, held: set<Frame>)

  function Word(mem: Memory, f: Frame, i: int): int {
    if f in mem && 0 <= i < |mem[f]| then mem[f][i] else 0
  }

  function Page(w: int): (p: seq<int>)
    ensures |p| == WORDS && forall i :: 0 <= i < WORDS ==> p[i] == w
  {
    seq(WORDS, _ => w)
  }

  /** An entry of an upper page says whether there is a page below it, and which. */
  ghost predicate Links(s: State, p: Node, i: int)
    requires p in s.tabs
  {
    var w := Word(s.mem, s.tabs[p], i);
    if Below(p, i) in s.tabs then Present(w) && Pa(w) == s.tabs[Below(p, i)] && Interior(w) else !Present(w)
  }

  /** tabs lays the page-table pages out as trees of three levels, and memory says the
      same, but for the entries above the nodes in cut. */
  ghost predicate TreesOk(s: State, cut: set<Node>) {
    && (forall n {:trigger n in s.tabs} :: n in s.tabs ==> Depth(n) <= 2)
    && (forall r {:trigger Top(r) in s.tabs} :: Top(r) in s.tabs ==> s.tabs[Top(r)] == r)
    && (forall p, i {:trigger Below(p, i) in s.tabs} :: Below(p, i) in s.tabs ==> p in s.tabs && 0 <= i < WORDS)
    && (forall p, i {:trigger Below(p, i)} ::
          p in s.tabs && Depth(p) < 2 && 0 <= i < WORDS && Below(p, i) !in cut ==> Links(s, p, i))
  }

  /** Every frame of the pool is either free, or plays one part in one tree, or is held. */
  ghost predicate Partition(s: State) {
    && (forall f {:trigger f in s.pool} :: f in s.pool ==> (
          IsFrame(f) && f in s.mem && |s.mem[f]| == WORDS && (f in s.free || f in s.role || f in s.held)))
    && (forall f {:trigger f in s.free} :: f in s.free ==> f in s.pool && f !in s.role && f !in s.held)
    && (forall f {:trigger f in s.role} :: f in s.role ==> (
          f in s.pool && f !in s.held && s.role[f] in s.tabs && s.tabs[s.role[f]] == f))
    && (forall f {:trigger f in s.held} :: f in s.held ==> f in s.pool)
    && (forall n {:trigger n in s.tabs} :: n in s.tabs ==> s.tabs[n] in s.role && s.role[s.tabs[n]] == n)
  }

  function NextFree(free: seq<Frame>, i: int): Frame {
    if 0 <= i < |free| then free[i] else 0
  }

  /** The free frames are linked through their first words, each once. */
  ghost predicate Chained(s: State) {
    && s.freelist == NextFree(s.free, 0)
    && (forall i :: 0 <= i < |s.free| ==> Word(s.mem, s.free[i], 0) == NextFree(s.free, i + 1))
    && (forall i, j :: 0 <= i < j < |s.free| ==> s.free[i] != s.free[j])
  }

  ghost predicate Ok(s: State, cut: set<Node>) {
    TreesOk(s, cut) && Partition(s) && Chained(s)
  }

  /** The flat view of a page table: the entry of virtual page v, 0 if it is not mapped. */
  ghost function Entry(s: State, r: Frame, v: int): Pte {
    var n := LeafNode(r, v);
    if n in s.tabs && Present(Word(s.mem, s.tabs[n], Lo(v))) then Word(s.mem, s.tabs[n], Lo(v)) else 0
  }

  // ------------------------------------------------------- steps on one frame or entry

  ghost function Popped(s: State, words: seq<int>): State
    requires s.free != []
  {
    var f := s.free[0];
    s.(mem := s.mem[f := words], freelist := NextFree(s.free, 1), free := s.free[1..], held := s.held + {f})
  }

  ghost function Pushed(s: State, f: Frame): State {
    s.(mem := s.mem[f := Page(JUNK_FREE)[0 := s.freelist]], freelist := f, free := [f] + s.free,
       held := s.held - {f})
  }

  /** The words of one frame that is not on the free list change. */
  ghost function Stored(s: State, f: Frame, words: seq<int>): State {
    s.(mem := s.mem[f := words])
  }

  lemma HeadAndTail(free: seq<Frame>)
    requires free != [] && forall i, j :: 0 <= i < j < |free| ==> free[i] != free[j]
    ensures forall f {:trigger f in free} {:trigger f in free[1..]} :: f in free <==> f == free[0] || f in free[1..]
    ensures free[0] !in free[1..]
  {
    assert free == [free[0]] + free[1..];
  }

  lemma PoppedOk(s: State, words: seq<int>, cut: set<Node>)
    requires Ok(s, cut) && s.free != [] && |words| == WORDS
    ensures IsFrame(s.free[0]) && s.free[0] !in s.held && s.free[0] in s.pool
    ensures Ok(Popped(s, words), cut)
    ensures forall r, v :: Entry(Popped(s, words), r, v) == Entry(s, r, v)
  {
    var t := Popped(s, words);
    HeadAndTail(s.free);
    assert s.free[0] in s.free;
    assert TreesOk(t, cut) by {
      forall p, i | p in t.tabs && Depth(p) < 2 && 0 <= i < WORDS && Below(p, i) !in cut ensures Links(t, p, i) {
        assert Links(s, p, i);
      }
    }
    assert Chained(t) by {
      forall i | 0 <= i < |t.free| ensures Word(t.mem, t.free[i], 0) == NextFree(t.free, i + 1) {
        assert t.free[i] == s.free[i + 1];
      }
    }
  }

  lemma PushedTrees(s: State, f: Frame, cut: set<Node>)
    requires TreesOk(s, cut) && Partition(s) && f in s.held
    ensures TreesOk(Pushed(s, f), cut)
    ensures forall r, v :: Entry(Pushed(s, f), r, v) == Entry(s, r, v)
  {
    var t := Pushed(s, f);
    assert f !in s.role;
    forall p, i | p in t.tabs && Depth(p) < 2 && 0 <= i < WORDS && Below(p, i) !in cut ensures Links(t, p, i) {
      assert Links(s, p, i);
    }
  }

  lemma PushedPartition(s: State, f: Frame)
    requires Partition(s) && f in s.held
    ensures Partition(Pushed(s, f))
  {
    var t := Pushed(s, f);
    assert t.free[0] == f && t.free[1..] == s.free;
    assert forall g {:trigger g in t.free} :: g in t.free <==> g == f || g in s.free;
  }

  lemma PushedChained(s: State, f: Frame)
    requires Partition(s) && Chained(s) && f in s.held
    ensures Chained(Pushed(s, f))
  {
    var t := Pushed(s, f);
    assert f !in s.free;
    forall i | 0 <= i < |t.free| ensures Word(t.mem, t.free[i], 0) == NextFree(t.free, i + 1) {
      if i > 0 {
        assert t.free[i] == s.free[i - 1] && s.free[i - 1] in s.free;
      }
    }
    forall i, j | 0 <= i < j < |t.free| ensures t.free[i] != t.free[j] {
      assert t.free[j] == s.free[j - 1] && s.free[j - 1] in s.free;
      if i > 0 {
        assert t.free[i] == s.free[i - 1];
      }
    }
  }

  lemma PushedOk(s: State, f: Frame, cut: set<Node>)
    requires Ok(s, cut) && f in s.held
    ensures Ok(Pushed(s, f), cut)
    ensures forall r, v :: Entry(Pushed(s, f), r, v) == Entry(s, r, v)
  {
    hide TreesOk, Partition, Chained, Entry;
    PushedTrees(s, f, cut);
    PushedPartition(s, f);
    PushedChained(s, f);
  }

  lemma StoredOk(s: State, f: Frame, words: seq<int>, cut: set<Node>)
    requires Ok(s, cut) && f in s.held && |words| == WORDS
    ensures Ok(Stored(s, f, words), cut)
    ensures forall r, v :: Entry(Stored(s, f, words), r, v) == Entry(s, r, v)
  {
    var t := Stored(s, f, words);
    assert TreesOk(t, cut) by {
      forall p, i | p in t.tabs && Depth(p) < 2 && 0 <= i < WORDS && Below(p, i) !in cut ensures Links(t, p, i) {
        assert Links(s, p, i);
      }
    }
    assert Chained(t) by {
      forall i | 0 <= i < |t.free| ensures Word(t.mem, t.free[i], 0) == NextFree(t.free, i + 1) {
        assert s.free[i] in s.free;
      }
    }
  }

  /** Entry i of the page at p becomes w. */
  ghost function WithEntry(s: State, p: Node, i: int, w: Pte): State
    requires p in s.tabs && s.tabs[p] in s.mem && 0 <= i < |s.mem[s.tabs[p]]|
  {
    Stored(s, s.tabs[p], s.mem[s.tabs[p]][i := w])
  }

  lemma TableInMemory(s: State, cut: set<Node>, n: Node)
    requires Ok(s, cut) && n in s.tabs
    ensures s.tabs[n] in s.mem && |s.mem[s.tabs[n]]| == WORDS && IsFrame(s.tabs[n]) && Depth(n) <= 2
  {
    var f := s.tabs[n];
    assert f in s.role;
    assert f in s.pool;
  }

  /** What does not depend on the words of page-table pages survives a store to one. */
  lemma EntryFrames(s: State, cut: set<Node>, p: Node, i: int, w: Pte)
    requires Ok(s, cut) && p in s.tabs && 0 <= i < WORDS
    ensures s.tabs[p] in s.mem && |s.mem[s.tabs[p]]| == WORDS
    ensures Partition(WithEntry(s, p, i, w)) && Chained(WithEntry(s, p, i, w))
  {
    TableInMemory(s, cut, p);
    var t := WithEntry(s, p, i, w);
    forall k | 0 <= k < |t.free| ensures Word(t.mem, t.free[k], 0) == NextFree(t.free, k + 1) {
      assert s.free[k] in s.free;
    }
  }

  /** Writing a leaf entry changes the flat view there and nowhere else. */
  lemma LeafWritten(s: State, cut: set<Node>, r: Frame, v: int, w: Pte)
    requires Ok(s, cut) && LeafNode(r, v) in s.tabs && (Present(w) || w == 0)
    ensures s.tabs[LeafNode(r, v)] in s.mem && |s.mem[s.tabs[LeafNode(r, v)]]| == WORDS
    ensures var t := WithEntry(s, LeafNode(r, v), Lo(v), w);
            Ok(t, cut) && forall q, u :: Entry(t, q, u) == if q == r && u == v then w else Entry(s, q, u)
  {
    var n := LeafNode(r, v);
    EntryFrames(s, cut, n, Lo(v), w);
    var t := WithEntry(s, n, Lo(v), w);
    assert TreesOk(t, cut) by {
      forall p, i | p in t.tabs && Depth(p) < 2 && 0 <= i < WORDS && Below(p, i) !in cut ensures Links(t, p, i) {
        assert Links(s, p, i);
        assert s.role[s.tabs[p]] == p && s.role[s.tabs[n]] == n;
      }
    }
    forall q, u ensures Entry(t, q, u) == if q == r && u == v then w else Entry(s, q, u) {
      var m := LeafNode(q, u);
      if m == n && Lo(u) == Lo(v) {
        IndicesDetermine(u, v);
      } else if m in s.tabs {
        assert s.role[s.tabs[m]] == m && s.role[s.tabs[n]] == n;
      }
    }
  }

  /** A held frame of zeros becomes the page below entry i of p. */
  ghost function WithTable(s: State, p: Node, i: int, f: Frame, w: Pte): State
    requires p in s.tabs && s.tabs[p] in s.mem && 0 <= i < |s.mem[s.tabs[p]]|
  {
    WithEntry(s, p, i, w).(tabs := s.tabs[Below(p, i) := f], role := s.role[f := Below(p, i)], held := s.held - {f})
  }

  ghost predicate Addable(s: State, p: Node, i: int, f: Frame, w: Pte) {
    && p in s.tabs && Depth(p) < 2 && 0 <= i < WORDS && Below(p, i) !in s.tabs
    && f in s.held && f in s.mem && s.mem[f] == Page(0)
    && Present(w) && Pa(w) == f && Interior(w)
  }

  lemma TableAddedTrees(s: State, p: Node, i: int, f: Frame, w: Pte)
    requires Ok(s, {}) && Addable(s, p, i, f, w)
    requires s.tabs[p] in s.mem && |s.mem[s.tabs[p]]| == WORDS
    ensures TreesOk(WithTable(s, p, i, f, w), {})
  {
    var t := WithTable(s, p, i, f, w);
    var c := Below(p, i);
    assert f !in s.role && s.tabs[p] in s.role;
    forall q, j | q in t.tabs && Depth(q) < 2 && 0 <= j < WORDS ensures Links(t, q, j) {
      if q != c {
        assert Links(s, q, j);
        assert s.role[s.tabs[q]] == q && s.role[s.tabs[p]] == p;
      } else {
        assert Below(c, j) !in s.tabs;
      }
    }
  }

  lemma TableAdded(s: State, p: Node, i: int, f: Frame, w: Pte)
    requires Ok(s, {}) && Addable(s, p, i, f, w)
    ensures s.tabs[p] in s.mem && |s.mem[s.tabs[p]]| == WORDS
    ensures Ok(WithTable(s, p, i, f, w), {})
  {
    EntryFrames(s, {}, p, i, w);
    TableAddedTrees(s, p, i, f, w);
    var t := WithTable(s, p, i, f, w);
    var c := Below(p, i);
    assert f !in s.role;
    forall n | n in t.tabs ensures t.tabs[n] in t.role && t.role[t.tabs[n]] == n {
      if n != c { assert n in s.tabs; }
    }
  }

  lemma TableAddedFlat(s: State, p: Node, i: int, f: Frame, w: Pte, r: Frame, v: int)
    requires Ok(s, {}) && Addable(s, p, i, f, w)
    requires s.tabs[p] in s.mem && |s.mem[s.tabs[p]]| == WORDS
    ensures Entry(WithTable(s, p, i, f, w), r, v) == Entry(s, r, v)
  {
    var n := LeafNode(r, v);
    assert s.role[s.tabs[p]] == p && f !in s.role;
    if n in s.tabs {
      assert s.role[s.tabs[n]] == n;
    }
  }

  /** The page at n, with nothing below it, goes back to whoever walks the tree. */
  ghost function WithoutTable(s: State, n: Node): State
    requires n in s.tabs
  {
    s.(tabs := s.tabs - {n}, role := s.role - {s.tabs[n]}, held := s.held + {s.tabs[n]})
  }

  lemma TableRemoved(s: State, n: Node)
    requires Ok(s, {}) && n in s.tabs && forall i :: Below(n, i) !in s.tabs
    ensures s.tabs[n] !in s.held
    ensures Ok(WithoutTable(s, n), {n})
    ensures forall r, v :: LeafNode(r, v) != n ==> Entry(WithoutTable(s, n), r, v) == Entry(s, r, v)
  {
    var t := WithoutTable(s, n);
    var f := s.tabs[n];
    assert f in s.role && s.role[f] == n;
    assert TreesOk(t, {n}) by {
      forall p, i | p in t.tabs && Depth(p) < 2 && 0 <= i < WORDS && Below(p, i) !in {n} ensures Links(t, p, i) {
        assert Links(s, p, i);
      }
    }
  }

  /** Writing 0 over the entry of a page that is gone mends the tree. */
  lemma LinkCleared(s: State, q: Node, k: int)
    requires q in s.tabs && Depth(q) < 2 && 0 <= k < WORDS
    requires Ok(s, {Below(q, k)}) && Below(q, k) !in s.tabs
    ensures s.tabs[q] in s.mem && |s.mem[s.tabs[q]]| == WORDS
    ensures Ok(WithEntry(s, q, k, 0), {})
  {
    EntryFrames(s, {Below(q, k)}, q, k, 0);
    var t := WithEntry(s, q, k, 0);
    forall p, i | p in t.tabs && Depth(p) < 2 && 0 <= i < WORDS ensures Links(t, p, i) {
      LinkAfterClear(s, q, k, p, i);
    }
    assert TreesOk(t, {});
  }

  lemma LinkAfterClear(s: State, q: Node, k: int, p: Node, i: int)
    requires q in s.tabs && Depth(q) < 2 && 0 <= k < WORDS
    requires Ok(s, {Below(q, k)}) && Below(q, k) !in s.tabs
    requires s.tabs[q] in s.mem && |s.mem[s.tabs[q]]| == WORDS
    requires p in s.tabs && Depth(p) < 2 && 0 <= i < WORDS
    ensures Links(WithEntry(s, q, k, 0), p, i)
  {
    var t := WithEntry(s, q, k, 0);
    if p == q && i == k {
      assert Word(t.mem, t.tabs[p], i) == 0;
    } else {
      assert Below(p, i) != Below(q, k);
      assert Links(s, p, i);
      assert Word(t.mem, t.tabs[p], i) == Word(s.mem, s.tabs[p], i) by {
        assert s.role[s.tabs[p]] == p && s.role[s.tabs[q]] == q;
      }
    }
  }

  // ------------------------------------------------------------ what one call keeps

  ghost predicate SameFlat(s: State, t: State) {
    forall r, v :: Entry(t, r, v) == Entry(s, r, v)
  }

  /** No page-table page is lost, and no tree appears. */
  ghost predicate Extends(s: State, t: State) {
    && t.pool == s.pool
    && (forall n {:trigger n in s.tabs} {:trigger n in t.tabs} :: n in s.tabs ==> n in t.tabs && t.tabs[n] == s.tabs[n])
    && (forall r {:trigger Top(r) in t.tabs} :: Top(r) in t.tabs ==> Top(r) in s.tabs)
  }

  /** Frames held before and after keep their words. */
  ghost predicate SameData(s: State, t: State) {
    forall f {:trigger f in t.held} :: f in s.held && f in t.held ==>
      f in s.mem && f in t.mem && t.mem[f] == s.mem[f]
  }

  ghost predicate Calm(s: State, t: State) {
    Extends(s, t) && SameData(s, t) && t.held == s.held
  }

  lemma CalmTrans(s: State, t: State, u: State)
    requires Calm(s, t) && Calm(t, u)
    ensures Calm(s, u)
  {
  }

  ghost predicate HasTable(s: State, n: Node, f: Frame) {
    n in s.tabs && s.tabs[n] == f
  }

  /** The state once a free frame has become the page below entry i of n. */
  ghost function NewTable(s: State, n: Node, i: int): State
    requires s.free != [] && n in s.tabs && s.tabs[n] in s.mem && 0 <= i < |s.mem[s.tabs[n]]|
    requires s.tabs[n] != s.free[0]
  {
    var f := s.free[0];
    WithTable(Stored(Popped(s, Page(JUNK_NEW)), f, Page(0)), n, i, f, MakePte(f, 1))
  }

  lemma NewTableOk(s: State, n: Node, i: int)
    requires Ok(s, {}) && s.free != [] && n in s.tabs && Depth(n) < 2 && 0 <= i < WORDS && Below(n, i) !in s.tabs
    ensures s.tabs[n] in s.mem && |s.mem[s.tabs[n]]| == WORDS && s.tabs[n] != s.free[0] && s.free[0] != 0
    ensures Ok(NewTable(s, n, i), {})
    ensures SameFlat(s, NewTable(s, n, i)) && Calm(s, NewTable(s, n, i))
    ensures HasTable(NewTable(s, n, i), Below(n, i), s.free[0])
  {
    hide Ok, Entry;
    var f := s.free[0];
    TableInMemory(s, {}, n);
    var s1 := Popped(s, Page(JUNK_NEW));
    PoppedOk(s, Page(JUNK_NEW), {});
    FreeIsNoTable(s, n);
    var s2 := Stored(s1, f, Page(0));
    StoredOk(s1, f, Page(0), {});
    var w := MakePte(f, 1);
    assert Addable(s2, n, i, f, w);
    TableAdded(s2, n, i, f, w);
    var t := NewTable(s, n, i);
    forall r, v ensures Entry(t, r, v) == Entry(s, r, v) {
      TableAddedFlat(s2, n, i, f, w, r, v);
    }
    assert t.held == s.held;
    HeldInMemory(s);
    HeldIsNoTable(s, {}, n);
  }

  lemma FreeIsNoTable(s: State, n: Node)
    requires Ok(s, {}) && s.free != [] && n in s.tabs
    ensures s.tabs[n] != s.free[0]
  {
    assert s.tabs[n] in s.role && s.free[0] in s.free;
  }

  lemma FreeHead(s: State, cut: set<Node>)
    requires Ok(s, cut)
    ensures s.freelist == 0 <==> s.free == []
  {
    if s.free != [] {
      assert s.free[0] in s.free;
      assert s.free[0] in s.pool;
    }
  }

  lemma HeldInMemory(s: State)
    requires Ok(s, {})
    ensures forall f {:trigger f in s.held} :: f in s.held ==> f in s.mem
  {
    forall f | f in s.held ensures f in s.mem {
      assert f in s.pool;
    }
  }

  lemma HeldPages(s: State)
    requires Ok(s, {})
    ensures forall f {:trigger f in s.held} :: f in s.held ==> f in s.mem && |s.mem[f]| == WORDS
  {
    forall f | f in s.held ensures f in s.mem && |s.mem[f]| == WORDS {
      assert f in s.pool;
    }
  }

  lemma HeldIsNoTable(s: State, cut: set<Node>, n: Node)
    requires Ok(s, cut) && n in s.tabs
    ensures s.tabs[n] !in s.held
  {
    var f := s.tabs[n];
    assert f in s.role;
  }

  lemma CalmRefl(s: State)
    requires Ok(s, {})
    ensures Calm(s, s)
  {
    HeldInMemory(s);
  }

  lemma SameFlatRefl(s: State)
    ensures SameFlat(s, s)
  {
  }

  lemma CalmTop(s: State, t: State, r: Frame)
    requires Calm(s, t)
    ensures Top(r) in s.tabs <==> Top(r) in t.tabs
  {
  }

  lemma TopIsRoot(s: State, r: Frame)
    requires Ok(s, {}) && Top(r) in s.tabs
    ensures s.tabs[Top(r)] == r
  {
  }

  /** The entry that walk is looking at says whether there is a page below. */
  lemma LinkRead(s: State, n: Node, i: int)
    requires Ok(s, {}) && n in s.tabs && Depth(n) < 2 && 0 <= i < WORDS
    ensures s.tabs[n] in s.mem && |s.mem[s.tabs[n]]| == WORDS && IsFrame(s.tabs[n])
    ensures var w := s.mem[s.tabs[n]][i];
            (Present(w) <==> Below(n, i) in s.tabs) &&
            (Present(w) ==> s.tabs[Below(n, i)] == Pa(w) && Interior(w))
  {
    TableInMemory(s, {}, n);
    assert Links(s, n, i);
    assert Word(s.mem, s.tabs[n], i) == s.mem[s.tabs[n]][i];
  }

  lemma LeafNeedsUpper(s: State, r: Frame, v: int)
    requires Ok(s, {})
    ensures LeafNode(r, v) in s.tabs ==> Below(Top(r), Hi(v)) in s.tabs && Top(r) in s.tabs
  {
  }

  // -------------------------------------------------------------- ranges of pages

  /** t maps k pages from v0 to the frames from pa, and is otherwise as s. */
  ghost predicate MappedRange(s: State, t: State, r: Frame, v0: int, k: int, pa: int, perm: int)
    requires 0 <= perm < 1024
  {
    forall q, u :: Entry(t, q, u) ==
      if q == r && v0 <= u < v0 + k then MakePte(pa + (u - v0) * PGSIZE, perm) else Entry(s, q, u)
  }

  ghost predicate Cleared(s: State, t: State, r: Frame, lo: int, hi: int) {
    forall q, u :: Entry(t, q, u) == if q == r && lo <= u < hi then 0 else Entry(s, q, u)
  }

  ghost predicate Unmapped(s: State, r: Frame, lo: int, hi: int) {
    forall u :: lo <= u < hi ==> Entry(s, r, u) == 0
  }

  predicate IsLeaf(w: Pte) {
    w != 0 && Flags(w) != 1
  }

  ghost predicate Leaves(s: State, r: Frame, lo: int, hi: int) {
    forall u :: lo <= u < hi ==> IsLeaf(Entry(s, r, u))
  }

  /** Each page of the range is mapped to a data frame of its own. */
  ghost predicate Owned(s: State, r: Frame, lo: int, hi: int) {
    && Leaves(s, r, lo, hi)
    && (forall u :: lo <= u < hi ==> Pa(Entry(s, r, u)) in s.held)
    && (forall u, v :: lo <= u < v < hi ==> Pa(Entry(s, r, u)) != Pa(Entry(s, r, v)))
  }

  ghost function PagesOf(s: State, r: Frame, lo: int, hi: int): set<Frame> {
    set u | lo <= u < hi :: Pa(Entry(s, r, u))
  }

  /** Only page v of tree r has a new entry. */
  ghost predicate Assigned(s: State, t: State, r: Frame, v: int, w: Pte) {
    forall q, u :: Entry(t, q, u) == if q == r && u == v then w else Entry(s, q, u)
  }

  lemma PageMapped(s0: State, s: State, t: State, r: Frame, v0: int, k: int, pa: int, perm: int)
    requires 0 <= perm < 1024 && 0 <= k && MappedRange(s0, s, r, v0, k, pa, perm)
    requires Assigned(s, t, r, v0 + k, MakePte(pa + k * PGSIZE, perm))
    ensures MappedRange(s0, t, r, v0, k + 1, pa, perm)
  {
    hide Entry;
  }

  /** The leaf entry at (pt, i) is the page's flat entry. */
  lemma LeafRead(s: State, r: Frame, v: int)
    requires Ok(s, {}) && LeafNode(r, v) in s.tabs
    ensures var pt := s.tabs[LeafNode(r, v)];
            pt in s.mem && |s.mem[pt]| == WORDS && IsFrame(pt) &&
            Entry(s, r, v) == if Present(s.mem[pt][Lo(v)]) then s.mem[pt][Lo(v)] else 0
  {
    TableInMemory(s, {}, LeafNode(r, v));
  }

  lemma MappedHasTable(s: State, r: Frame, v: int)
    ensures Entry(s, r, v) != 0 ==> LeafNode(r, v) in s.tabs && Present(Entry(s, r, v))
  {
  }

  lemma LeafStoreCalm(s: State, n: Node, i: int, w: Pte)
    requires Ok(s, {}) && n in s.tabs && 0 <= i < WORDS
    ensures s.tabs[n] in s.mem && |s.mem[s.tabs[n]]| == WORDS
    ensures Calm(s, WithEntry(s, n, i, w))
  {
    TableInMemory(s, {}, n);
    HeldInMemory(s);
    HeldIsNoTable(s, {}, n);
  }

  /** uvmunmap up to page c: the range is gone, and with it (if asked) its frames. */
  ghost predicate Released(s0: State, s: State, r: Frame, lo: int, c: int, doFree: bool) {
    && s.pool == s0.pool && s.tabs == s0.tabs
    && SameData(s0, s)
    && Cleared(s0, s, r, lo, c)
    && s.held == (if doFree then s0.held - PagesOf(s0, r, lo, c) else s0.held)
  }

  lemma ReleasedNone(s: State, r: Frame, lo: int, doFree: bool)
    requires Ok(s, {})
    ensures Released(s, s, r, lo, lo, doFree)
  {
    hide Entry;
    HeldInMemory(s);
    assert PagesOf(s, r, lo, lo) == {};
  }

  /** The frame of the next page is still held: no page is freed twice. */
  lemma OwnedLeaves(s: State, r: Frame, lo: int, hi: int)
    requires Owned(s, r, lo, hi)
    ensures Leaves(s, r, lo, hi)
  {
  }

  lemma NextHeld(s0: State, s: State, r: Frame, lo: int, c: int, hi: int)
    requires Released(s0, s, r, lo, c, true) && Owned(s0, r, lo, hi) && lo <= c < hi
    ensures Entry(s, r, c) == Entry(s0, r, c) && Pa(Entry(s, r, c)) in s.held
  {
    hide Entry;
    assert Pa(Entry(s0, r, c)) !in PagesOf(s0, r, lo, c);
  }

  lemma ReleasedStep(s0: State, s: State, t: State, r: Frame, lo: int, c: int, doFree: bool)
    requires Ok(s, {}) && Released(s0, s, r, lo, c, doFree) && lo <= c && Entry(s, r, c) == Entry(s0, r, c)
    requires t.pool == s.pool && t.tabs == s.tabs && SameData(s, t) && Assigned(s, t, r, c, 0)
    requires t.held == if doFree then s.held - {Pa(Entry(s, r, c))} else s.held
    ensures Released(s0, t, r, lo, c + 1, doFree)
  {
    hide Entry;
    hide Ok;
    assert PagesOf(s0, r, lo, c + 1) == PagesOf(s0, r, lo, c) + {Pa(Entry(s0, r, c))};
    assert forall f {:trigger f in t.held} :: f in t.held ==> f in s.held;
  }

  lemma PushedData(s: State, f: Frame)
    requires Ok(s, {}) && f in s.held
    ensures SameData(s, Pushed(s, f))
  {
    HeldInMemory(s);
  }

  lemma SameDataTrans(s: State, t: State, u: State)
    requires SameData(s, t) && SameData(t, u) && u.held <= t.held
    ensures SameData(s, u)
  {
  }

  /** PGROUNDUP, in pages. */
  function PagesUp(sz: int): int {
    (sz + PGSIZE - 1) / PGSIZE
  }

  /** flags | PTE_R | PTE_U. */
  function UserReadable(flags: int): int {
    var f := if flags / 2 % 2 == 0 then flags + 2 else flags;
    if f / 16 % 2 == 0 then f + 16 else f
  }

  /** Pages lo to c of tree r have new frames, of no one else; the rest is as before. */
  ghost predicate GrownTo(s0: State, s: State, r: Frame, lo: int, c: int) {
    && Extends(s0, s) && SameData(s0, s)
    && (forall q, u :: !(q == r && lo <= u < c) ==> Entry(s, q, u) == Entry(s0, q, u))
    && Owned(s, r, lo, c)
    && (forall u :: lo <= u < c ==> Pa(Entry(s, r, u)) !in s0.held)
    && s.held == s0.held + PagesOf(s, r, lo, c)
  }

  lemma GrownNone(s: State, r: Frame, lo: int)
    requires Ok(s, {})
    ensures GrownTo(s, s, r, lo, lo)
  {
    hide Entry;
    HeldInMemory(s);
    assert PagesOf(s, r, lo, lo) == {};
  }

  lemma GrownFacts(s0: State, s: State, r: Frame, lo: int, c: int)
    requires GrownTo(s0, s, r, lo, c)
    ensures Owned(s, r, lo, c) && Extends(s0, s) && SameData(s0, s) && s0.held <= s.held
    ensures forall u :: u >= c ==> Entry(s, r, u) == Entry(s0, r, u)
    ensures forall q, u :: q != r ==> Entry(s, q, u) == Entry(s0, q, u)
  {
    hide Entry;
  }

  /** A page's frame filled with words before it is mapped. */
  ghost function Filled(s: State, words: seq<int>): State
    requires s.free != []
  {
    Stored(Popped(s, Page(JUNK_NEW)), s.free[0], words)
  }

  lemma FilledOk(s: State, words: seq<int>)
    requires Ok(s, {}) && s.free != [] && |words| == WORDS
    ensures Ok(Filled(s, words), {}) && SameFlat(s, Filled(s, words)) && SameData(s, Filled(s, words))
    ensures s.free[0] !in s.held
  {
    hide Ok, Entry;
    PoppedOk(s, Page(JUNK_NEW), {});
    StoredOk(Popped(s, Page(JUNK_NEW)), s.free[0], words, {});
    HeldInMemory(s);
  }

  /** t maps page c to frame f, which held words, and is otherwise as s. */
  ghost predicate PageAdded(s: State, t: State, r: Frame, c: int, f: Frame, w: Pte, words: seq<int>) {
    && Extends(s, t) && SameData(s, t) && Assigned(s, t, r, c, w)
    && f !in s.held && t.held == s.held + {f} && Pa(w) == f && IsLeaf(w)
    && f in t.mem && t.mem[f] == words
  }

  lemma FilledAndMapped(s: State, t: State, words: seq<int>, r: Frame, c: int, perm: int)
    requires Ok(s, {}) && s.free != [] && |words| == WORDS && 0 <= perm < 1024 && WithValidBit(perm) != 1
    requires IsFrame(s.free[0])
    requires Calm(Filled(s, words), t) && MappedRange(Filled(s, words), t, r, c, 1, s.free[0], perm)
    ensures PageAdded(s, t, r, c, s.free[0], MakePte(s.free[0], perm), words)
  {
    hide Ok, Entry;
    FilledOk(s, words);
  }

  /** Page u is mapped with these flags to a frame with these words. */
  ghost predicate HasPage(s: State, r: Frame, u: int, flags: int, words: seq<int>) {
    var f := Pa(Entry(s, r, u));
    Flags(Entry(s, r, u)) == flags && f in s.mem && s.mem[f] == words
  }

  lemma GrownStep(s0: State, s: State, t: State, r: Frame, lo: int, c: int, f: Frame, w: Pte, words: seq<int>)
    requires Ok(s, {}) && GrownTo(s0, s, r, lo, c) && lo <= c && PageAdded(s, t, r, c, f, w, words)
    ensures GrownTo(s0, t, r, lo, c + 1)
    ensures forall u, x, y :: lo <= u < c && HasPage(s, r, u, x, y) ==> HasPage(t, r, u, x, y)
    ensures HasPage(t, r, c, Flags(w), words)
  {
    hide Ok, Entry;
    HeldInMemory(s);
    assert forall u :: lo <= u < c ==> Entry(t, r, u) == Entry(s, r, u);
    assert Entry(t, r, c) == w;
    assert PagesOf(t, r, lo, c + 1) == PagesOf(s, r, lo, c) + {f};
    assert Owned(t, r, lo, c + 1) by {
      forall u | lo <= u < c + 1 ensures IsLeaf(Entry(t, r, u)) && Pa(Entry(t, r, u)) in t.held {
        if u < c { assert Entry(t, r, u) == Entry(s, r, u); }
      }
    }
  }

  lemma GrownCalm(s0: State, s: State, t: State, r: Frame, lo: int, c: int)
    requires GrownTo(s0, s, r, lo, c) && Calm(s, t) && SameFlat(s, t)
    ensures GrownTo(s0, t, r, lo, c)
  {
    hide Entry;
    assert PagesOf(t, r, lo, c) == PagesOf(s, r, lo, c);
  }

  lemma FilledUnmapped(s: State, words: seq<int>, r: Frame, c: int)
    requires s.free != [] && Entry(s, r, c) == 0 && SameFlat(s, Filled(s, words))
    ensures Unmapped(Filled(s, words), r, c, c + 1)
  {
    hide Entry;
  }

  /** The frame got for a page that could not be mapped goes back. */
  lemma GaveBack(s: State, t: State, words: seq<int>, r: Frame, c: int, perm: int, pa: int)
    requires Ok(s, {}) && s.free != [] && |words| == WORDS && 0 <= perm < 1024
    requires Ok(t, {}) && Calm(Filled(s, words), t) && MappedRange(Filled(s, words), t, r, c, 0, pa, perm)
    ensures s.free[0] in t.held
    ensures Calm(s, Pushed(t, s.free[0])) && SameFlat(s, Pushed(t, s.free[0]))
  {
    hide Ok, Entry;
    FilledOk(s, words);
    var f := s.free[0];
    var u := Pushed(t, f);
    PushedOk(t, f, {});
    PushedData(t, f);
    assert u.held == s.held;
  }

  /** Page u of tree b in t has the flags and words that it had in tree a in s0. */
  ghost predicate SameImage(s0: State, t: State, a: Frame, b: Frame, u: int) {
    && Pa(Entry(s0, a, u)) in s0.mem
    && HasPage(t, b, u, Flags(Entry(s0, a, u)), s0.mem[Pa(Entry(s0, a, u))])
  }

  lemma OwnedPage(s: State, r: Frame, lo: int, hi: int, u: int)
    requires Owned(s, r, lo, hi) && lo <= u < hi
    ensures IsLeaf(Entry(s, r, u)) && Entry(s, r, u) != 0 && Pa(Entry(s, r, u)) in s.held
  {
    hide Entry;
  }

  lemma FlagsOfPresent(w: Pte)
    requires Present(w)
    ensures WithValidBit(Flags(w)) == Flags(w)
  {
    PteParity(w, w / 1024, Flags(w));
  }

  lemma SameDataAt(s: State, t: State, f: Frame)
    requires SameData(s, t) && f in s.held && f in t.held
    ensures f in s.mem && f in t.mem && t.mem[f] == s.mem[f]
  {
  }

  /** The page to copy is still what it was. */
  lemma Source(s0: State, s: State, a: Frame, b: Frame, c: int, hi: int)
    requires Ok(s, {}) && GrownTo(s0, s, b, 0, c) && a != b && 0 <= c < hi && Owned(s0, a, 0, hi)
    ensures var w := Entry(s0, a, c);
            Entry(s, a, c) == w && IsLeaf(w) && Pa(w) in s.mem && Pa(w) in s0.mem && s.mem[Pa(w)] == s0.mem[Pa(w)] &&
            |s.mem[Pa(w)]| == WORDS && WithValidBit(Flags(w)) == Flags(w)
  {
    hide *;
    HeldPages(s);
    GrownFacts(s0, s, b, 0, c);
    MappedHasTable(s0, a, c);
    OwnedPage(s0, a, 0, hi, c);
    FlagsOfPresent(Entry(s0, a, c));
    SameDataAt(s0, s, Pa(Entry(s0, a, c)));
  }

  lemma ImagesKept(s0: State, s: State, t: State, a: Frame, b: Frame, c: int)
    requires forall u :: 0 <= u < c ==> SameImage(s0, s, a, b, u)
    requires forall u, x, y :: 0 <= u < c && HasPage(s, b, u, x, y) ==> HasPage(t, b, u, x, y)
    requires Pa(Entry(s0, a, c)) in s0.mem
    requires HasPage(t, b, c, Flags(Entry(s0, a, c)), s0.mem[Pa(Entry(s0, a, c))])
    ensures forall u :: 0 <= u < c + 1 ==> SameImage(s0, t, a, b, u)
  {
    hide HasPage, Entry;
    forall u | 0 <= u < c + 1 ensures SameImage(s0, t, a, b, u) {
      if u < c {
        assert SameImage(s0, s, a, b, u);
      }
    }
  }

  /** Unmapping the pages that were added gets the flat map and the frames back. */
  lemma Undone(s0: State, s: State, t: State, r: Frame, lo: int, c: int)
    requires GrownTo(s0, s, r, lo, c) && Unmapped(s0, r, lo, c) && Released(s, t, r, lo, c, true)
    ensures Calm(s0, t) && SameFlat(s0, t)
  {
    hide Entry;
    forall f | f in PagesOf(s, r, lo, c) ensures f !in s0.held {
      var u :| lo <= u < c && f == Pa(Entry(s, r, u));
    }
    assert t.held == s0.held;
  }

  // -------------------------------------------------------------- whole trees

  ghost function WithRoot(s: State, f: Frame): State {
    s.(tabs := s.tabs[Top(f) := f], role := s.role[f := Top(f)], held := s.held - {f})
  }

  lemma RootPartition(s: State, f: Frame)
    requires Ok(s, {}) && f in s.held
    ensures Top(f) !in s.tabs && f !in s.role && Partition(WithRoot(s, f))
  {
    hide Chained;
    var t := WithRoot(s, f);
    assert f !in s.role;
    assert Top(f) !in s.tabs;
    forall n | n in t.tabs ensures t.tabs[n] in t.role && t.role[t.tabs[n]] == n {
      if n != Top(f) { assert n in s.tabs; }
    }
  }

  lemma RootTrees(s: State, f: Frame)
    requires TreesOk(s, {}) && Top(f) !in s.tabs && f in s.mem && s.mem[f] == Page(0)
    ensures TreesOk(WithRoot(s, f), {})
  {
    var t := WithRoot(s, f);
    forall q, j | q in t.tabs && Depth(q) < 2 && 0 <= j < WORDS ensures Links(t, q, j) {
      if q != Top(f) {
        assert Links(s, q, j);
      } else {
        assert Below(q, j) !in s.tabs;
      }
    }
  }

  lemma RootAdded(s: State, f: Frame)
    requires Ok(s, {}) && f in s.held && f in s.mem && s.mem[f] == Page(0)
    ensures Top(f) !in s.tabs && Ok(WithRoot(s, f), {})
    ensures forall r, v :: Entry(WithRoot(s, f), r, v) == Entry(s, r, v)
    ensures forall v :: Entry(WithRoot(s, f), f, v) == 0
  {
    RootPartition(s, f);
    RootTrees(s, f);
    hide Partition;
    assert forall v :: Below(Top(f), Hi(v)) !in s.tabs;
  }

  /** The leaf pages under n map nothing. */
  ghost predicate NoLeaves(s: State, n: Node) {
    forall m, i :: m in s.tabs && Depth(m) == 2 && Under(n, m) && 0 <= i < WORDS ==>
      !Present(Word(s.mem, s.tabs[m], i))
  }

  /** Below which entry of page n does m lie? -1 if m is not below n. */
  function KidIndex(n: Node, m: Node): int {
    if m.Top? then -1 else if m.parent == n then m.index else KidIndex(n, m.parent)
  }

  lemma UnderDepth(n: Node, m: Node)
    requires Under(n, m)
    ensures Depth(n) <= Depth(m)
  {
  }

  lemma {:induction false} KidUnder(n: Node, j: nat, m: Node)
    ensures Under(Below(n, j), m) <==> KidIndex(n, m) == j
  {
    if m.Below? {
      if m.parent == n {
        if Under(Below(n, j), n) {
          UnderDepth(Below(n, j), n);
          assert false;
        }
      } else {
        KidUnder(n, j, m.parent);
      }
    }
  }

  lemma {:induction false} UnderHasKid(s: State, n: Node, m: Node)
    requires Ok(s, {}) && m in s.tabs
    ensures Under(n, m) ==> n in s.tabs
    ensures Under(n, m) <==> m == n || 0 <= KidIndex(n, m) < WORDS
    decreases m
  {
    match m
    case Top(_) =>
    case Below(p, i) =>
      UnderHasKid(s, n, p);
  }

  function TableWords(s: State, n: Node): seq<int> {
    if n in s.tabs && s.tabs[n] in s.mem then s.mem[s.tabs[n]] else []
  }

  ghost predicate Kept(s0: State, t: State, n: Node) {
    && t.pool == s0.pool && t.held == s0.held && SameData(s0, t)
    && (forall m {:trigger m in t.tabs} :: m in t.tabs && m in s0.tabs ==> t.tabs[m] == s0.tabs[m])
    && (forall m {:trigger TableWords(t, m)} :: m in t.tabs && m != n ==> TableWords(t, m) == TableWords(s0, m))
  }

  /** freewalk at page n has dealt with entries up to i. */
  ghost predicate Pruning(s0: State, t: State, n: Node, i: int) {
    && Kept(s0, t, n)
    && (forall m {:trigger m in t.tabs} {:trigger m in s0.tabs} ::
          m in t.tabs <==> m in s0.tabs && !(0 <= KidIndex(n, m) < i))
  }

  /** The pages at and under n are gone, the others as they were. */
  ghost predicate Pruned(s0: State, t: State, n: Node) {
    && Kept(s0, t, n)
    && (forall m {:trigger m in t.tabs} {:trigger m in s0.tabs} :: m in t.tabs <==> m in s0.tabs && !Under(n, m))
  }

  lemma PruningNone(s: State, n: Node)
    requires Ok(s, {})
    ensures Pruning(s, s, n, 0)
  {
    hide Ok;
    HeldInMemory(s);
  }

  lemma NoLeafAt(s: State, n: Node, i: int)
    requires Ok(s, {}) && NoLeaves(s, n) && n in s.tabs && Depth(n) == 2 && 0 <= i < WORDS
    ensures !Present(Word(s.mem, s.tabs[n], i)) && Below(n, i) !in s.tabs
  {
    assert Depth(Below(n, i)) == 3;
  }

  lemma UnderKid(n: Node, i: int, m: Node)
    requires Under(Below(n, i), m)
    ensures Under(n, m) && m != n
  {
    UnderDepth(Below(n, i), m);
  }

  lemma SameWord(s: State, t: State, m: Node, i: int)
    requires Ok(t, {}) && m in s.tabs && m in t.tabs && TableWords(t, m) == TableWords(s, m)
    ensures Word(t.mem, t.tabs[m], i) == Word(s.mem, s.tabs[m], i)
  {
    TableInMemory(t, {}, m);
  }

  lemma NoLeavesBelow(s0: State, s: State, n: Node, i: int)
    requires Ok(s, {}) && NoLeaves(s0, n) && Pruning(s0, s, n, i)
    ensures NoLeaves(s, Below(n, i))
  {
    hide Ok;
    forall m, j | m in s.tabs && Depth(m) == 2 && Under(Below(n, i), m) && 0 <= j < WORDS
      ensures !Present(Word(s.mem, s.tabs[m], j))
    {
      UnderKid(n, i, m);
      SameWord(s0, s, m, j);
    }
  }

  lemma PrunedParent(s: State, t: State, n: Node, i: int)
    requires n in s.tabs && Pruned(s, t, Below(n, i))
    ensures HasTable(t, n, s.tabs[n]) && Below(n, i) !in t.tabs
  {
    if Under(Below(n, i), n) {
      UnderDepth(Below(n, i), n);
      assert false;
    }
  }

  lemma EntryCleared(t: State, cut: set<Node>, n: Node, i: int)
    requires Ok(t, cut) && n in t.tabs && 0 <= i < WORDS
    ensures t.tabs[n] in t.mem && |t.mem[t.tabs[n]]| == WORDS
    ensures Kept(t, WithEntry(t, n, i, 0), n)
  {
    TableInMemory(t, cut, n);
    HeldIsNoTable(t, cut, n);
    assert forall f {:trigger f in t.held} :: f in t.held ==> f in t.pool;
    var u := WithEntry(t, n, i, 0);
    forall m | m in u.tabs && m != n ensures TableWords(u, m) == TableWords(t, m) {
      assert t.role[t.tabs[m]] == m && t.role[t.tabs[n]] == n;
    }
  }

  lemma PruneStep(s0: State, s: State, t: State, n: Node, i: int)
    requires Ok(t, {Below(n, i)}) && n in t.tabs && 0 <= i < WORDS
    requires t.tabs[n] in t.mem && |t.mem[t.tabs[n]]| == WORDS
    requires Pruning(s0, s, n, i) && Pruned(s, t, Below(n, i))
    ensures Pruning(s0, WithEntry(t, n, i, 0), n, i + 1)
  {
    hide Ok;
    var c, u := Below(n, i), WithEntry(t, n, i, 0);
    EntryCleared(t, {c}, n, i);
    forall m ensures Under(c, m) <==> KidIndex(n, m) == i {
      KidUnder(n, i, m);
    }
    forall m | m in u.tabs && m != n ensures TableWords(u, m) == TableWords(s0, m) {
      assert m != c;
      assert TableWords(t, m) == TableWords(s, m);
    }
    SameDataTrans(s0, s, t);
    SameDataTrans(s0, t, u);
  }

  lemma PruneSkip(s0: State, s: State, n: Node, i: int)
    requires Ok(s, {}) && Pruning(s0, s, n, i) && Below(n, i) !in s.tabs && 0 <= i < WORDS
    ensures Pruning(s0, s, n, i + 1)
  {
    hide Ok;
    forall m | m in s.tabs ensures KidIndex(n, m) != i {
      UnderHasKid(s, Below(n, i), m);
      KidUnder(n, i, m);
    }
  }

  lemma NothingBelow(s0: State, s: State, n: Node)
    requires Ok(s, {}) && Pruning(s0, s, n, WORDS)
    ensures forall i :: Below(n, i) !in s.tabs
  {
    forall i ensures Below(n, i) !in s.tabs {
      assert KidIndex(n, Below(n, i)) == i;
    }
  }

  lemma PrunedAll(s0: State, s: State, n: Node)
    requires Ok(s0, {}) && Ok(s, {}) && n in s.tabs && Pruning(s0, s, n, WORDS)
    ensures Pruned(s0, Pushed(WithoutTable(s, n), s.tabs[n]), n)
  {
    var f := s.tabs[n];
    var u := Pushed(WithoutTable(s, n), f);
    HeldIsNoTable(s, {}, n);
    HeldInMemory(s);
    assert u.held == s.held;
    forall m ensures m in u.tabs <==> m in s0.tabs && !Under(n, m) {
      if m in s0.tabs {
        UnderHasKid(s0, n, m);
      }
    }
    forall m | m in u.tabs ensures TableWords(u, m) == TableWords(s0, m) {
      assert s.role[s.tabs[m]] == m && s.role[f] == n;
      assert TableWords(s, m) == TableWords(s0, m);
    }
    SameDataTrans(s0, s, u);
  }

  lemma EmptyHasNoLeaves(s: State, r: Frame)
    requires Ok(s, {}) && forall v :: Entry(s, r, v) == 0
    ensures NoLeaves(s, Top(r))
  {
    forall m, i | m in s.tabs && Depth(m) == 2 && Under(Top(r), m) && 0 <= i < WORDS
      ensures !Present(Word(s.mem, s.tabs[m], i))
    {
      var p := m.parent;
      assert Depth(p) == 1 && m == Below(p, m.index);
      assert p == Below(Top(r), p.index) by {
        assert Depth(p.parent) == 0 && Under(Top(r), p) && Under(Top(r), p.parent);
      }
      var v := (p.index * 512 + m.index) * 512 + i;
      assert Below(p, m.index) in s.tabs && Below(Top(r), p.index) in s.tabs;
      IndicesOf(p.index, m.index, i);
      assert LeafNode(r, v) == m;
      assert Entry(s, r, v) == 0;
    }
  }

  lemma IndicesOf(h: int, m: int, l: int)
    requires 0 <= h < WORDS && 0 <= m < WORDS && 0 <= l < WORDS
    ensures var v := (h * 512 + m) * 512 + l; Hi(v) == h && Mid(v) == m && Lo(v) == l
  {
  }

  lemma PrunedFacts(s0: State, s: State, t: State, r: Frame)
    requires Ok(s0, {}) && Ok(s, {}) && Ok(t, {Top(r)}) && Top(r) in s.tabs && Pruned(s, t, Top(r))
    requires SameData(s0, s) && s.held <= s0.held && s.tabs == s0.tabs
    ensures Ok(t, {}) && SameData(s0, t)
    ensures t.pool == s.pool && t.held == s.held
    ensures forall m :: m in t.tabs <==> m in s.tabs && !Under(Top(r), m)
    ensures forall q, v :: Entry(t, q, v) == if q == r then 0 else Entry(s, q, v)
  {
    SameDataTrans(s0, s, t);
    assert TreesOk(t, {});
    forall q, v ensures Entry(t, q, v) == if q == r then 0 else Entry(s, q, v) {
      PrunedEntry(s, t, r, q, v);
    }
  }

  lemma PrunedEntry(s: State, t: State, r: Frame, q: Frame, v: int)
    requires Ok(s, {}) && Ok(t, {Top(r)}) && Pruned(s, t, Top(r))
    ensures Entry(t, q, v) == if q == r then 0 else Entry(s, q, v)
  {
    hide Ok;
    var n := LeafNode(q, v);
    assert Under(Top(r), n) <==> q == r by {
      assert Under(Top(r), n.parent) <==> Under(Top(r), Top(q));
    }
    if n in t.tabs {
      assert TableWords(t, n) == TableWords(s, n);
      TableInMemory(s, {}, n);
      TableInMemory(t, {Top(r)}, n);
    }
  }

  /** The free list is the rest of the pool: no frame is lost, none is there twice. */
  lemma FreeIsTheRest(s: State, cut: set<Node>)
    requires Ok(s, cut)
    ensures forall f :: f in s.free <==> f in s.pool && f !in s.held && !exists n :: HasTable(s, n, f)
    ensures forall i, j :: 0 <= i < j < |s.free| ==> s.free[i] != s.free[j]
  {
    forall f ensures f in s.free <==> f in s.pool && f !in s.held && !exists n :: HasTable(s, n, f) {
      if f in s.role {
        assert HasTable(s, s.role[f], f);
      } else {
        forall n ensures !HasTable(s, n, f) {
          if n in s.tabs {
            assert s.tabs[n] in s.role;
          }
        }
      }
    }
  }

  /** A whole page between the two addresses. */
  predicate InRange(f: Frame, start: int, end: int) {
    PagesUp(start) * PGSIZE <= f && f + PGSIZE <= end && f % PGSIZE == 0
  }

  lemma RangeStart(start: int, end: int)
    ensures forall f :: InRange(f, start, end) ==> f >= PagesUp(start) * PGSIZE
  {
  }

  lemma SamePageStart(f: int, p: int)
    requires f % PGSIZE == 0 && p % PGSIZE == 0 && f < p + PGSIZE
    ensures f <= p
  {
  }

  lemma RangeNext(start: int, end: int, p: int)
    requires p % PGSIZE == 0 && PagesUp(start) * PGSIZE <= p && p + PGSIZE <= end
    ensures InRange(p, start, end) && (p + PGSIZE) % PGSIZE == 0
    ensures forall f :: InRange(f, start, end) ==> (f < p + PGSIZE <==> f < p || f == p)
  {
    forall f | InRange(f, start, end) && f < p + PGSIZE ensures f <= p {
      SamePageStart(f, p);
    }
  }

  lemma RangeEnd(start: int, end: int, p: int)
    requires p % PGSIZE == 0 && p + PGSIZE > end
    ensures forall f :: InRange(f, start, end) ==> f < p
  {
  }

  /** One machine: all of memory, and the free list's head. */
  class Machine {
    var mem: Memory
    var freelist: Frame
    ghost var pool: set<Frame>
    ghost var free: seq<Frame>
    ghost var tabs: map<Node, Frame>
    ghost var role: map<Frame, Node>
    ghost var held: set<Frame>

    ghost function S(): State
      reads this
    {
      State(pool, mem, freelist, free, tabs, role, held)
    }

    /** At boot no frame is free and there is no page table. */
    constructor (pool: set<Frame>, mem: Memory)
      requires forall f :: f in pool ==> IsFrame(f) && f in mem && |mem[f]| == WORDS
      ensures Ok(S(), {}) && S() == State(pool, mem, 0, [], map[], map[], pool)
    {
      this.pool, this.mem, freelist := pool, mem, 0;
      free, tabs, role, held := [], map[], map[], pool;
    }

    /** freerange, for kinit: every whole page between start and end goes to the list. */
    method Freerange(start: int, end: int)
      requires Ok(S(), {}) && 0 <= start
      requires forall f :: InRange(f, start, end) ==> f in held
      modifies this
      ensures Ok(S(), {}) && pool == old(pool) && tabs == old(tabs)
      ensures forall f :: f in free <==> f in old(free) || InRange(f, start, end)
      ensures forall f :: f in held <==> f in old(held) && !InRange(f, start, end)
    {
      hide Ok, InRange;
      var p := PagesUp(start) * PGSIZE;
      RangeStart(start, end);
      while p + PGSIZE <= end
        invariant PagesUp(start) * PGSIZE <= p && p % PGSIZE == 0
        invariant Ok(S(), {}) && pool == old(pool) && tabs == old(tabs)
        invariant forall f :: f in free <==> f in old(free) || (InRange(f, start, end) && f < p)
        invariant forall f :: f in held <==> f in old(held) && !(InRange(f, start, end) && f < p)
        decreases end - p
      {
        RangeNext(start, end, p);
        Kfree(p, {});
        p := p + PGSIZE;
      }
      RangeEnd(start, end, p);
    }

    /** kalloc: the head of the free list, or 0. */
    method Kalloc(ghost cut: set<Node>) returns (r: Frame)
      requires Ok(S(), cut)
      modifies this
      ensures r == 0 <==> old(free) == []
      ensures r == 0 ==> S() == old(S())
      ensures r != 0 ==> r == old(free)[0] && S() == Popped(old(S()), Page(JUNK_NEW))
      ensures r != 0 ==> IsFrame(r) && r !in old(held)
      ensures Ok(S(), cut)
    {
      r := freelist;
      if r != 0 {
        PoppedOk(S(), Page(JUNK_NEW), cut);
        freelist := mem[r][0];
        mem := mem[r := Page(JUNK_NEW)];
        free, held := free[1..], held + {r};
      } else {
        FreeHead(S(), cut);
      }
    }

    method Kfree(pa: Frame, ghost cut: set<Node>)
      requires Ok(S(), cut) && pa in held
      modifies this
      ensures S() == Pushed(old(S()), pa)
      ensures Ok(S(), cut)
    {
      PushedOk(S(), pa, cut);
      mem := mem[pa := Page(JUNK_FREE)];
      mem := mem[pa := mem[pa][0 := freelist]];
      freelist := pa;
      free, held := [pa] + free, held - {pa};
    }

    /** walk: the page and index of va's leaf entry, or page 0. */
    method Walk(pagetable: Frame, va: int, alloc: bool) returns (pt: Frame, i: int)
      requires Ok(S(), {}) && Top(pagetable) in tabs && 0 <= va < MAXVA
      modifies this
      ensures Ok(S(), {}) && Calm(old(S()), S()) && SameFlat(old(S()), S())
      ensures pt == 0 <==> LeafNode(pagetable, va / PGSIZE) !in tabs
      ensures pt != 0 ==> pt == tabs[LeafNode(pagetable, va / PGSIZE)] && i == Lo(va / PGSIZE)
      ensures pt == 0 && alloc ==> free == []
      ensures !alloc ==> S() == old(S())
      ensures |free| <= old(|free|) <= |free| + 2
    {
      hide Ok, Entry, Calm;
      PxIndices(va);
      ghost var v := va / PGSIZE;
      var level := 2;
      pt := pagetable;
      ghost var n := Top(pagetable);
      CalmRefl(S());
      TopIsRoot(S(), pagetable);
      while level > 0
        invariant 0 <= level <= 2
        invariant Ok(S(), {}) && Calm(old(S()), S()) && SameFlat(old(S()), S())
        invariant HasTable(S(), n, pt)
        invariant level == 2 ==> n == Top(pagetable)
        invariant level == 1 ==> n == Below(Top(pagetable), Hi(v))
        invariant level == 0 ==> n == LeafNode(pagetable, v)
        invariant !alloc ==> S() == old(S())
        invariant |free| <= old(|free|) <= |free| + (2 - level)
      {
        i := Px(level, va);
        LinkRead(S(), n, i);
        LeafNeedsUpper(S(), pagetable, v);
        var pte := mem[pt][i];
        if Present(pte) {
          pt := Pa(pte);
        } else {
          if !alloc {
            return 0, i;
          }
          if free != [] {
            NewTableOk(S(), n, i);
          }
          label before:
          var page := Kalloc({});
          if page == 0 {
            return 0, i;
          }
          mem := mem[page := Page(0)];
          mem := mem[pt := mem[pt][i := MakePte(page, 1)]];
          tabs, role, held := tabs[Below(n, i) := page], role[page := Below(n, i)], held - {page};
          assert S() == NewTable(old@before(S()), n, i);
          CalmTrans(old(S()), old@before(S()), S());
          pt := page;
        }
        n := Below(n, i);
        level := level - 1;
      }
      i := Px(0, va);
      TableInMemory(S(), {}, n);
    }

    /** mappages: the whole range, or (-1) a prefix of it when no page is left for a table. */
    method Mappages(pagetable: Frame, va: int, size: int, pa: int, perm: int) returns (r: int, ghost k: int)
      requires Ok(S(), {}) && Top(pagetable) in tabs
      requires va % PGSIZE == 0 && size % PGSIZE == 0 && size > 0 && 0 <= va && va + size <= MAXVA
      requires 0 <= perm < 1024
      requires Unmapped(S(), pagetable, va / PGSIZE, (va + size) / PGSIZE)
      modifies this
      ensures Ok(S(), {}) && Calm(old(S()), S())
      ensures MappedRange(old(S()), S(), pagetable, va / PGSIZE, k, pa, perm)
      ensures (r == 0 && k == size / PGSIZE) || (r == -1 && 0 <= k < size / PGSIZE && free == [])
      ensures |free| <= old(|free|) <= |free| + 2 * (size / PGSIZE)
    {
      hide Ok, Entry, Calm;
      var a, last, p := va, va + size - PGSIZE, pa;
      k := 0;
      CalmRefl(S());
      while true
        invariant Ok(S(), {}) && Calm(old(S()), S())
        invariant MappedRange(old(S()), S(), pagetable, va / PGSIZE, k, pa, perm)
        invariant 0 <= k < size / PGSIZE && a == va + k * PGSIZE && p == pa + k * PGSIZE
        invariant |free| <= old(|free|) <= |free| + 2 * k
        decreases size / PGSIZE - k
      {
        ghost var v := va / PGSIZE + k;
        assert a / PGSIZE == v;
        ghost var s := S();
        CalmTop(old(S()), s, pagetable);
        var pt, i := Walk(pagetable, a, true);
        CalmTrans(old(S()), s, S());
        if pt == 0 {
          return -1, k;
        }
        ghost var s1 := S();
        LeafRead(s1, pagetable, v);
        assert Entry(s1, pagetable, v) == 0;
        assert !Present(mem[pt][i]);
        LeafWritten(s1, {}, pagetable, v, MakePte(p, perm));
        LeafStoreCalm(s1, LeafNode(pagetable, v), i, MakePte(p, perm));
        mem := mem[pt := mem[pt][i := MakePte(p, perm)]];
        assert S() == WithEntry(s1, LeafNode(pagetable, v), i, MakePte(p, perm));
        CalmTrans(old(S()), s1, S());
        PageMapped(old(S()), s, S(), pagetable, va / PGSIZE, k, pa, perm);
        k := k + 1;
        if a == last {
          break;
        }
        a := a + PGSIZE;
        p := p + PGSIZE;
      }
      r := 0;
    }

    /** uvmunmap: the range and nothing else; each frame goes back once. */
    method Uvmunmap(pagetable: Frame, va: int, npages: int, doFree: bool)
      requires Ok(S(), {}) && Top(pagetable) in tabs
      requires va % PGSIZE == 0 && 0 <= npages && 0 <= va && va + npages * PGSIZE <= MAXVA
      requires Leaves(S(), pagetable, va / PGSIZE, va / PGSIZE + npages)
      requires doFree ==> Owned(S(), pagetable, va / PGSIZE, va / PGSIZE + npages)
      modifies this
      ensures Ok(S(), {})
      ensures Released(old(S()), S(), pagetable, va / PGSIZE, va / PGSIZE + npages, doFree)
    {
      hide Ok, Entry, SameData, Owned;
      ghost var lo := va / PGSIZE;
      ghost var s0 := S();
      var a := va;
      ghost var c := lo;
      ReleasedNone(s0, pagetable, lo, doFree);
      while a < va + npages * PGSIZE
        invariant lo <= c <= lo + npages && a == c * PGSIZE
        invariant Ok(S(), {}) && Released(s0, S(), pagetable, lo, c, doFree)
      {
        ghost var s := S();
        ghost var n := LeafNode(pagetable, c);
        assert IsLeaf(Entry(s0, pagetable, c)) && Entry(s, pagetable, c) == Entry(s0, pagetable, c);
        MappedHasTable(s, pagetable, c);
        var pt, i := Walk(pagetable, a, false);
        LeafRead(s, pagetable, c);
        var pte := mem[pt][i];
        assert pte == Entry(s, pagetable, c);
        if doFree {
          NextHeld(s0, s, pagetable, lo, c, lo + npages);
          PushedData(s, Pa(pte));
          Kfree(Pa(pte), {});
          PushedOk(s, Pa(pte), {});
        } else {
          assert SameData(s, s) by { HeldInMemory(s); ReleasedNone(s, pagetable, lo, false); }
        }
        ghost var s1 := S();
        LeafRead(s1, pagetable, c);
        LeafWritten(s1, {}, pagetable, c, 0);
        LeafStoreCalm(s1, n, i, 0);
        mem := mem[pt := mem[pt][i := 0]];
        assert S() == WithEntry(s1, n, i, 0);
        SameDataTrans(s, s1, S());
        ReleasedStep(s0, s, S(), pagetable, lo, c, doFree);
        c := c + 1;
        a := a + PGSIZE;
      }
    }

    method Uvmdealloc(pagetable: Frame, oldsz: int, newsz: int) returns (r: int)
      requires Ok(S(), {}) && Top(pagetable) in tabs && 0 <= newsz && 0 <= oldsz <= MAXVA
      requires Owned(S(), pagetable, PagesUp(newsz), PagesUp(oldsz))
      modifies this
      ensures Ok(S(), {})
      ensures r == if newsz >= oldsz then oldsz else newsz
      ensures Released(old(S()), S(), pagetable, PagesUp(newsz),
                       if newsz < oldsz then PagesUp(oldsz) else PagesUp(newsz), true)
    {
      hide Ok, Entry, Released, Owned;
      ReleasedNone(S(), pagetable, PagesUp(newsz), true);
      if newsz >= oldsz {
        return oldsz;
      }
      if PagesUp(newsz) * PGSIZE < PagesUp(oldsz) * PGSIZE {
        var npages := (PagesUp(oldsz) * PGSIZE - PagesUp(newsz) * PGSIZE) / PGSIZE;
        assert npages == PagesUp(oldsz) - PagesUp(newsz);
        assert PagesUp(newsz) * PGSIZE / PGSIZE == PagesUp(newsz);
        OwnedLeaves(S(), pagetable, PagesUp(newsz), PagesUp(oldsz));
        Uvmunmap(pagetable, PagesUp(newsz) * PGSIZE, npages, true);
      }
      r := newsz;
    }

    /** What uvmalloc and uvmcopy do for each page: a new frame, filled and mapped. */
    method AddPage(pagetable: Frame, a: int, words: seq<int>, perm: int) returns (ok: bool)
      requires Ok(S(), {}) && Top(pagetable) in tabs
      requires a % PGSIZE == 0 && 0 <= a && a + PGSIZE <= MAXVA && Entry(S(), pagetable, a / PGSIZE) == 0
      requires |words| == WORDS && 0 <= perm < 1024 && WithValidBit(perm) != 1
      modifies this
      ensures Ok(S(), {})
      ensures ok ==> old(free) != []
      ensures ok ==> PageAdded(old(S()), S(), pagetable, a / PGSIZE, old(free)[0], MakePte(old(free)[0], perm), words)
      ensures !ok ==> Calm(old(S()), S()) && SameFlat(old(S()), S())
      ensures old(|free|) <= (if ok then |free| else 0) + 3
    {
      hide Ok, Entry, Calm, SameFlat, PageAdded;
      ghost var s := S();
      ghost var c := a / PGSIZE;
      if s.free != [] { FilledOk(s, words); }
      CalmRefl(s);
      var page := Kalloc({});
      if page == 0 {
        SameFlatRefl(s);
        return false;
      }
      mem := mem[page := words];
      assert S() == Filled(s, words);
      FilledUnmapped(s, words, pagetable, c);
      var m, k := Mappages(pagetable, a, PGSIZE, page, perm);
      if m != 0 {
        GaveBack(s, S(), words, pagetable, c, perm, page);
        Kfree(page, {});
        return false;
      }
      FilledAndMapped(s, S(), words, pagetable, c, perm);
      ok := true;
    }

    /** uvmalloc: all the pages, zeroed and in frames of their own, or nothing. */
    method Uvmalloc(pagetable: Frame, oldsz: int, newsz: int, xperm: int) returns (r: int)
      requires Ok(S(), {}) && Top(pagetable) in tabs
      requires 0 <= oldsz && 0 <= newsz <= MAXVA && 0 <= xperm < 1024
      requires Unmapped(S(), pagetable, PagesUp(oldsz), PagesUp(newsz))
      modifies this
      ensures Ok(S(), {})
      ensures newsz < oldsz ==> r == oldsz && S() == old(S())
      ensures newsz >= oldsz ==> r == newsz || (r == 0 && old(|free|) <= 3 * (PagesUp(newsz) - PagesUp(oldsz)))
      ensures newsz >= oldsz && r == newsz ==>
        GrownTo(old(S()), S(), pagetable, PagesUp(oldsz), PagesUp(newsz))
      ensures newsz >= oldsz && r == newsz ==>
        forall u :: PagesUp(oldsz) <= u < PagesUp(newsz) ==>
          HasPage(S(), pagetable, u, WithValidBit(UserReadable(xperm)), Page(0))
      ensures newsz >= oldsz && r != newsz ==> Calm(old(S()), S()) && SameFlat(old(S()), S())
    {
      hide Ok, Entry, Calm, Owned, PagesOf, SameFlat, GrownTo, Released, PageAdded, HasPage;
      if newsz < oldsz {
        return oldsz;
      }
      ghost var s0 := S();
      ghost var lo, c := PagesUp(oldsz), PagesUp(oldsz);
      var a := PagesUp(oldsz) * PGSIZE;
      GrownNone(s0, pagetable, lo);
      while a < newsz
        invariant lo <= c <= PagesUp(newsz) && a == c * PGSIZE
        invariant Ok(S(), {}) && GrownTo(s0, S(), pagetable, lo, c)
        invariant forall u :: lo <= u < c ==>
          HasPage(S(), pagetable, u, WithValidBit(UserReadable(xperm)), Page(0))
        invariant |s0.free| <= |free| + 3 * (c - lo)
      {
        ghost var s := S();
        GrownFacts(s0, s, pagetable, lo, c);
        var ok := AddPage(pagetable, a, Page(0), UserReadable(xperm));
        if !ok {
          ghost var t := S();
          GrownCalm(s0, s, t, pagetable, lo, c);
          GrownFacts(s0, t, pagetable, lo, c);
          var _ := Uvmdealloc(pagetable, a, oldsz);
          Undone(s0, t, S(), pagetable, lo, c);
          return 0;
        }
        ghost var w := MakePte(s.free[0], UserReadable(xperm));
        GrownStep(s0, s, S(), pagetable, lo, c, s.free[0], w, Page(0));
        a := a + PGSIZE;
        c := c + 1;
      }
      r := newsz;
    }

    /** uvmcopy: every page copied into a frame of its own, or nothing. */
    method Uvmcopy(pold: Frame, pnew: Frame, sz: int) returns (r: int)
      requires Ok(S(), {}) && Top(pold) in tabs && Top(pnew) in tabs && pold != pnew && 0 <= sz <= MAXVA
      requires Owned(S(), pold, 0, PagesUp(sz)) && Unmapped(S(), pnew, 0, PagesUp(sz))
      modifies this
      ensures Ok(S(), {})
      ensures r == 0 || (r == -1 && old(|free|) <= 3 * PagesUp(sz))
      ensures r == 0 ==> GrownTo(old(S()), S(), pnew, 0, PagesUp(sz))
      ensures r == 0 ==> forall u :: 0 <= u < PagesUp(sz) ==> SameImage(old(S()), S(), pold, pnew, u)
      ensures r != 0 ==> Calm(old(S()), S()) && SameFlat(old(S()), S())
    {
      hide Ok, Entry, Calm, Owned, PagesOf, SameFlat, GrownTo, Released, PageAdded, SameImage;
      ghost var s0 := S();
      var i := 0;
      ghost var c := 0;
      GrownNone(s0, pnew, 0);
      while i < sz
        invariant 0 <= c <= PagesUp(sz) && i == c * PGSIZE
        invariant Ok(S(), {}) && GrownTo(s0, S(), pnew, 0, c)
        invariant forall u :: 0 <= u < c ==> SameImage(s0, S(), pold, pnew, u)
        invariant |s0.free| <= |free| + 3 * c
      {
        ghost var s := S();
        GrownFacts(s0, s, pnew, 0, c);
        Source(s0, s, pold, pnew, c, PagesUp(sz));
        MappedHasTable(s, pold, c);
        var pt, j := Walk(pold, i, false);
        LeafRead(s, pold, c);
        var pte := mem[pt][j];
        var pa, flags := Pa(pte), Flags(pte);
        var words := mem[pa];
        var ok := AddPage(pnew, i, words, flags);
        if !ok {
          ghost var t := S();
          GrownCalm(s0, s, t, pnew, 0, c);
          GrownFacts(s0, t, pnew, 0, c);
          OwnedLeaves(t, pnew, 0, c);
          Uvmunmap(pnew, 0, i / PGSIZE, true);
          Undone(s0, t, S(), pnew, 0, c);
          return -1;
        }
        GrownStep(s0, s, S(), pnew, 0, c, s.free[0], MakePte(s.free[0], flags), words);
        ImagesKept(s0, s, S(), pold, pnew, c);
        i := i + PGSIZE;
        c := c + 1;
      }
      r := 0;
    }

    /** uvmcreate: an empty tree. */
    method Uvmcreate() returns (r: Frame)
      requires Ok(S(), {})
      modifies this
      ensures Ok(S(), {})
      ensures r == 0 <==> old(free) == []
      ensures r == 0 ==> S() == old(S())
      ensures r != 0 ==>
                Top(r) !in old(tabs) && tabs == old(tabs)[Top(r) := r] && held == old(held) && pool == old(pool)
      ensures forall q, v :: Entry(S(), q, v) == Entry(old(S()), q, v)
      ensures r != 0 ==> forall v :: Entry(S(), r, v) == 0
    {
      hide Ok, Entry;
      ghost var s := S();
      if s.free != [] { FilledOk(s, Page(0)); }
      r := Kalloc({});
      if r == 0 {
        return;
      }
      mem := mem[r := Page(0)];
      assert S() == Filled(s, Page(0));
      RootAdded(S(), r);
      tabs, role, held := tabs[Top(r) := r], role[r := Top(r)], held - {r};
      assert S() == WithRoot(Filled(s, Page(0)), r);
      assert held == s.held;
    }

    /** freewalk: the page at n and all below it go back to the free list, once each. */
    method Freewalk(pagetable: Frame, ghost n: Node)
      requires Ok(S(), {}) && HasTable(S(), n, pagetable) && NoLeaves(S(), n)
      modifies this
      decreases 2 - Depth(n)
      ensures Ok(S(), {n}) && Pruned(old(S()), S(), n)
    {
      hide Ok, Entry, Pruning, Pruned, NoLeaves;
      ghost var s0 := S();
      TableInMemory(s0, {}, n);
      PruningNone(s0, n);
      for i := 0 to WORDS
        invariant Ok(S(), {}) && HasTable(S(), n, pagetable) && Pruning(s0, S(), n, i)
        invariant Depth(n) == 2 ==> S() == s0
      {
        ghost var s := S();
        TableInMemory(s, {}, n);
        var pte := mem[pagetable][i];
        if Depth(n) == 2 {
          NoLeafAt(s, n, i);
        } else {
          LinkRead(s, n, i);
        }
        if Present(pte) && Interior(pte) {
          var child := Pa(pte);
          ghost var c := Below(n, i);
          NoLeavesBelow(s0, s, n, i);
          Freewalk(child, c);
          ghost var t := S();
          PrunedParent(s, t, n, i);
          LinkCleared(t, n, i);
          mem := mem[pagetable := mem[pagetable][i := 0]];
          assert S() == WithEntry(t, n, i, 0);
          PruneStep(s0, s, t, n, i);
        } else {
          assert !Present(pte);
          PruneSkip(s0, s, n, i);
        }
      }
      ghost var s := S();
      NothingBelow(s0, s, n);
      TableRemoved(s, n);
      tabs, role, held := tabs - {n}, role - {pagetable}, held + {pagetable};
      assert S() == WithoutTable(s, n);
      PrunedAll(s0, s, n);
      Kfree(pagetable, {n});
    }

    /** uvmfree: the whole tree, its data frames and its page-table pages. */
    method Uvmfree(pagetable: Frame, sz: int)
      requires Ok(S(), {}) && Top(pagetable) in tabs && 0 <= sz <= MAXVA
      requires Owned(S(), pagetable, 0, PagesUp(sz))
      requires forall v :: !(0 <= v < PagesUp(sz)) ==> Entry(S(), pagetable, v) == 0
      modifies this
      ensures Ok(S(), {}) && pool == old(pool) && SameData(old(S()), S())
      ensures held == old(held) - PagesOf(old(S()), pagetable, 0, PagesUp(sz))
      ensures forall m :: m in tabs <==> m in old(tabs) && !Under(Top(pagetable), m)
      ensures forall q, v :: Entry(S(), q, v) == if q == pagetable then 0 else Entry(old(S()), q, v)
    {
      hide Ok, Entry, Owned, PagesOf, NoLeaves, Pruned, SameData;
      ghost var s0 := S();
      TopIsRoot(s0, pagetable);
      ReleasedNone(s0, pagetable, 0, true);
      if sz > 0 {
        OwnedLeaves(s0, pagetable, 0, PagesUp(sz));
        Uvmunmap(pagetable, 0, PagesUp(sz) * PGSIZE / PGSIZE, true);
      }
      ghost var s := S();
      assert Released(s0, s, pagetable, 0, PagesUp(sz), true);
      EmptyHasNoLeaves(s, pagetable);
      Freewalk(pagetable, Top(pagetable));
      PrunedFacts(s0, s, S(), pagetable);
    }
  }
}
