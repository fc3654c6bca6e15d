// The bin allocator of the Raspberry Pi kernel (kern/src/allocator/bin.rs) and the
// intrusive lists it is made of (kern/src/allocator/linked_list.rs).
//
// Memory is a map from address to the word stored there. A block of bin k has
// Size(k) = 8 * 2^k bytes.

module BinAllocator {
  const BINS := 30
  const BIN_SIZE := 8
  const LIMIT := 0x2_0000_0000

  type Memory = map<int, int>

  // ----------------------------------------------------------- powers of two

  function Pow2(k: nat): (p: int)
    ensures p >= 1
  {
    if k == 0 then 1 else 2 * Pow2(k - 1)
  }

  /** BIN_SIZE << k */
  function Size(k: nat): (n: int)
    ensures n >= BIN_SIZE
  {
    BIN_SIZE * Pow2(k)
  }

  /** trailing_zeros */
  function TrailingZeros(n: int): nat
    requires n > 0
  {
    if n % 2 == 1 then 0 else 1 + TrailingZeros(n / 2)
  }

  /** n & (!n + 1): the lowest bit that is set. */
  function LowBit(n: int): int
    requires n > 0
  {
    Pow2(TrailingZeros(n))
  }

  function FloorLog(n: int): nat
    requires n > 0
  {
    if n == 1 then 0 else 1 + FloorLog(n / 2)
  }

  /** prev_power_of_2 */
  function PrevPow2(n: int): int
    requires n > 0
  {
    Pow2(FloorLog(n))
  }

  function CeilLog(n: int): nat {
    if n <= 1 then 0 else 1 + CeilLog((n + 1) / 2)
  }

  /** next_power_of_two */
  function NextPow2(n: int): int {
    Pow2(CeilLog(n))
  }

  function Max(a: int, b: int): int {
    if a > b then a else b
  }

  function Min(a: int, b: int): int {
    if a < b then a else b
  }

  /** a is a multiple of 2^n. */
  predicate Aligned(a: int, n: nat)
    decreases n
  {
    n == 0 || (a % 2 == 0 && Aligned(a / 2, n - 1))
  }

  /** a ^ (1 << n) */
  function FlipBit(a: int, n: nat): int
    decreases n
  {
    if n == 0 then (if a % 2 == 0 then a + 1 else a - 1) else 2 * FlipBit(a / 2, n - 1) + a % 2
  }

  lemma {:induction false} AlignedPlus(a: int, n: nat, m: nat)
    requires m <= n && Aligned(a, m)
    ensures Aligned(a + Pow2(n), m) && Aligned(a, m)
    decreases n
  {
    if m > 0 {
      AlignedPlus(a / 2, n - 1, m - 1);
      assert (a + Pow2(n)) / 2 == a / 2 + Pow2(n - 1);
    }
  }

  lemma {:induction false} AlignedLess(a: int, n: nat, m: nat)
    requires m <= n && Aligned(a, n)
    ensures Aligned(a, m)
    decreases n
  {
    if m > 0 {
      AlignedLess(a / 2, n - 1, m - 1);
    }
  }

  lemma {:induction false} LowBitAligned(n: int)
    requires n > 0
    ensures Aligned(n, TrailingZeros(n)) && LowBit(n) <= n
  {
    if n % 2 == 0 {
      LowBitAligned(n / 2);
    }
  }

  lemma {:induction false} ZerosAtLeast(n: int, m: nat)
    requires n > 0 && Aligned(n, m)
    ensures TrailingZeros(n) >= m
  {
    if m > 0 {
      ZerosAtLeast(n / 2, m - 1);
    }
  }

  /** Flipping a bit below the alignment adds it, and the sum is not so aligned. */
  lemma {:induction false} FlipAdds(a: int, n: nat)
    requires Aligned(a, n + 1)
    ensures FlipBit(a, n) == a + Pow2(n) && !Aligned(FlipBit(a, n), n + 1)
    decreases n
  {
    if n > 0 {
      FlipAdds(a / 2, n - 1);
    }
  }

  lemma MulMod(q: int, p: int)
    requires p > 0
    ensures q * p % p == 0
  {
    var d, r := q * p / p, q * p % p;
    assert q * p == p * d + r;
    assert p * (q - d) == r;
    MulOrder(p, q - d);
  }

  lemma MulOrder(p: int, k: int)
    requires p > 0
    ensures k >= 1 ==> p * k >= p
    ensures k <= -1 ==> p * k <= -p
  {
  }

  lemma {:induction false} AlignedMod(a: int, n: nat)
    requires Aligned(a, n)
    ensures a % Pow2(n) == 0
    decreases n
  {
    if n > 0 {
      AlignedMod(a / 2, n - 1);
      var p := Pow2(n - 1);
      var q := a / 2 / p;
      assert a / 2 == q * p;
      assert a == q * (2 * p);
      MulMod(q, 2 * p);
    }
  }

  lemma {:induction false} PrevPow2Fits(n: int)
    requires n > 0
    ensures PrevPow2(n) <= n < 2 * PrevPow2(n)
  {
    if n > 1 {
      PrevPow2Fits(n / 2);
    }
  }

  lemma {:induction false} NextPow2Fits(n: int)
    ensures n <= NextPow2(n)
  {
    if n > 1 {
      NextPow2Fits((n + 1) / 2);
    }
  }

  lemma {:induction false} PowMonotone(i: nat, j: nat)
    requires i <= j
    ensures Pow2(i) <= Pow2(j)
    decreases j - i
  {
    if i < j {
      PowMonotone(i, j - 1);
    }
  }

  /** A power of two from 8 on is the size of a bin, and of one only. */
  lemma {:induction false} BinOfPow(k: nat)
    requires k >= 3
    ensures Pow2(k) == Size(k - 3)
  {
    if k == 3 {
      assert Pow2(0) == 1 && Pow2(1) == 2 && Pow2(2) == 4;
    } else {
      BinOfPow(k - 1);
    }
  }

  lemma {:induction false} ZerosOfPow(k: nat)
    ensures TrailingZeros(Pow2(k)) == k
  {
    if k > 0 {
      ZerosOfPow(k - 1);
    }
  }

  // ------------------------------------------------------------ intrusive lists

  function First(s: seq<int>): int {
    if s == [] then 0 else s[0]
  }

  /** The list at head is s: each word holds the next address, 0 at the end. */
  ghost predicate Listed(mem: Memory, head: int, s: seq<int>) {
    && head == First(s)
    && (forall i :: 0 <= i < |s| ==> s[i] > 0 && s[i] in mem && mem[s[i]] == First(s[i + 1..]))
    && (forall i, j :: 0 <= i < j < |s| ==> s[i] != s[j])
  }

  lemma Pushed(mem: Memory, head: int, s: seq<int>, a: int)
    requires Listed(mem, head, s) && a > 0 && a !in s
    ensures Listed(mem[a := head], a, [a] + s)
  {
    var t := [a] + s;
    forall i | 0 <= i < |t| ensures t[i] > 0 && t[i] in mem[a := head] && mem[a := head][t[i]] == First(t[i + 1..]) {
      if i == 0 {
        assert t[1..] == s;
      } else {
        assert t[i] == s[i - 1] && t[i + 1..] == s[i..];
      }
    }
  }

  lemma PushedElsewhere(mem: Memory, head: int, s: seq<int>, a: int, w: int)
    requires Listed(mem, head, s) && a !in s
    ensures Listed(mem[a := w], head, s)
  {
  }

  lemma Popped(mem: Memory, head: int, s: seq<int>)
    requires Listed(mem, head, s) && s != []
    ensures head == s[0] && head in mem && Listed(mem, mem[head], s[1..]) && s[0] !in s[1..]
  {
    forall i | 0 <= i < |s| - 1 ensures s[1..][i] == s[i + 1] && s[1..][i + 1..] == s[i + 2..] {
    }
  }

  /** s without its element at position i. */
  function Without(s: seq<int>, i: nat): seq<int>
    requires i < |s|
  {
    s[..i] + s[i + 1..]
  }

  lemma Unlinked(mem: Memory, head: int, s: seq<int>, i: nat)
    requires Listed(mem, head, s) && i < |s|
    ensures s[i] in mem
    ensures i == 0 ==> Listed(mem, mem[s[0]], Without(s, 0))
    ensures i > 0 ==> s[i - 1] in mem && Listed(mem[s[i - 1] := mem[s[i]]], head, Without(s, i))
  {
    var t := Without(s, i);
    var mem' := if i == 0 then mem else mem[s[i - 1] := mem[s[i]]];
    forall k | 0 <= k < |t|
      ensures t[k] > 0 && t[k] in mem' && mem'[t[k]] == First(t[k + 1..])
    {
      var j := if k < i then k else k + 1;
      assert t[k] == s[j];
      if k + 1 < |t| {
        assert t[k + 1..][0] == t[k + 1] && t[k + 1] == s[if k + 1 < i then k + 1 else k + 2];
        if j + 1 < |s| { assert s[j + 1..][0] == s[j + 1]; }
      }
    }
  }

  // -------------------------------------------- several removals in one walk

  /** What a walk of iter_mut that pops every node pick chooses leaves. Node::pop stores
      through the node before it, which does nothing if that node is itself out of the
      list (linked is false). */
  function Kept(s: seq<int>, pick: int -> bool, linked: bool): seq<int> {
    if s == [] then []
    else if pick(s[0]) && linked then Kept(s[1..], pick, false)
    else [s[0]] + Kept(s[1..], pick, true)
  }

  /** What it should leave. */
  function Unpicked(s: seq<int>, pick: int -> bool): seq<int> {
    if s == [] then [] else (if pick(s[0]) then [] else [s[0]]) + Unpicked(s[1..], pick)
  }

  predicate NoNeighbours(s: seq<int>, pick: int -> bool) {
    forall i :: 0 <= i < |s| - 1 ==> !(pick(s[i]) && pick(s[i + 1]))
  }

  lemma {:induction false} KeptIsMore(s: seq<int>, pick: int -> bool, linked: bool)
    ensures |Kept(s, pick, linked)| >= |Unpicked(s, pick)|
  {
    if s != [] {
      KeptIsMore(s[1..], pick, false);
      KeptIsMore(s[1..], pick, true);
    }
  }

  lemma {:induction false} KeptRight(s: seq<int>, pick: int -> bool, linked: bool)
    ensures Kept(s, pick, linked) == Unpicked(s, pick) <==>
      NoNeighbours(s, pick) && (linked || s == [] || !pick(s[0]))
  {
    if s == [] {
      return;
    }
    var r := s[1..];
    KeptRight(r, pick, false);
    KeptRight(r, pick, true);
    KeptIsMore(r, pick, true);
    assert NoNeighbours(s, pick) <==> NoNeighbours(r, pick) && (r == [] || !(pick(s[0]) && pick(r[0]))) by {
      if NoNeighbours(r, pick) && (r == [] || !(pick(s[0]) && pick(r[0]))) {
        forall i | 0 <= i < |s| - 1 ensures !(pick(s[i]) && pick(s[i + 1])) {
          if i > 0 {
            assert s[i] == r[i - 1] && s[i + 1] == r[i];
          } else {
            assert s[1] == r[0];
          }
        }
      }
      if NoNeighbours(s, pick) {
        forall i | 0 <= i < |r| - 1 ensures !(pick(r[i]) && pick(r[i + 1])) {
          assert r[i] == s[i + 1] && r[i + 1] == s[i + 2];
        }
        if r != [] {
          assert r[0] == s[1];
        }
      }
    }
    if !(pick(s[0]) && linked) {
      assert Kept(s, pick, linked)[1..] == Kept(r, pick, true);
      if !pick(s[0]) {
        assert Unpicked(s, pick)[1..] == Unpicked(r, pick);
      }
    }
  }

  /** One walk that pops several nodes leaves what it should if and only if no two of
      them are neighbours. */
  lemma WalkRightIff(s: seq<int>, pick: int -> bool)
    ensures Kept(s, pick, true) == Unpicked(s, pick) <==> NoNeighbours(s, pick)
  {
    KeptRight(s, pick, true);
  }

  /** The walk itself: iter_mut, with pop on the nodes that pick chooses. prev == 0
      stands for the head field. */
  method PopPicked(mem0: Memory, head0: int, ghost s: seq<int>, pick: int -> bool) returns (mem: Memory, head: int)
    requires Listed(mem0, head0, s)
    ensures Listed(mem, head, Kept(s, pick, true))
  {
    hide Walked, Listed, Kept;
    mem, head := mem0, head0;
    var prev, current := 0, head0;
    ghost var i, kept, linked := 0, [], true;
    WalkStart(mem, head, s, pick);
    while current != 0
      invariant 0 <= i <= |s| && current == First(s[i..]) && prev == (if i == 0 then 0 else s[i - 1])
      invariant Kept(s, pick, true) == kept + Kept(s[i..], pick, linked)
      invariant Walked(mem, head, s, i, kept, linked)
      decreases |s| - i
    {
      WalkNext(mem, head, s, i, kept, linked, pick);
      var value := current;
      var next := mem[value];
      if pick(value) {
        ghost var was, head1 := mem, head;
        if prev == 0 {
          head := mem[value];
        } else {
          mem := mem[prev := mem[value]];
        }
        PoppedNode(was, mem, head1, head, s, i, kept, linked);
        if linked {
          linked := false;
        } else {
          kept, linked := kept + [s[i]], true;
        }
      } else {
        WalkedPast(mem, head, s, i, kept, linked);
        kept, linked := kept + [s[i]], true;
      }
      prev, current := value, next;
      i := i + 1;
    }
    WalkEnd(mem, head, s, i, kept, linked, pick);
  }

  lemma WalkStart(mem: Memory, head: int, s: seq<int>, pick: int -> bool)
    requires Listed(mem, head, s)
    ensures Walked(mem, head, s, 0, [], true) && head == First(s[0..])
    ensures Kept(s, pick, true) == [] + Kept(s[0..], pick, true)
  {
    assert s[0..] == s && [] + s[0..] == s;
  }

  lemma WalkNext(mem: Memory, head: int, s: seq<int>, i: nat, kept: seq<int>, linked: bool, pick: int -> bool)
    requires Walked(mem, head, s, i, kept, linked) && First(s[i..]) != 0
    ensures i < |s| && First(s[i..]) == s[i] && s[i] in mem && mem[s[i]] == First(s[i + 1..])
    ensures forall k :: 0 <= k < |s| ==> s[k] > 0 && s[k] in mem
    ensures kept + Kept(s[i..], pick, linked) ==
      if pick(s[i]) && linked then kept + Kept(s[i + 1..], pick, false)
      else kept + [s[i]] + Kept(s[i + 1..], pick, true)
  {
    assert s[i..][0] == s[i] && s[i..][1..] == s[i + 1..];
    var list := kept + s[i..];
    assert list[|kept|] == s[i] && list[|kept| + 1..] == s[i + 1..];
  }

  lemma WalkEnd(mem: Memory, head: int, s: seq<int>, i: nat, kept: seq<int>, linked: bool, pick: int -> bool)
    requires Walked(mem, head, s, i, kept, linked) && First(s[i..]) == 0
    ensures Listed(mem, head, kept + Kept(s[i..], pick, linked))
  {
    assert s[i..] == [];
    assert kept + s[i..] == kept && kept + Kept([], pick, linked) == kept;
  }

  /** Up to position i the list holds kept, and goes on with the nodes from i on, whose
      words are as they were. linked says that the node before i is the last of kept. */
  ghost predicate Walked(mem: Memory, head: int, s: seq<int>, i: nat, kept: seq<int>, linked: bool) {
    && i <= |s| && Listed(mem, head, kept + s[i..])
    && (forall k, j :: 0 <= k < j < |s| ==> s[k] != s[j])
    && (forall k :: 0 <= k < |s| ==> s[k] > 0 && s[k] in mem)
    && (forall x :: x in kept ==> x in s[..i])
    && (linked ==> if i == 0 then kept == [] else kept != [] && kept[|kept| - 1] == s[i - 1])
    && (!linked ==> i > 0 && s[i - 1] !in kept)
  }

  lemma WalkedPast(mem: Memory, head: int, s: seq<int>, i: nat, kept: seq<int>, linked: bool)
    requires Walked(mem, head, s, i, kept, linked) && i < |s|
    ensures Walked(mem, head, s, i + 1, kept + [s[i]], true)
  {
    assert kept + s[i..] == kept + [s[i]] + s[i + 1..];
    assert s[..i + 1] == s[..i] + [s[i]];
  }

  lemma PoppedNode(was: Memory, mem: Memory, head0: int, head: int, s: seq<int>, i: nat, kept: seq<int>, linked: bool)
    requires Walked(was, head0, s, i, kept, linked) && i < |s| && s[i] in was
    requires if i == 0 then mem == was && head == was[s[0]] else mem == was[s[i - 1] := was[s[i]]] && head == head0
    ensures if linked then Walked(mem, head, s, i + 1, kept, false)
            else Walked(mem, head, s, i + 1, kept + [s[i]], true)
  {
    var list := kept + s[i..];
    assert s[..i + 1] == s[..i] + [s[i]];
    if linked {
      Unlinked(was, head0, list, |kept|);
      assert list[|kept|] == s[i];
      assert Without(list, |kept|) == kept + s[i + 1..];
      assert i > 0 ==> list[|kept| - 1] == s[i - 1];
      assert s[i] !in s[..i];
    } else {
      assert s[i - 1] !in list by {
        assert forall k :: 0 <= k < |s[i..]| ==> s[i..][k] == s[i + k];
      }
      PushedElsewhere(was, head0, list, s[i - 1], was[s[i]]);
      WalkedPast(mem, head, s, i, kept, linked);
    }
  }

  // ------------------------------------------------------------------- blocks

  /** heads are the lists' heads. Proof state: bins are the lists, blocks gives each
      block's bin, live are the blocks handed out, and start is where memory begins. */
  datatype Heap = Heap(heads: seq<int>, mem: Memory, inUse: int, length: int, total: int,
                       ghost start: int, ghost bins: seq<seq<int>>, ghost blocks: map<int, int>, ghost live: set<int>)

  function SizeAt(blocks: map<int, int>, a: int): int {
    if a in blocks && blocks[a] >= 0 then Size(blocks[a]) else 0
  }

  ghost predicate Apart(blocks: map<int, int>, a: int, b: int) {
    a < b ==> a + SizeAt(blocks, a) <= b
  }

  /** The blocks lie side by side from start to end. */
  ghost predicate Tiled(blocks: map<int, int>, start: int, end: int) {
    && (start == end || start in blocks)
    && (forall a {:trigger SizeAt(blocks, a)} :: a in blocks ==>
          start <= a < a + SizeAt(blocks, a) <= end &&
          (a + SizeAt(blocks, a) == end || a + SizeAt(blocks, a) in blocks))
    && (forall a, b {:trigger Apart(blocks, a, b)} :: a in blocks && b in blocks ==> Apart(blocks, a, b))
  }

  ghost predicate BlockOk(blocks: map<int, int>, a: int) {
    a in blocks && a > 0 && 0 <= blocks[a] < BINS && Aligned(a, blocks[a] + 3)
  }

  /** Every block is in the list of its bin, or live, or (loose) on its way. */
  ghost predicate Placed(h: Heap, loose: set<int>)
    requires |h.bins| == BINS
  {
    && (forall k, a {:trigger a in h.bins[k]} :: 0 <= k < BINS && a in h.bins[k] ==>
          a in h.blocks && h.blocks[a] == k && a !in h.live && a !in loose)
    && (forall a {:trigger a in h.live} :: a in h.live ==> a in h.blocks && a !in loose)
    && (forall a {:trigger a in loose} :: a in loose ==> a in h.blocks)
    && (forall a {:trigger a in h.blocks} :: a in h.blocks ==>
          BlockOk(h.blocks, a) && (a in h.live || a in loose || a in h.bins[h.blocks[a]]))
  }

  ghost predicate Lists(h: Heap) {
    && |h.heads| == |h.bins| == BINS
    && (forall k :: 0 <= k < BINS ==> Listed(h.mem, h.heads[k], h.bins[k]))
  }

  ghost predicate Ok(h: Heap, loose: set<int>) {
    Lists(h) && Placed(h, loose) && Tiled(h.blocks, h.start, h.start + h.total)
  }

  function FreeBytes(bins: seq<seq<int>>, n: nat): int
    requires n <= |bins|
  {
    if n == 0 then 0 else FreeBytes(bins, n - 1) + |bins[n - 1]| * Size(n - 1)
  }

  /** inUse (the source's allocated) plus the free blocks' sizes (and x for loose ones) is total. */
  ghost predicate Balanced(h: Heap, x: int) {
    |h.bins| == BINS && h.inUse + FreeBytes(h.bins, BINS) + x == h.total
  }

  lemma {:induction false} FreeBytesChanged(bins: seq<seq<int>>, k: nat, s: seq<int>, n: nat)
    requires k < |bins| && n <= |bins|
    ensures FreeBytes(bins[k := s], n) == FreeBytes(bins, n) + if k < n then (|s| - |bins[k]|) * Size(k) else 0
  {
    if n > 0 {
      FreeBytesChanged(bins, k, s, n - 1);
      if k == n - 1 {
        assert (|s| - |bins[k]|) * Size(k) == |s| * Size(k) - |bins[k]| * Size(k);
      }
    }
  }

  ghost function PushedAt(h: Heap, k: nat, a: int): Heap
    requires k < |h.heads| && k < |h.bins|
  {
    h.(mem := h.mem[a := h.heads[k]], heads := h.heads[k := a], bins := h.bins[k := [a] + h.bins[k]])
  }

  lemma PushedOk(h: Heap, loose: set<int>, k: nat, a: int, x: int)
    requires Ok(h, loose) && a in loose && k < BINS && h.blocks[a] == k && Balanced(h, x)
    ensures Ok(PushedAt(h, k, a), loose - {a}) && Balanced(PushedAt(h, k, a), x - Size(k))
  {
    hide Aligned, Tiled, Size;
    var t := PushedAt(h, k, a);
    assert BlockOk(h.blocks, a);
    forall j | 0 <= j < BINS ensures Listed(t.mem, t.heads[j], t.bins[j]) {
      assert a !in h.bins[j];
      if j == k {
        Pushed(h.mem, h.heads[k], h.bins[k], a);
      } else {
        PushedElsewhere(h.mem, h.heads[j], h.bins[j], a, h.heads[k]);
      }
    }
    FreeBytesChanged(h.bins, k, [a] + h.bins[k], BINS);
    PlacedPushed(h, loose, k, a);
  }

  lemma PlacedPushed(h: Heap, loose: set<int>, k: nat, a: int)
    requires |h.bins| == |h.heads| == BINS && Placed(h, loose) && a in loose && k < BINS && h.blocks[a] == k
    ensures Placed(PushedAt(h, k, a), loose - {a})
  {
    var t := PushedAt(h, k, a);
    forall j, b | 0 <= j < BINS ensures b in t.bins[j] <==> b in h.bins[j] || (j == k && b == a) {
      if j == k {
        assert t.bins[k] == [a] + h.bins[k];
      }
    }
  }

  ghost function PoppedAt(h: Heap, k: nat): Heap
    requires k < |h.heads| && k < |h.bins| && h.bins[k] != [] && h.heads[k] in h.mem
  {
    h.(heads := h.heads[k := h.mem[h.heads[k]]], bins := h.bins[k := h.bins[k][1..]])
  }

  lemma PoppedOk(h: Heap, loose: set<int>, k: nat, x: int)
    requires Ok(h, loose) && k < BINS && h.bins[k] != [] && Balanced(h, x)
    ensures h.heads[k] == h.bins[k][0] && h.heads[k] in h.mem
    ensures var a := h.heads[k];
            a !in loose && a !in h.live && BlockOk(h.blocks, a) && h.blocks[a] == k &&
            Ok(PoppedAt(h, k), loose + {a}) && Balanced(PoppedAt(h, k), x + Size(k))
  {
    Popped(h.mem, h.heads[k], h.bins[k]);
    var t := PoppedAt(h, k);
    var a := h.heads[k];
    assert a in h.bins[k];
    FreeBytesChanged(h.bins, k, h.bins[k][1..], BINS);
    assert (-1) * Size(k) == -Size(k);
    PlacedPopped(h, loose, k);
  }

  lemma PlacedPopped(h: Heap, loose: set<int>, k: nat)
    requires |h.bins| == |h.heads| == BINS && Placed(h, loose) && k < BINS && h.bins[k] != [] && h.heads[k] in h.mem
    requires h.heads[k] == h.bins[k][0] && h.bins[k][0] !in h.bins[k][1..]
    ensures Placed(PoppedAt(h, k), loose + {h.heads[k]})
  {
    var t := PoppedAt(h, k);
    var a := h.heads[k];
    assert a in h.bins[k];
    forall j, b | 0 <= j < BINS ensures b in h.bins[j] <==> b in t.bins[j] || (j == k && b == a) {
      if j == k {
        assert h.bins[k] == [a] + h.bins[k][1..];
      }
    }
  }

  /** A loose block of bin k + 1 becomes two of bin k. */
  ghost function Halved(h: Heap, a: int, k: nat): Heap {
    h.(blocks := h.blocks[a := k][a + Size(k) := k])
  }

  lemma HalvedTiled(blocks: map<int, int>, start: int, end: int, a: int, k: nat)
    requires Tiled(blocks, start, end) && a in blocks && blocks[a] == k + 1
    ensures a + Size(k) !in blocks && Tiled(blocks[a := k][a + Size(k) := k], start, end)
  {
    var m := a + Size(k);
    var t := blocks[a := k][m := k];
    assert SizeAt(blocks, a) == 2 * Size(k);
    assert !Apart(blocks, a, m);
    forall b | b in t
      ensures start <= b < b + SizeAt(t, b) <= end && (b + SizeAt(t, b) == end || b + SizeAt(t, b) in t)
    {
      if b != a && b != m {
        assert SizeAt(t, b) == SizeAt(blocks, b);
      }
    }
    forall b, c | b in t && c in t ensures Apart(t, b, c) {
      if b != m && c != m {
        assert Apart(blocks, b, c);
      } else if b == m && c != m {
        assert Apart(blocks, a, c);
      } else if b != m {
        assert Apart(blocks, b, a) && Apart(blocks, a, b);
      }
    }
  }

  lemma HalvedOk(h: Heap, loose: set<int>, a: int, k: nat)
    requires Ok(h, loose) && a in loose && h.blocks[a] == k + 1
    ensures a + Size(k) !in h.blocks
    ensures Ok(Halved(h, a, k), loose + {a + Size(k)})
  {
    HalvedTiled(h.blocks, h.start, h.start + h.total, a, k);
    assert BlockOk(h.blocks, a);
    var t := Halved(h, a, k);
    AlignedLess(a, k + 4, k + 3);
    BinOfPow(k + 3);
    AlignedPlus(a, k + 3, k + 3);
    forall b | b in t.blocks
      ensures BlockOk(t.blocks, b) && (b in t.live || b in loose + {a + Size(k)} || b in t.bins[t.blocks[b]])
    {
      if b != a && b != a + Size(k) {
        assert b in h.blocks;
      }
    }
  }

  lemma HandedOut(h: Heap, loose: set<int>, a: int)
    requires Ok(h, loose) && a in loose
    ensures Ok(h.(live := h.live + {a}), loose - {a})
  {
  }

  lemma GivenBack(h: Heap, a: int)
    requires Ok(h, {}) && a in h.live
    ensures Ok(h.(live := h.live - {a}), {a}) && BlockOk(h.blocks, a)
  {
  }

  // ---------------------------------------------------------------- layouts

  function SizeOf(size: int, align: int): int {
    Max(NextPow2(size), Max(align, BIN_SIZE))
  }

  function BinOf(size: int, align: int): nat
    requires SizeOf(size, align) >= BIN_SIZE
  {
    TrailingZeros(SizeOf(size, align) / BIN_SIZE)
  }

  lemma MaxPow(i: nat, j: nat)
    ensures Max(Pow2(i), Pow2(j)) == Pow2(if i > j then i else j)
  {
    if i > j {
      PowMonotone(j, i);
    } else {
      PowMonotone(i, j);
    }
  }

  /** A layout's bin has blocks of exactly the rounded size, and aligned enough. */
  lemma BinFits(size: int, n: nat)
    ensures SizeOf(size, Pow2(n)) >= BIN_SIZE
    ensures var k := BinOf(size, Pow2(n)); Size(k) == SizeOf(size, Pow2(n)) && Size(k) >= size && k + 3 >= n
  {
    assert Pow2(0) == 1 && Pow2(1) == 2 && Pow2(2) == 4 && Pow2(3) == 8;
    var c := CeilLog(size);
    MaxPow(n, 3);
    var e := if n > 3 then n else 3;
    MaxPow(c, e);
    var f := if c > e then c else e;
    assert SizeOf(size, Pow2(n)) == Pow2(f);
    BinOfPow(f);
    ZerosOfPow(f - 3);
    NextPow2Fits(size);
  }

  function MinNat(a: nat, b: nat): nat {
    if a < b then a else b
  }

  lemma MinPow(i: nat, j: nat)
    ensures Min(Pow2(i), Pow2(j)) == Pow2(MinNat(i, j))
  {
    if i > j {
      PowMonotone(j, i);
    } else {
      PowMonotone(i, j);
    }
  }

  lemma LogRange(n: int)
    requires BIN_SIZE <= n < LIMIT
    ensures 3 <= FloorLog(n) < 33 && Pow2(FloorLog(n)) <= n
  {
    PrevPow2Fits(n);
    var l := FloorLog(n);
    if l >= 33 {
      PowMonotone(33, l);
      Pow33();
    }
  }

  /** The next block of a region: as large as its address and the rest allow. */
  lemma NextBlock(cur: int, end: int)
    requires 0 < cur && cur + BIN_SIZE <= end && end - cur < LIMIT && Aligned(cur, 3)
    ensures var size := Min(LowBit(cur), PrevPow2(end - cur));
            size >= BIN_SIZE && cur + size <= end &&
            var k := TrailingZeros(size / BIN_SIZE);
            k < BINS && Size(k) == size && Aligned(cur, k + 3) && Aligned(cur + size, 3)
  {
    hide Pow2, Aligned, TrailingZeros, FloorLog;
    var z, l := TrailingZeros(cur), FloorLog(end - cur);
    ZerosAtLeast(cur, 3);
    LowBitAligned(cur);
    LogRange(end - cur);
    MinPow(z, l);
    var e := MinNat(z, l);
    PowMonotone(e, l);
    BinOfPow(e);
    ZerosOfPow(e - 3);
    AlignedLess(cur, z, e);
    AlignedLess(cur, z, 3);
    AlignedPlus(cur, e, 3);
  }

  lemma Pow33()
    ensures Pow2(33) == LIMIT
  {
    assert Pow2(3) == 8;
    assert Pow2(6) == 64;
    assert Pow2(9) == 512;
    assert Pow2(12) == 4096;
    assert Pow2(15) == 32768;
    assert Pow2(18) == 262144;
    assert Pow2(21) == 2097152;
    assert Pow2(24) == 16777216;
    assert Pow2(27) == 134217728;
    assert Pow2(30) == 1073741824;
  }

  lemma TiledPlus(blocks: map<int, int>, start: int, end: int, k: nat)
    requires Tiled(blocks, start, end) && start <= end
    ensures end !in blocks && Tiled(blocks[end := k], start, end + Size(k))
  {
    var t := blocks[end := k];
    assert end in blocks ==> end + SizeAt(blocks, end) <= end;
    forall b | b in t
      ensures start <= b < b + SizeAt(t, b) <= end + Size(k) &&
              (b + SizeAt(t, b) == end + Size(k) || b + SizeAt(t, b) in t)
    {
      if b != end {
        assert SizeAt(t, b) == SizeAt(blocks, b);
      }
    }
    forall b, c | b in t && c in t ensures Apart(t, b, c) {
      if b != end && c != end {
        assert Apart(blocks, b, c);
      } else if b != end {
        assert b + SizeAt(blocks, b) <= end;
      } else if c != end {
        assert c + SizeAt(blocks, c) <= end;
      }
    }
  }

  ghost function Grown(h: Heap, cur: int, k: nat): Heap {
    h.(blocks := h.blocks[cur := k], total := h.total + Size(k))
  }

  lemma GrownOk(h: Heap, cur: int, k: nat)
    requires Ok(h, {}) && cur == h.start + h.total && h.total >= 0 && cur > 0 && k < BINS && Aligned(cur, k + 3)
    ensures cur !in h.blocks && Ok(Grown(h, cur, k), {cur})
  {
    TiledPlus(h.blocks, h.start, cur, k);
    var t := Grown(h, cur, k);
    forall a | a in t.blocks ensures BlockOk(t.blocks, a) && (a in t.live || a in {cur} || a in t.bins[t.blocks[a]]) {
      if a != cur {
        assert BlockOk(h.blocks, a);
      }
    }
  }

  /** A live block that is not on its way is not touched by halving another. */
  ghost predicate LiveKept(g: Heap, h: Heap) {
    && h.start == g.start && h.total == g.total
    && (forall a {:trigger a in g.live} :: a in g.live ==>
          a in h.live && a in g.blocks && a in h.blocks && h.blocks[a] == g.blocks[a])
  }

  lemma HeadOf(h: Heap, loose: set<int>, k: nat)
    requires Ok(h, loose) && k < BINS
    ensures |h.heads| == |h.bins| == BINS && (h.heads[k] == 0 <==> h.bins[k] == [])
  {
    assert Listed(h.mem, h.heads[k], h.bins[k]);
  }

  /** s and t differ by one element with this value. */
  ghost predicate RemovedOne(s: seq<int>, t: seq<int>, value: int) {
    exists i :: 0 <= i < |s| && s[i] == value && t == Without(s, i)
  }

  class Allocator {
    var h: Heap

    /** self.list[k].push */
    method Push(k: nat, a: int, ghost loose: set<int>, ghost x: int)
      requires Ok(h, loose) && a in loose && k < BINS && h.blocks[a] == k && Balanced(h, x)
      modifies this
      ensures |old(h).heads| == |old(h).bins| == BINS && h == PushedAt(old(h), k, a)
      ensures Ok(h, loose - {a}) && Balanced(h, x - Size(k))
    {
      hide Ok;
      HeadOf(h, loose, k);
      PushedOk(h, loose, k, a, x);
      h := h.(mem := h.mem[a := h.heads[k]]);
      h := h.(heads := h.heads[k := a], bins := h.bins[k := [a] + h.bins[k]]);
    }

    /** self.list[k].pop, of a list that is not empty. */
    method Pop(k: nat, ghost loose: set<int>, ghost x: int) returns (a: int)
      requires Ok(h, loose) && k < BINS && |h.bins| == BINS && h.bins[k] != [] && Balanced(h, x)
      modifies this
      ensures |old(h).heads| == BINS && a == old(h).heads[k] && a == old(h).bins[k][0] && a in old(h).mem
      ensures h == PoppedAt(old(h), k)
      ensures a !in loose && a !in h.live && BlockOk(h.blocks, a) && h.blocks[a] == k
      ensures Ok(h, loose + {a}) && Balanced(h, x + Size(k))
    {
      hide Ok, BlockOk;
      HeadOf(h, loose, k);
      PoppedOk(h, loose, k, x);
      a := h.heads[k];
      h := h.(heads := h.heads[k := h.mem[a]], bins := h.bins[k := h.bins[k][1..]]);
    }

    /** new: blocks as large as address and rest allow; under 8 bytes are left over. */
    constructor (start: int, end: int)
      requires 0 < start && Aligned(start, 3) && start <= end && end < LIMIT
      ensures Ok(h, {}) && Balanced(h, 0) && h.live == {} && h.inUse == 0
      ensures h.start == start && h.length == end - start && h.length - BIN_SIZE < h.total <= h.length
    {
      hide Ok, PrevPow2, LowBit, TrailingZeros, Aligned, Balanced, Size;
      h := Heap(seq(BINS, _ => 0), map[], 0, end - start, 0, start, seq(BINS, _ => []), map[], {});
      new;
      EmptyOk(h);
      var cur := start;
      while cur + BIN_SIZE <= end
        invariant Ok(h, {}) && Balanced(h, 0) && h.live == {} && h.inUse == 0 && h.length == end - start
        invariant h.start == start && cur == start + h.total <= end && 0 <= h.total && Aligned(cur, 3)
        decreases end - cur
      {
        NextBlock(cur, end);
        var maxAllocable := PrevPow2(end - cur);
        var curAligned := LowBit(cur);
        var size := Min(curAligned, maxAllocable);
        var k := TrailingZeros(size / BIN_SIZE);
        GrownOk(h, cur, k);
        GrownBalanced(h, cur, k);
        h := h.(total := h.total + size, blocks := h.blocks[cur := k]);
        Push(k, cur, {cur}, size);
        assert {cur} - {cur} == {};
        cur := cur + size;
      }
    }

    /** One turn of alloc's inner loop: a block of bin j becomes two of bin j - 1. */
    method Split(j: nat)
      requires 0 < j < BINS && Ok(h, {}) && Balanced(h, 0) && |h.bins| == BINS && h.bins[j] != []
      modifies this
      ensures Ok(h, {}) && Balanced(h, 0) && |h.bins| == BINS && |old(h).bins| == BINS && |old(h).heads| == BINS
      ensures var a := old(h).bins[j][0];
              a == old(h).heads[j] &&
              h.bins == old(h).bins[j := old(h).bins[j][1..]][j - 1 := [a + Size(j - 1), a] + old(h).bins[j - 1]] &&
              h.blocks == old(h).blocks[a := j - 1][a + Size(j - 1) := j - 1]
      ensures LiveKept(old(h), h) && h.live == old(h).live && h.inUse == old(h).inUse
    {
      hide Ok, Balanced, BlockOk, Aligned;
      HeadOf(h, {}, j);
      var a := Pop(j, {}, 0);
      assert {} + {a} == {a};
      ghost var g := h;
      HalvedOk(g, {a}, a, j - 1);
      var m := a + Size(j - 1);
      h := h.(blocks := h.blocks[a := j - 1][m := j - 1]);
      assert h == Halved(g, a, j - 1);
      HalvedKeeps(g, {a}, a, j - 1, Size(j));
      assert {a} + {m} == {a, m};
      HeadOf(h, {a, m}, j - 1);
      Push(j - 1, a, {a, m}, Size(j));
      assert {a, m} - {a} == {m};
      HeadOf(h, {m}, j - 1);
      Push(j - 1, m, {m}, Size(j) - Size(j - 1));
      assert {m} - {m} == {};
      assert Size(j) - Size(j - 1) - Size(j - 1) == 0;
      assert [m] + ([a] + old(h).bins[j - 1]) == [m, a] + old(h).bins[j - 1];
    }

    /** alloc; 0 is the null pointer. It fails only if no bin from the layout's own on
        has a block. */
    method Alloc(size: int, align: int, ghost n: nat) returns (r: int)
      requires Ok(h, {}) && Balanced(h, 0) && |h.bins| == BINS && size > 0 && align == Pow2(n)
      modifies this
      ensures Ok(h, {}) && Balanced(h, 0) && |h.bins| == BINS && SizeOf(size, align) >= BIN_SIZE
      ensures r == 0 <==> forall k :: BinOf(size, align) <= k < BINS ==> old(h).bins[k] == []
      ensures r == 0 ==> h == old(h)
      ensures r != 0 ==> r !in old(h).live && h.live == old(h).live + {r} && LiveKept(old(h), h)
      ensures r != 0 ==>
                r in h.blocks && h.blocks[r] == BinOf(size, align) && r % align == 0 && SizeAt(h.blocks, r) >= size
      ensures r != 0 ==> h.inUse == old(h).inUse + SizeAt(h.blocks, r)
    {
      hide Ok, Balanced, Aligned, NextPow2, Pow2, TrailingZeros;
      BinFits(size, n);
      var need := SizeOf(size, align);
      var bin := BinOf(size, align);
      var i := bin;
      while i < BINS
        invariant h == old(h) && bin <= i && forall k :: bin <= k < i && k < BINS ==> h.bins[k] == []
      {
        HeadOf(h, {}, i);
        if h.heads[i] != 0 {
          var j := i;
          KeptRefl(h);
          while j > bin
            invariant bin <= j <= i && Ok(h, {}) && Balanced(h, 0) && |h.bins| == BINS && h.bins[j] != []
            invariant LiveKept(old(h), h) && h.live == old(h).live && h.inUse == old(h).inUse
          {
            Split(j);
            j := j - 1;
          }
          ghost var g := h;
          HeadOf(h, {}, bin);
          AddedBalanced(g, need);
          h := h.(inUse := h.inUse + need);
          SameOk(g, h);
          HeadOf(h, {}, bin);
          r := Pop(bin, {}, -need);
          assert {} + {r} == {r};
          HandedOut(h, {r}, r);
          BlockAligned(h.blocks, r, n);
          SameBalanced(h, h.(live := h.live + {r}));
          h := h.(live := h.live + {r});
          assert {r} - {r} == {};
          HeadOf(h, {}, bin);
          return;
        }
        i := i + 1;
      }
      r := 0;
    }

    /** The walk of iter_mut over list k that pops the first node with this value and
        stops there. prev == 0 stands for the head field. */
    method RemoveOne(k: nat, value: int) returns (found: bool)
      requires k < BINS && |h.heads| == |h.bins| == BINS && Listed(h.mem, h.heads[k], h.bins[k])
      modifies this
      ensures |h.heads| == |h.bins| == BINS && Listed(h.mem, h.heads[k], h.bins[k])
      ensures found <==> value in old(h).bins[k]
      ensures !found ==> h == old(h)
      ensures found ==> RemovedOne(old(h).bins[k], h.bins[k], value) && h.bins == old(h).bins[k := h.bins[k]]
    {
      var prev, current := 0, h.heads[k];
      ghost var i, items := 0, h.bins[k];
      assert items[0..] == items;
      while current != 0
        invariant h == old(h) && 0 <= i <= |items| && current == First(items[i..])
        invariant prev == (if i == 0 then 0 else items[i - 1])
        invariant value !in items[..i]
        decreases |items| - i
      {
        assert items[i..][0] == items[i];
        if current == value {
          Unlinked(h.mem, h.heads[k], items, i);
          if prev == 0 {
            h := h.(heads := h.heads[k := h.mem[current]]);
          } else {
            h := h.(mem := h.mem[prev := h.mem[current]]);
          }
          h := h.(bins := h.bins[k := Without(items, i)]);
          return true;
        }
        prev, current := current, h.mem[current];
        assert items[..i + 1] == items[..i] + [items[i]];
        i := i + 1;
      }
      assert items[..i] == items;
      found := false;
    }

    /** dealloc: the block goes back to its bin. The pair it looks for lies inside the
        block, so blocks are never merged. */
    method Dealloc(ptr: int, size: int, align: int, ghost n: nat)
      requires Ok(h, {}) && Balanced(h, 0) && align == Pow2(n) && SizeOf(size, align) >= BIN_SIZE
      requires ptr in h.live && ptr in h.blocks && h.blocks[ptr] == BinOf(size, align)
      modifies this
      ensures Ok(h, {}) && Balanced(h, 0) && h.live == old(h).live - {ptr} && h.blocks == old(h).blocks
      ensures h.inUse == old(h).inUse - SizeAt(h.blocks, ptr)
      ensures |h.bins| == |old(h).bins| == BINS
      ensures h.bins == old(h).bins[h.blocks[ptr] := [ptr] + old(h).bins[h.blocks[ptr]]]
    {
      hide Ok, Balanced, NextPow2, TrailingZeros, Aligned, FlipBit;
      BinFits(size, n);
      var need := SizeOf(size, align);
      var bin := BinOf(size, align);
      GivenBack(h, ptr);
      SameBalanced(h, h.(live := h.live - {ptr}));
      h := h.(live := h.live - {ptr});
      Push(bin, ptr, {ptr}, 0);
      assert {ptr} - {ptr} == {};
      var nextBinStart := Size(bin + 1);
      var m := nextBinStart / 4;
      assert m == Pow2(bin + 2);
      var pair := FlipBit(ptr, bin + 2);
      PairIsInside(h, ptr, bin);
      var found := RemoveOne(bin, pair);
      if found {
        assert false;
      }
      ghost var g := h;
      TakenBalanced(g, need);
      h := h.(inUse := h.inUse - need);
      SameOk(g, h);
    }
  }

  lemma TakenBalanced(h: Heap, x: int)
    requires Balanced(h, -x)
    ensures Balanced(h.(inUse := h.inUse - x), 0)
  {
  }

  /** The address that dealloc takes for the pair is inside the block: no list has it. */
  lemma PairIsInside(h: Heap, ptr: int, k: nat)
    requires Ok(h, {}) && ptr in h.blocks && h.blocks[ptr] == k
    ensures k < BINS && |h.heads| == |h.bins| == BINS && Listed(h.mem, h.heads[k], h.bins[k])
    ensures FlipBit(ptr, k + 2) == ptr + Size(k) / 2
    ensures FlipBit(ptr, k + 2) !in h.bins[k]
  {
    assert BlockOk(h.blocks, ptr);
    FlipAdds(ptr, k + 2);
    BinOfPow(k + 3);
    var pair := FlipBit(ptr, k + 2);
    forall a | a in h.bins[k] ensures a != pair {
      assert BlockOk(h.blocks, a);
    }
  }

  /** Blocks handed out never overlap, each other or a free one. */
  lemma LiveApart(h: Heap, loose: set<int>, a: int, b: int)
    requires Ok(h, loose) && a in h.live && b in h.blocks && a != b
    ensures a in h.blocks && (a + SizeAt(h.blocks, a) <= b || b + SizeAt(h.blocks, b) <= a)
  {
    assert Apart(h.blocks, a, b) && Apart(h.blocks, b, a);
  }

  lemma HalvedKeeps(h: Heap, loose: set<int>, a: int, k: nat, x: int)
    requires Ok(h, loose) && a in loose && a + Size(k) !in h.blocks && Balanced(h, x)
    ensures LiveKept(h, Halved(h, a, k)) && Balanced(Halved(h, a, k), x)
  {
  }

  lemma KeptRefl(h: Heap)
    requires Ok(h, {})
    ensures LiveKept(h, h)
  {
  }

  lemma AddedBalanced(h: Heap, x: int)
    requires Balanced(h, 0)
    ensures Balanced(h.(inUse := h.inUse + x), -x)
  {
  }

  lemma SameOk(g: Heap, h: Heap)
    requires Ok(g, {}) && h == g.(inUse := h.inUse)
    ensures Ok(h, {})
  {
  }

  lemma SameBalanced(g: Heap, h: Heap)
    requires Balanced(g, 0) && h == g.(live := h.live)
    ensures Balanced(h, 0)
  {
  }

  lemma BlockAligned(blocks: map<int, int>, a: int, n: nat)
    requires BlockOk(blocks, a) && blocks[a] + 3 >= n
    ensures a % Pow2(n) == 0
  {
    AlignedLess(a, blocks[a] + 3, n);
    AlignedMod(a, n);
  }

  lemma EmptyOk(h: Heap)
    requires |h.heads| == |h.bins| == BINS && (forall k :: 0 <= k < BINS ==> h.heads[k] == 0 && h.bins[k] == [])
    requires h.blocks == map[] && h.live == {} && h.total == 0 && h.inUse == 0
    ensures Ok(h, {}) && Balanced(h, 0)
  {
    NoFreeBytes(h.bins, BINS);
  }

  lemma GrownBalanced(h: Heap, cur: int, k: nat)
    requires Balanced(h, 0)
    ensures Balanced(Grown(h, cur, k), Size(k))
  {
  }

  lemma {:induction false} NoFreeBytes(bins: seq<seq<int>>, n: nat)
    requires n <= |bins| && forall k :: 0 <= k < |bins| ==> bins[k] == []
    ensures FreeBytes(bins, n) == 0
  {
    if n > 0 {
      NoFreeBytes(bins, n - 1);
    }
  }
}
