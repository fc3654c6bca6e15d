// The Kernighan-Ritchie allocator (CLab/xv6/user/umalloc.c).
//
// Addresses count headers: address a is byte 16 * a, so pointer arithmetic on
// Header* is plain addition. A block of size s occupies addresses [a, a + s); its
// header is at a and its payload starts at a + 1.

module Umalloc {
  const HEADER := 16

  // ------------------------------------------------------------- the invariant

  /** n follows x when the list, base included, is walked in address order: it is
      the next entry up, or base after the last one. */
  ghost predicate IsNext(list: set<int>, base: int, x: int, n: int) {
    n in list &&
    if n > x then forall y :: y in list ==> y <= x || y >= n
    else n == base && forall y :: y in list ==> y <= x
  }

  /** ptr makes one address-ordered cycle of the list. */
  ghost predicate Linked(base: int, ptr: map<int, int>, list: set<int>) {
    && base in list
    && (forall x {:trigger x in list} :: x in list ==> x in ptr && base <= x)
    && (forall x {:trigger IsNext(list, base, x, ptr[x])} :: x in list ==> IsNext(list, base, x, ptr[x]))
  }

  /** base has size 0; no two entries touch or overlap. */
  ghost predicate Spaced(base: int, size: map<int, int>, list: set<int>) {
    && base in list
    && (forall x {:trigger x in list} :: x in list ==> x in size && size[x] >= (if x == base then 0 else 1))
    && size[base] == 0
    && (forall x, y :: x in list && y in list && x < y ==> x + size[x] < y)
  }

  predicate Within(a: int, n: int, u: int) {
    a <= u < a + n
  }

  /** The blocks tile the memory obtained from sbrk: owner takes each of its
      addresses to the one block that contains it. */
  ghost predicate Tiled(size: map<int, int>, blocks: set<int>, owner: map<int, int>) {
    && (forall b :: b in blocks ==> b in size && size[b] >= 1)
    && (forall u :: u in owner ==> owner[u] in blocks && Within(owner[u], size[owner[u]], u))
    && (forall b, u {:trigger Within(b, size[b], u)} ::
          b in blocks && Within(b, size[b], u) ==> u in owner && owner[u] == b)
  }

  /** list: base and the free blocks. live: the blocks handed out, with their sizes. */
  ghost predicate Ok(base: int, ptr: map<int, int>, size: map<int, int>, list: set<int>,
                     live: map<int, int>, owner: map<int, int>) {
    && Linked(base, ptr, list) && Spaced(base, size, list)
    && Tiled(size, list - {base} + live.Keys, owner)
    && forall b :: b in live ==> b !in list && b > base && b in size && size[b] == live[b]
  }

  predicate SameAt(m: map<int, int>, m': map<int, int>, a: int) {
    (a in m <==> a in m') && (a in m ==> m[a] == m'[a])
  }

  /** The memory of the blocks that were live and still are is as it was. */
  ghost predicate Framed(ptr: map<int, int>, size: map<int, int>, live: map<int, int>, owner: map<int, int>,
                         ptr': map<int, int>, size': map<int, int>, live': map<int, int>, owner': map<int, int>) {
    forall a :: a in owner && owner[a] in live && owner[a] in live' ==>
      a in owner' && owner'[a] == owner[a] && SameAt(ptr, ptr', a) && SameAt(size, size', a)
  }

  lemma FramedHere(ptr: map<int, int>, size: map<int, int>, live: map<int, int>, owner: map<int, int>,
                   ptr': map<int, int>, size': map<int, int>)
    requires owner == map[] || (ptr' == ptr && size' == size)
    ensures Framed(ptr, size, live, owner, ptr', size', live, owner)
  {
  }

  lemma FramedTwice(ptr: map<int, int>, size: map<int, int>, live: map<int, int>, owner: map<int, int>,
                    ptr1: map<int, int>, size1: map<int, int>, live1: map<int, int>, owner1: map<int, int>,
                    ptr2: map<int, int>, size2: map<int, int>, live2: map<int, int>, owner2: map<int, int>)
    requires Framed(ptr, size, live, owner, ptr1, size1, live1, owner1) && live.Keys <= live1.Keys
    requires Framed(ptr1, size1, live1, owner1, ptr2, size2, live2, owner2)
    ensures Framed(ptr, size, live, owner, ptr2, size2, live2, owner2)
  {
  }

  // ------------------------------------------------------------------ the tiles

  /** Two blocks never overlap. */
  lemma Apart(size: map<int, int>, blocks: set<int>, owner: map<int, int>, a: int, b: int)
    requires Tiled(size, blocks, owner) && a in blocks && b in blocks && a < b
    ensures a + size[a] <= b
  {
    assert Within(b, size[b], b);
    var overlap := Within(a, size[a], b);
    assert !overlap;
  }

  /** Block b becomes part of block a. */
  ghost function Fused(owner: map<int, int>, a: int, b: int): map<int, int> {
    map u | u in owner :: if owner[u] == b then a else owner[u]
  }

  lemma FusedTiled(size: map<int, int>, blocks: set<int>, owner: map<int, int>, a: int, b: int)
    requires Tiled(size, blocks, owner) && a in blocks && b in blocks && a + size[a] == b
    ensures Tiled(size[a := size[a] + size[b]], blocks - {b}, Fused(owner, a, b))
  {
    var size' := size[a := size[a] + size[b]];
    var owner' := Fused(owner, a, b);
    forall c, u | c in blocks - {b} && Within(c, size'[c], u)
      ensures u in owner' && owner'[u] == c
    {
      assert Within(c, size[c], u) || Within(b, size[b], u);
    }
    forall u | u in owner'
      ensures owner'[u] in blocks - {b} && Within(owner'[u], size'[owner'[u]], u)
    {
      assert Within(owner[u], size[owner[u]], u);
    }
  }

  /** The addresses [start, start + len) become a block of their own. */
  ghost function Given(owner: map<int, int>, start: int, len: int): map<int, int> {
    map u | u in owner :: if start <= u < start + len then start else owner[u]
  }

  lemma SplitTiled(size: map<int, int>, blocks: set<int>, owner: map<int, int>, a: int, n: int)
    requires Tiled(size, blocks, owner) && a in blocks && 1 <= n < size[a]
    ensures var q := a + size[a] - n;
      && q !in blocks && q in owner && owner[q] == a
      && Tiled(size[a := size[a] - n][q := n], blocks + {q}, Given(owner, q, n))
      && forall u :: u in owner && owner[u] != a ==> Given(owner, q, n)[u] == owner[u]
  {
    var q := a + size[a] - n;
    assert Within(a, size[a], q);
    assert q !in blocks by {
      assert q in blocks ==> Within(q, size[q], q);
    }
    var size', owner' := size[a := size[a] - n][q := n], Given(owner, q, n);
    forall c, u | c in blocks + {q} && Within(c, size'[c], u)
      ensures u in owner' && owner'[u] == c
    {
      var was := if c == q then a else c;
      assert Within(was, size[was], u);
      assert Within(q, n, u) ==> Within(a, size[a], u);
    }
    forall u | u in owner && owner[u] != a
      ensures owner'[u] == owner[u]
    {
      var inside := Within(a, size[a], u);
      assert !inside;
    }
  }

  ghost function Grown(owner: map<int, int>, a: int, n: int): map<int, int> {
    var region := set u | a <= u < a + n && Within(a, n, u);
    map u | u in owner.Keys + region :: if u in region then a else owner[u]
  }

  /** A region from sbrk becomes one more block. */
  lemma GrownTiled(size: map<int, int>, blocks: set<int>, owner: map<int, int>, a: int, n: int)
    requires Tiled(size, blocks, owner) && n >= 1 && forall u :: a <= u < a + n ==> u !in owner
    ensures a !in blocks
    ensures Tiled(size[a := n], blocks + {a}, Grown(owner, a, n))
  {
    assert a !in owner;
    assert a in blocks ==> Within(a, size[a], a);
    var size', owner' := size[a := n], Grown(owner, a, n);
    forall c, u | c in blocks + {a} && Within(c, size'[c], u)
      ensures u in owner' && owner'[u] == c
    {
      assert c != a ==> Within(c, size[c], u);
    }
  }

  // ------------------------------------------------------------------- free()

  /** bp belongs behind p. */
  ghost predicate Fits(list: set<int>, p: int, bp: int) {
    p in list && p < bp && forall y :: y in list ==> y <= p || y > bp
  }

  /** The sizes after free() puts bp between p and nxt. */
  ghost function SizeAfter(size: map<int, int>, p: int, bp: int, nxt: int): map<int, int>
    requires p in size && bp in size && nxt in size
  {
    var sz := if bp + size[bp] == nxt then size[bp] + size[nxt] else size[bp];
    if p + size[p] == bp then size[bp := sz][p := size[p] + sz] else size[bp := sz]
  }

  /** The links after it: they skip nxt if bp absorbs it, and bp if p absorbs bp. */
  ghost function PtrAfter(ptr: map<int, int>, p: int, bp: int, lo: bool, up: bool): map<int, int>
    requires p in ptr && ptr[p] in ptr
  {
    var ptr1 := ptr[bp := if up then ptr[ptr[p]] else ptr[p]];
    ptr1[p := if lo then ptr1[bp] else bp]
  }

  ghost function ListAfter(list: set<int>, bp: int, nxt: int, lo: bool, up: bool): set<int> {
    (if lo then list else list + {bp}) - (if up then {nxt} else {})
  }

  lemma NextOf(base: int, ptr: map<int, int>, list: set<int>, x: int)
    requires Linked(base, ptr, list) && x in list
    ensures x in ptr && ptr[x] in ptr && IsNext(list, base, x, ptr[x])
  {
    assert IsNext(list, base, x, ptr[x]);
  }

  /** The entry behind p leaves the list. */
  lemma UnlinkedLinked(base: int, ptr: map<int, int>, list: set<int>, p: int)
    requires Linked(base, ptr, list) && p in list && ptr[p] != base
    ensures ptr[p] in ptr && Linked(base, ptr[p := ptr[ptr[p]]], list - {ptr[p]})
  {
    var gone := ptr[p];
    NextOf(base, ptr, list, p);
    NextOf(base, ptr, list, gone);
    var list', ptr' := list - {gone}, ptr[p := ptr[gone]];
    forall x | x in list'
      ensures IsNext(list', base, x, ptr'[x])
    {
      NextOf(base, ptr, list, x);
    }
  }

  lemma InsertedBelowLinked(base: int, ptr: map<int, int>, list: set<int>, p: int, bp: int)
    requires Linked(base, ptr, list) && Fits(list, p, bp)
    ensures Linked(base, ptr[bp := ptr[p]][p := bp], list + {bp})
  {
    NextOf(base, ptr, list, p);
    var list', ptr' := list + {bp}, ptr[bp := ptr[p]][p := bp];
    assert ptr'[bp] == ptr[p] && ptr'[p] == bp;
    forall x | x in list'
      ensures x in ptr' && base <= x && IsNext(list', base, x, ptr'[x])
    {
      if x != bp && x != p {
        NextOf(base, ptr, list, x);
        assert ptr'[x] == ptr[x];
      }
    }
  }

  lemma InsertedLinked(base: int, ptr: map<int, int>, list: set<int>, p: int, bp: int, lo: bool, up: bool)
    requires Linked(base, ptr, list) && Fits(list, p, bp) && ptr[p] in ptr
    requires up ==> ptr[p] > bp
    ensures Linked(base, PtrAfter(ptr, p, bp, lo, up), ListAfter(list, bp, ptr[p], lo, up))
  {
    var ptr0, list0 := ptr, list;
    if up {
      UnlinkedLinked(base, ptr, list, p);
      ptr0, list0 := ptr[p := ptr[ptr[p]]], list - {ptr[p]};
    }
    InsertedBelowLinked(base, ptr0, list0, p, bp);
    var ptr1, list1 := ptr0[bp := ptr0[p]][p := bp], list0 + {bp};
    if lo {
      UnlinkedLinked(base, ptr1, list1, p);
      assert ptr1[p := ptr1[bp]] == PtrAfter(ptr, p, bp, lo, up);
      assert list1 - {bp} == ListAfter(list, bp, ptr[p], lo, up);
    } else {
      assert ptr1 == PtrAfter(ptr, p, bp, lo, up);
      assert list1 == ListAfter(list, bp, ptr[p], lo, up);
    }
  }

  lemma InsertedSpaced(base: int, size: map<int, int>, list: set<int>, p: int, bp: int, nxt: int)
    requires Spaced(base, size, list) && Fits(list, p, bp) && base <= p && bp in size && size[bp] >= 1
    requires IsNext(list, base, p, nxt) && (forall y :: y in list && y > bp ==> bp + size[bp] <= y)
    requires p + size[p] <= bp
    ensures var lo, up := p + size[p] == bp, bp + size[bp] == nxt;
      Spaced(base, SizeAfter(size, p, bp, nxt), ListAfter(list, bp, nxt, lo, up))
  {
    assert nxt > bp ==> nxt + size[nxt] >= bp + size[bp];
  }

  /** free() joins bp to the free neighbours it touches: the tiling goes on. */
  lemma InsertedTiled(size: map<int, int>, blocks: set<int>, owner: map<int, int>, p: int, bp: int, nxt: int)
    returns (owner': map<int, int>)
    requires Tiled(size, blocks, owner) && bp in blocks && p in size && nxt in size
    requires p < bp && p + size[p] <= bp && nxt != bp
    requires bp + size[bp] == nxt ==> nxt in blocks
    requires p + size[p] == bp ==> p in blocks
    ensures Tiled(SizeAfter(size, p, bp, nxt),
                  blocks - (if bp + size[bp] == nxt then {nxt} else {})
                         - (if p + size[p] == bp then {bp} else {}), owner')
    ensures owner'.Keys == owner.Keys && bp in owner'
    ensures owner'[bp] == if p + size[p] == bp then p else bp
    ensures forall u :: u in owner && owner[u] !in {bp, nxt} ==> owner'[u] == owner[u]
  {
    assert Within(bp, size[bp], bp);
    assert size[bp := size[bp]] == size;
    var blocks1, size1 := blocks, size;
    owner' := owner;
    if bp + size[bp] == nxt {
      FusedTiled(size, blocks, owner, bp, nxt);
      owner', blocks1, size1 := Fused(owner, bp, nxt), blocks - {nxt}, size[bp := size[bp] + size[nxt]];
    }
    if p + size[p] == bp {
      FusedTiled(size1, blocks1, owner', p, bp);
      owner' := Fused(owner', p, bp);
    }
  }

  /** The list keeps clear of the live block bp. */
  lemma PlacedApart(base: int, size: map<int, int>, list: set<int>, live: map<int, int>,
                    owner: map<int, int>, p: int, bp: int)
    requires Spaced(base, size, list) && Tiled(size, list - {base} + live.Keys, owner)
    requires bp in live && bp > base && Fits(list, p, bp)
    ensures p + size[p] <= bp && forall y :: y in list && y > bp ==> bp + size[bp] <= y
  {
    var blocks := list - {base} + live.Keys;
    if p != base {
      Apart(size, blocks, owner, p, bp);
    }
    forall y | y in list && y > bp
      ensures bp + size[bp] <= y
    {
      Apart(size, blocks, owner, bp, y);
    }
  }

  /** What free() reads is there. */
  lemma PlaceFacts(base: int, ptr: map<int, int>, size: map<int, int>, list: set<int>,
                   live: map<int, int>, owner: map<int, int>, p: int, bp: int)
    requires Ok(base, ptr, size, list, live, owner) && bp in live && Fits(list, p, bp)
    ensures p in ptr && ptr[p] in ptr && ptr[p] in size && bp != ptr[p] && base <= p && p in size && bp in size
    ensures IsNext(list, base, p, ptr[p]) && p < bp && p in list && size[bp] >= 1 && size[p] >= 0 && size[ptr[p]] >= 0
    ensures p !in live && ptr[p] in list && ptr[p] !in live && base !in owner
    ensures p != base ==> p in owner && owner[p] == p
    ensures bp in owner && owner[bp] == bp && bp !in list
    ensures bp + size[bp] == ptr[p] ==> ptr[p] != base
    ensures p + size[p] == bp ==> p != base
  {
    NextOf(base, ptr, list, p);
    assert p != base ==> Within(p, size[p], p);
    assert Within(bp, size[bp], bp);
  }

  /** free() writes to p and bp only, and joins only what is free. */
  lemma FreeFramed(ptr: map<int, int>, size: map<int, int>, live: map<int, int>, owner: map<int, int>,
                   owner': map<int, int>, base: int, p: int, bp: int, lo: bool, up: bool)
    requires p in ptr && ptr[p] in ptr && p in size && bp in size && ptr[p] in size
    requires bp in owner && owner[bp] == bp && p !in live && ptr[p] !in live
    requires p != base ==> p in owner && owner[p] == p
    requires base !in owner && owner'.Keys == owner.Keys
    requires forall u :: u in owner && owner[u] !in {bp, ptr[p]} ==> owner'[u] == owner[u]
    ensures Framed(ptr, size, live, owner, PtrAfter(ptr, p, bp, lo, up), SizeAfter(size, p, bp, ptr[p]),
                   live - {bp}, owner')
  {
  }

  /** free() keeps the invariant, and puts bp's addresses in a free block at least as large. */
  lemma FreeOk(base: int, ptr: map<int, int>, size: map<int, int>, list: set<int>,
               live: map<int, int>, owner: map<int, int>, p: int, bp: int)
    returns (list': set<int>, owner': map<int, int>)
    requires Ok(base, ptr, size, list, live, owner) && bp in live && Fits(list, p, bp)
    ensures ptr[p] in ptr && ptr[p] in size && bp != ptr[p] && base <= p && p in size && bp in size
    ensures Ok(base, PtrAfter(ptr, p, bp, p + size[p] == bp, bp + size[bp] == ptr[p]),
               SizeAfter(size, p, bp, ptr[p]), list', live - {bp}, owner')
    ensures p in list' && owner'.Keys == owner.Keys
    ensures bp in owner' && owner'[bp] in list' - {base}
    ensures var size' := SizeAfter(size, p, bp, ptr[p]);
      owner'[bp] in size' && size'[owner'[bp]] >= size[bp]
    ensures Framed(ptr, size, live, owner,
                   PtrAfter(ptr, p, bp, p + size[p] == bp, bp + size[bp] == ptr[p]),
                   SizeAfter(size, p, bp, ptr[p]), live - {bp}, owner')
  {
    hide Linked, Spaced, Tiled, Fits, IsNext, PtrAfter, Framed;
    PlaceFacts(base, ptr, size, list, live, owner, p, bp);
    var blocks, nxt := list - {base} + live.Keys, ptr[p];
    var lo, up := p + size[p] == bp, bp + size[bp] == nxt;
    PlacedApart(base, size, list, live, owner, p, bp);
    InsertedSpaced(base, size, list, p, bp, nxt);
    InsertedLinked(base, ptr, list, p, bp, lo, up);
    owner' := InsertedTiled(size, blocks, owner, p, bp, nxt);
    list' := ListAfter(list, bp, nxt, lo, up);
    BlocksAfter(base, list, live, bp, nxt, lo, up);
    FreeFramed(ptr, size, live, owner, owner', base, p, bp, lo, up);
  }

  lemma BlocksAfter(base: int, list: set<int>, live: map<int, int>, bp: int, nxt: int, lo: bool, up: bool)
    requires bp in live && bp !in list && bp != base && nxt !in live
    ensures ListAfter(list, bp, nxt, lo, up) - {base} + (live - {bp}).Keys ==
            list - {base} + live.Keys - (if up then {nxt} else {}) - (if lo then {bp} else {})
  {
  }

  // ------------------------------------------------------------------ malloc()

  /** The exact fit: the entry behind prevp leaves the list. */
  lemma TakenWholeOk(base: int, ptr: map<int, int>, size: map<int, int>, list: set<int>,
                     live: map<int, int>, owner: map<int, int>, prevp: int)
    requires Ok(base, ptr, size, list, live, owner) && prevp in list && ptr[prevp] != base
    ensures var p := ptr[prevp];
      && p in ptr && p in size && p in list && p > base && prevp >= base && p != prevp && p !in live
      && Ok(base, ptr[prevp := ptr[p]], size, list - {p}, live[p := size[p]], owner)
      && Framed(ptr, size, live, owner, ptr[prevp := ptr[p]], size, live[p := size[p]], owner)
  {
    var p := ptr[prevp];
    NextOf(base, ptr, list, prevp);
    UnlinkedLinked(base, ptr, list, prevp);
    assert list - {p} - {base} + live[p := size[p]].Keys == list - {base} + live.Keys;
    assert prevp != base ==> Within(prevp, size[prevp], prevp);
  }

  lemma SpacedShrunk(base: int, size: map<int, int>, list: set<int>, p: int, s: int)
    requires Spaced(base, size, list) && p in list && 1 <= s <= size[p]
    ensures Spaced(base, size[p := s], list)
  {
  }

  /** Where the tail lies: in p, and in no other block. */
  lemma TailPlace(base: int, ptr: map<int, int>, size: map<int, int>, list: set<int>,
                  live: map<int, int>, owner: map<int, int>, p: int, n: int)
    requires Ok(base, ptr, size, list, live, owner) && p in list && 1 <= n < size[p]
    ensures var q := p + size[p] - n;
      && p > base && p in owner && owner[p] == p && p !in live && q > base && q != p && q !in list && q !in live
      && base !in live && base !in owner
  {
    assert Within(p, size[p], p);
    SplitTiled(size, list - {base} + live.Keys, owner, p, n);
  }

  lemma TailFramed(ptr: map<int, int>, size: map<int, int>, live: map<int, int>, owner: map<int, int>,
                   owner': map<int, int>, p: int, q: int, a: int, n: int)
    requires p in size && p in owner && owner[p] == p && p !in live
    requires q in owner && owner[q] == p
    requires forall u :: u in owner && owner[u] != p ==> u in owner' && owner'[u] == owner[u]
    ensures Framed(ptr, size, live, owner, ptr, size[p := a][q := n], live[q := n], owner')
  {
  }

  /** The larger fit: the tail of p becomes a block of its own. */
  lemma TakenTailOk(base: int, ptr: map<int, int>, size: map<int, int>, list: set<int>,
                    live: map<int, int>, owner: map<int, int>, p: int, n: int)
    requires Ok(base, ptr, size, list, live, owner) && p in list && 1 <= n < size[p]
    ensures var q := p + size[p] - n;
      && q in owner && q !in live && q > base && q != p
      && Ok(base, ptr, size[p := size[p] - n][q := n], list, live[q := n], Given(owner, q, n))
      && Framed(ptr, size, live, owner, ptr, size[p := size[p] - n][q := n], live[q := n], Given(owner, q, n))
  {
    hide Linked, Given, Framed;
    var q := p + size[p] - n;
    TailPlace(base, ptr, size, list, live, owner, p, n);
    SplitTiled(size, list - {base} + live.Keys, owner, p, n);
    SpacedShrunk(base, size, list, p, size[p] - n);
    TailFramed(ptr, size, live, owner, Given(owner, q, n), p, q, size[p] - n, n);
    hide Tiled;
    assert list - {base} + live[q := n].Keys == list - {base} + live.Keys + {q};
  }

  lemma GrownOk(base: int, ptr: map<int, int>, size: map<int, int>, list: set<int>,
                live: map<int, int>, owner: map<int, int>, a: int, n: int)
    requires Ok(base, ptr, size, list, live, owner) && n >= 1 && a > base
    requires forall u :: a <= u < a + n ==> u !in owner
    ensures a !in live && Ok(base, ptr, size[a := n], list, live[a := n], Grown(owner, a, n))
    ensures Framed(ptr, size, live, owner, ptr, size[a := n], live[a := n], Grown(owner, a, n))
  {
    GrownTiled(size, list - {base} + live.Keys, owner, a, n);
    assert a !in list;
    assert list - {base} + live[a := n].Keys == list - {base} + live.Keys + {a};
  }

  // ------------------------------------------------------------- walking the cycle

  lemma {:induction false} HasPlace(list: set<int>, p: int, bp: int) returns (t: int)
    requires p in list && p < bp && bp !in list
    ensures Fits(list, t, bp)
    decreases bp - p
  {
    if y :| y in list && p < y < bp {
      t := HasPlace(list, y, bp);
    } else {
      t := p;
    }
  }

  /** How many steps the walk from p still takes to t, at most. */
  ghost function Distance(list: set<int>, p: int, t: int): nat {
    if p <= t then |set y | y in list && p < y <= t|
    else |set y | y in list && y > p| + |list|
  }

  lemma Smaller(a: set<int>, b: set<int>, x: int)
    requires a <= b && x in b && x !in a
    ensures |a| < |b|
  {
    assert b == a + (b - a) && x in b - a;
  }

  lemma StepCloser(list: set<int>, base: int, p: int, n: int, t: int)
    requires IsNext(list, base, p, n) && p in list && t in list && base in list && p != t
    requires forall y :: y in list ==> base <= y
    ensures Distance(list, n, t) < Distance(list, p, t)
  {
    if p < t {
      Smaller((set y | y in list && n < y <= t), (set y | y in list && p < y <= t), n);
    } else if n > p {
      Smaller((set y | y in list && y > n), (set y | y in list && y > p), n);
    } else {
      Smaller((set y | y in list && n < y <= t), list, base);
    }
  }

  /** What lies strictly between from and p on the way round. */
  ghost function Passed(list: set<int>, from: int, p: int, wrapped: bool): set<int> {
    set y | y in list && if wrapped then y > from || y < p else from < y < p
  }

  /** One step of malloc's search: p joins the passed entries; at the end of the lap
      they are all the others. */
  lemma PassedStep(list: set<int>, base: int, from: int, p: int, n: int, wrapped: bool)
    requires IsNext(list, base, p, n) && p in list && from in list && base in list
    requires forall y :: y in list ==> base <= y
    requires wrapped == (p <= from) && p != from
    ensures Passed(list, from, n, n <= from) == Passed(list, from, p, wrapped) + {p}
    ensures p !in Passed(list, from, p, wrapped)
    ensures wrapped ==> n <= from
  {
  }

  lemma PassedStart(list: set<int>, base: int, from: int, n: int)
    requires IsNext(list, base, from, n) && from in list && base in list
    requires forall y :: y in list ==> base <= y
    ensures Passed(list, from, n, n <= from) == {}
  {
  }

  // ------------------------------------------------------------------ the code

  /** Header units for a request: the payload rounded up, and one for the header. */
  function Units(nbytes: nat): (n: nat)
    ensures n >= 1 && HEADER * (n - 1) >= nbytes && HEADER * (n - 1) < nbytes + HEADER
  {
    (nbytes + HEADER - 1) / HEADER + 1
  }

  /** How many headers morecore asks sbrk for. */
  function Request(nunits: nat): nat {
    if nunits < 4096 then 4096 else nunits
  }

  /** The int that sbrk receives: the byte count cut down to 32 bits. */
  function SbrkArgument(nunits: nat): int {
    var low := (HEADER * Request(nunits)) % 0x1_0000_0000;
    if low < 0x8000_0000 then low else low - 0x1_0000_0000
  }

  /** sbrk is asked for the block malloc will use exactly when it is below 2 GiB;
      the largest request of all asks for a single header. */
  lemma SbrkArgumentIff(nbytes: nat)
    requires nbytes < 0x1_0000_0000
    ensures SbrkArgument(Units(nbytes)) == HEADER * Request(Units(nbytes))
            <==> Units(nbytes) < 0x800_0000
    ensures nbytes == 0xffff_ffff ==> SbrkArgument(Units(nbytes)) == HEADER
  {
    var n := Units(nbytes);
    assert HEADER * Request(n) < 0x1_0000_0000 || n >= 0x1000_0000;
  }

  /** What the process has after sbrk, which gave it `granted` and answers with the old
      end: a count that came out negative takes memory away. */
  ghost function AfterSbrk(granted: set<int>, end: int, nunits: nat): set<int> {
    var n := SbrkArgument(nunits) / HEADER;
    if n >= 0 then granted + set u | end <= u < end + n && Within(end, n, u)
    else if end + n < 0 then granted
    else set u | u in granted && !(end + n <= u < end)
  }

  /** All that the heap takes for its own was given to it by sbrk, exactly if the
      request was below 2 GiB. */
  lemma BackedIff(granted: set<int>, owner: map<int, int>, end: int, nbytes: nat)
    requires nbytes < 0x1_0000_0000 && owner.Keys <= granted
    requires forall u :: end <= u < end + Request(Units(nbytes)) ==> u !in granted
    ensures Grown(owner, end, Request(Units(nbytes))).Keys <= AfterSbrk(granted, end, Units(nbytes))
            <==> Units(nbytes) < 0x800_0000
  {
    var n, k := Units(nbytes), Request(Units(nbytes));
    SbrkArgumentIff(nbytes);
    var last := end + k - 1;
    assert Within(end, k, last) && last in Grown(owner, end, k);
    if n < 0x800_0000 {
      assert SbrkArgument(n) / HEADER == k;
      forall u | u in Grown(owner, end, k) ensures u in AfterSbrk(granted, end, n) {
      }
    } else {
      assert SbrkArgument(n) < HEADER * k;
      assert SbrkArgument(n) / HEADER < k;
      assert last !in AfterSbrk(granted, end, n);
    }
  }

  /** The free list written out: from base up through every entry once, and back. */
  lemma CycleInOrder(base: int, ptr: map<int, int>, list: set<int>) returns (s: seq<int>)
    requires Linked(base, ptr, list)
    ensures |s| > 0 && s[0] == base && (set x | x in s) == list
    ensures forall i :: 0 <= i < |s| ==> s[i] in ptr
    ensures forall i, j :: 0 <= i < j < |s| ==> s[i] < s[j]
    ensures forall i :: 0 <= i < |s| - 1 ==> ptr[s[i]] == s[i + 1]
    ensures ptr[s[|s| - 1]] == base
  {
    s := [base];
    assert base in list;
    hide Linked;
    NextOf(base, ptr, list, base);
    while ptr[s[|s| - 1]] != base
      invariant |s| > 0 && s[0] == base
      invariant forall i :: 0 <= i < |s| ==> s[i] in list && s[i] in ptr
      invariant forall i, j :: 0 <= i < j < |s| ==> s[i] < s[j]
      invariant forall i :: 0 <= i < |s| - 1 ==> ptr[s[i]] == s[i + 1]
      invariant IsNext(list, base, s[|s| - 1], ptr[s[|s| - 1]])
      invariant forall y :: y in list && y <= s[|s| - 1] ==> y in s
      decreases list - set x | x in s
    {
      var n := ptr[s[|s| - 1]];
      assert n > s[|s| - 1] && forall y :: y in list && y < n ==> y <= s[|s| - 1];
      NextOf(base, ptr, list, n);
      var left := list - set x | x in s;
      assert n in left;
      s := s + [n];
      assert (list - set x | x in s) == left - {n};
    }
  }

  class Heap {
    const base: int
    var ptr: map<int, int>
    var size: map<int, int>
    var freep: int // 0 until the first malloc
    ghost var list: set<int>
    ghost var live: map<int, int>
    ghost var owner: map<int, int>
    ghost var granted: set<int> // what sbrk has given

    ghost predicate Valid()
      reads this
    {
      && base > 0
      && (freep == 0 ==> list == {base} && live == map[] && owner == map[])
      && (freep != 0 ==> freep in list && Ok(base, ptr, size, list, live, owner))
    }

    constructor (base: int)
      requires base > 0
      ensures Valid() && this.base == base && freep == 0 && granted == {}
    {
      this.base := base;
      ptr, size, freep := map[], map[], 0;
      list, live, owner, granted := {base}, map[], map[], {};
    }

    /** sbrk either fails, with answer 0, or answers with the end of the process's
        memory: what comes after is not the heap's yet. */
    ghost predicate SbrkOk(nunits: nat, answer: int)
      reads this
    {
      answer == 0 ||
      (answer > base && forall u :: answer <= u < answer + Request(nunits) ==> u !in owner && u !in granted)
    }

    /** Every live block lies in memory obtained from sbrk, clear of all other blocks. */
    lemma LiveApart(a: int, b: int)
      requires Valid() && a in live && b in list + live.Keys && a != b
      ensures forall u :: a <= u < a + live[a] ==> u in owner && owner[u] == a
      ensures b in size && (a + live[a] <= b || b + size[b] <= a)
    {
      var blocks := list - {base} + live.Keys;
      forall u | a <= u < a + live[a]
        ensures u in owner && owner[u] == a
      {
        assert Within(a, size[a], u);
      }
      if b != base {
        if a < b {
          Apart(size, blocks, owner, a, b);
        } else {
          Apart(size, blocks, owner, b, a);
        }
      }
    }

    /** The search of free(): walk the cycle from freep to the place of bp. */
    method FindPlace(bp: int) returns (p: int)
      requires Valid() && bp in live
      ensures Fits(list, p, bp) && p in ptr
    {
      ghost var t := HasPlace(list, base, bp);
      p := freep;
      NextOf(base, ptr, list, p);
      while !(bp > p && bp < ptr[p])
        invariant p in list && p in ptr && IsNext(list, base, p, ptr[p])
        decreases Distance(list, p, t)
      {
        if p >= ptr[p] && (bp > p || bp < ptr[p]) {
          break;
        }
        StepCloser(list, base, p, ptr[p], t);
        p := ptr[p];
        NextOf(base, ptr, list, p);
      }
    }

    /** The relinking at the end of free(). */
    method Splice(p: int, bp: int)
      requires p in ptr && ptr[p] in ptr && p != bp && ptr[p] != bp
      requires p in size && bp in size && ptr[p] in size
      modifies this`ptr, this`size, this`freep
      ensures freep == p && size == SizeAfter(old(size), p, bp, old(ptr)[p])
      ensures ptr == PtrAfter(old(ptr), p, bp, p + old(size)[p] == bp,
                              bp + old(size)[bp] == old(ptr)[p])
    {
      if bp + size[bp] == ptr[p] {
        size := size[bp := size[bp] + size[ptr[p]]];
        ptr := ptr[bp := ptr[ptr[p]]];
      } else {
        ptr := ptr[bp := ptr[p]];
      }
      if p + size[p] == bp {
        size := size[p := size[p] + size[bp]];
        ptr := ptr[p := ptr[bp]];
      } else {
        ptr := ptr[p := bp];
      }
      freep := p;
    }

    /** free(): bp is the header of the block, ap - 1. */
    method Free(bp: int)
      requires Valid() && bp in live
      modifies this`ptr, this`size, this`freep, this`list, this`live, this`owner
      ensures Valid() && freep != 0
      ensures live == old(live) - {bp} && owner.Keys == old(owner).Keys
      ensures Framed(old(ptr), old(size), old(live), old(owner), ptr, size, live, owner)
      ensures bp in owner && owner[bp] in list - {base}
      ensures bp in old(size) && owner[bp] in size && size[owner[bp]] >= old(size)[bp]
    {
      hide Ok, Framed;
      var p := FindPlace(bp);
      ghost var list', owner' := FreeOk(base, ptr, size, list, live, owner, p, bp);
      Splice(p, bp);
      list, live, owner := list', live - {bp}, owner';
    }

    /** morecore(): returns 0 if sbrk fails, else the new freep. */
    method Morecore(nunits: nat, answer: int) returns (r: int)
      requires Valid() && freep != 0 && nunits >= 1 && SbrkOk(nunits, answer)
      modifies this
      ensures Valid() && freep != 0 && live == old(live)
      ensures Framed(old(ptr), old(size), old(live), old(owner), ptr, size, live, owner)
      ensures answer == 0 ==> r == 0 && list == old(list) && owner == old(owner) && size == old(size)
      ensures answer != 0 ==> r == freep && owner.Keys == Grown(old(owner), answer, Request(nunits)).Keys
      ensures granted == if answer == 0 then old(granted) else AfterSbrk(old(granted), answer, nunits)
      ensures answer != 0 ==> exists b :: b in list && b in size && size[b] >= nunits
    {
      hide Ok, Framed;
      if answer == 0 {
        FramedHere(ptr, size, live, owner, ptr, size);
        return 0;
      }
      var nu := Request(nunits);
      GrownOk(base, ptr, size, list, live, owner, answer, nu);
      granted := AfterSbrk(granted, answer, nunits);
      size := size[answer := nu];
      live, owner := live[answer := nu], Grown(owner, answer, nu);
      ghost var size1, live1, owner1 := size, live, owner;
      Free(answer);
      assert live == old(live);
      ghost var b := owner[answer];
      assert b in list && b in size && size[b] >= nunits;
      FramedTwice(old(ptr), old(size), old(live), old(owner), old(ptr), size1, live1, owner1,
                  ptr, size, live, owner);
      r := freep;
    }

    lemma Entry(x: int)
      requires Valid() && freep != 0 && x in list
      ensures x in ptr && x in size && x >= base && IsNext(list, base, x, ptr[x])
      ensures base in list && base in size && size[base] == 0
      ensures forall y :: y in list ==> base <= y && y in size
    {
      NextOf(base, ptr, list, x);
    }

    /** The exact fit malloc found behind prevp. */
    method TakeWhole(prevp: int)
      requires Valid() && freep != 0 && prevp in list && prevp in ptr && ptr[prevp] != base
      modifies this`ptr, this`freep, this`list, this`live
      ensures Valid() && freep != 0
      ensures var p := old(ptr)[prevp];
        p > base && p !in old(live) && p in size && live == old(live)[p := size[p]]
      ensures Framed(old(ptr), old(size), old(live), old(owner), ptr, size, live, owner)
    {
      hide Ok, Framed;
      TakenWholeOk(base, ptr, size, list, live, owner, prevp);
      ghost var p := ptr[prevp];
      ptr := ptr[prevp := ptr[ptr[prevp]]];
      list, live := list - {p}, live[p := size[p]];
      freep := prevp;
    }

    /** The larger fit p: its tail is handed out. */
    method TakeTail(prevp: int, fit: int, nunits: nat) returns (p: int)
      requires Valid() && freep != 0 && prevp in list
      requires fit in list && fit in size && 1 <= nunits < size[fit]
      modifies this`size, this`freep, this`live, this`owner
      ensures Valid() && freep != 0
      ensures p > base && p !in old(live) && live == old(live)[p := nunits]
      ensures owner.Keys == old(owner).Keys
      ensures Framed(old(ptr), old(size), old(live), old(owner), ptr, size, live, owner)
    {
      hide Ok, Framed;
      TakenTailOk(base, ptr, size, list, live, owner, fit, nunits);
      assert prevp != 0 by {
        Entry(prevp);
      }
      p := fit;
      size := size[p := size[p] - nunits];
      p := p + size[p];
      size := size[p := nunits];
      owner, live := Given(owner, p, nunits), live[p := nunits];
      freep := prevp;
    }

    /** The fit malloc found at p, behind prevp. */
    method Take(prevp: int, p: int, nunits: nat) returns (ap: int)
      requires Valid() && freep != 0 && prevp in list && prevp in ptr && ptr[prevp] == p
      requires p in list && p in size && 1 <= nunits <= size[p] && p != base
      modifies this`ptr, this`size, this`freep, this`list, this`live, this`owner
      ensures Valid() && freep != 0 && ap > base
      ensures ap - 1 !in old(live) && live == old(live)[ap - 1 := nunits]
      ensures owner.Keys == old(owner).Keys
      ensures Framed(old(ptr), old(size), old(live), old(owner), ptr, size, live, owner)
    {
      hide Ok, Framed;
      if size[p] == nunits {
        TakeWhole(prevp);
        ap := p + 1;
      } else {
        var q := TakeTail(prevp, p, nunits);
        ap := q + 1;
      }
    }

    /** malloc's first call makes the list of base alone. */
    method Start()
      requires Valid() && freep == 0
      modifies this`ptr, this`size, this`freep
      ensures Valid() && freep == base
    {
      ptr := ptr[base := base];
      freep := base;
      size := size[base := 0];
      assert IsNext(list, base, base, ptr[base]);
    }

    /** malloc(): returns the payload address, or 0. answer is what sbrk says if it
        is asked, which happens at most once and only when no free block fits. */
    method Malloc(nbytes: nat, answer: int) returns (ap: int, ghost asked: bool)
      requires Valid() && nbytes < 0x1_0000_0000 && SbrkOk(Units(nbytes), answer)
      modifies this
      ensures Valid() && freep != 0
      ensures Framed(old(ptr), old(size), old(live), old(owner), ptr, size, live, owner)
      ensures ap == 0 ==> asked && answer == 0 && live == old(live)
      ensures ap != 0 ==> ap > base && ap - 1 !in old(live) && live == old(live)[ap - 1 := Units(nbytes)]
      ensures asked ==> old(freep == 0 || forall b :: b in list ==> size[b] < Units(nbytes))
      ensures owner.Keys == if asked && answer != 0
                            then Grown(old(owner), answer, Request(Units(nbytes))).Keys
                            else old(owner).Keys
      ensures granted == if asked && answer != 0 then AfterSbrk(old(granted), answer, Units(nbytes)) else old(granted)
    {
      hide Ok, Framed, AfterSbrk, Grown;
      var nunits := Units(nbytes);
      if freep == 0 {
        Start();
      }
      FramedHere(old(ptr), old(size), old(live), old(owner), ptr, size);
      asked := false;
      var prevp := freep;
      Entry(prevp);
      var p := ptr[prevp];
      PassedStart(list, base, freep, p);
      while true
        invariant Valid() && freep != 0 && live == old(live)
        invariant Framed(old(ptr), old(size), old(live), old(owner), ptr, size, live, owner)
        invariant prevp in list && prevp in ptr && ptr[prevp] == p && p in list && p in size
        invariant forall y :: y in Passed(list, freep, p, p <= freep) ==> y in size && size[y] < nunits
        invariant !asked ==> owner == old(owner) && (old(freep) != 0 ==> list == old(list) && size == old(size))
        invariant asked ==> answer != 0 && exists y :: y in list && y in size && size[y] >= nunits
        invariant asked ==> old(freep == 0 || forall b :: b in list ==> size[b] < Units(nbytes))
        invariant asked ==> owner.Keys == Grown(old(owner), answer, Request(nunits)).Keys
        invariant granted == if asked then AfterSbrk(old(granted), answer, nunits) else old(granted)
        decreases !asked, list - Passed(list, freep, p, p <= freep)
      {
        Entry(p);
        if size[p] >= nunits {
          ghost var ptr1, size1, owner1 := ptr, size, owner;
          ap := Take(prevp, p, nunits);
          FramedTwice(old(ptr), old(size), old(live), old(owner), ptr1, size1, old(live), owner1,
                      ptr, size, live, owner);
          return;
        }
        if p == freep {
          assert forall y :: y in list ==> y in Passed(list, freep, p, true) || y == p;
          assert !asked;
          ghost var ptr1, size1, owner1 := ptr, size, owner;
          asked := true;
          p := Morecore(nunits, answer);
          FramedTwice(old(ptr), old(size), old(live), old(owner), ptr1, size1, old(live), owner1,
                      ptr, size, live, owner);
          if p == 0 {
            return 0, true;
          }
          Entry(p);
          PassedStart(list, base, freep, ptr[p]);
        } else {
          Entry(p);
          PassedStep(list, base, freep, p, ptr[p], p <= freep);
        }
        prevp := p;
        p := ptr[p];
      }
    }
  }
}
