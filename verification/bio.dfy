// The buffer cache of xv6 (CLab/xv6/kernel/bio.c): a ring of buffers in order of use,
// and the contents that it stands for.
//
// Buffers are 0 to n - 1, and n is bcache.head. Each method is one section under
// bcache.lock, or what the holder of a buffer's sleeplock does with it.

module BufferCache {
  type Block = seq<int>

  // ---------------------------------------------------------------- the ring

  /** The i-th member of the ring: the head before and after the buffers in order. */
  function At(order: seq<int>, head: int, i: int): int {
    if 1 <= i <= |order| then order[i - 1] else head
  }

  ghost predicate Distinct(order: seq<int>, n: int) {
    && (forall i :: 0 <= i < |order| ==> 0 <= order[i] < n)
    && (forall i, j :: 0 <= i < j < |order| ==> order[i] != order[j])
  }

  ghost predicate Joined(next: seq<int>, prev: seq<int>, x: int, y: int) {
    0 <= x < |next| && 0 <= y < |prev| && next[x] == y && prev[y] == x
  }

  /** next and prev make a ring of head and the buffers of order. */
  ghost predicate RingOk(next: seq<int>, prev: seq<int>, order: seq<int>, n: nat) {
    && |next| == |prev| == n + 1 && Distinct(order, n)
    && (forall i {:trigger At(order, n, i)} :: 0 <= i <= |order| ==>
       Joined(next, prev, At(order, n, i), At(order, n, i + 1)))
  }

  function Without(order: seq<int>, k: nat): seq<int>
    requires k < |order|
  {
    order[..k] + order[k + 1..]
  }

  /** b->next->prev = b->prev; b->prev->next = b->next */
  lemma Unlinked(next: seq<int>, prev: seq<int>, order: seq<int>, n: nat, k: nat)
    requires RingOk(next, prev, order, n) && k < |order|
    ensures var b := order[k];
            0 <= b < n && 0 <= next[b] <= n && 0 <= prev[b] <= n &&
            RingOk(next[prev[b] := next[b]], prev[next[b] := prev[b]], Without(order, k), n)
  {
    var b := order[k];
    assert At(order, n, k + 1) == b;
    assert Joined(next, prev, At(order, n, k), b) && Joined(next, prev, b, At(order, n, k + 2));
    var t := Without(order, k);
    var next', prev' := next[prev[b] := next[b]], prev[next[b] := prev[b]];
    forall i | 0 <= i <= |t| ensures Joined(next', prev', At(t, n, i), At(t, n, i + 1)) {
      UnlinkedAt(next, prev, order, n, k, i);
    }
  }

  lemma WithoutAt(order: seq<int>, n: nat, k: nat, i: int)
    requires k < |order| && 0 <= i <= |order|
    ensures At(Without(order, k), n, i) == At(order, n, if i <= k then i else i + 1)
  {
  }

  lemma AtApart(order: seq<int>, n: nat, i: int, j: int)
    requires Distinct(order, n) && 0 <= i <= |order| && 0 <= j <= |order| && i != j
    ensures At(order, n, i) != At(order, n, j)
  {
  }

  lemma UnlinkedAt(next: seq<int>, prev: seq<int>, order: seq<int>, n: nat, k: nat, i: nat)
    requires RingOk(next, prev, order, n) && k < |order| && i <= |order| - 1
    requires var b := order[k]; 0 <= next[b] <= n && 0 <= prev[b] <= n
    ensures var b := order[k]; var t := Without(order, k);
            Joined(next[prev[b] := next[b]], prev[next[b] := prev[b]], At(t, n, i), At(t, n, i + 1))
  {
    hide At, Without;
    WithoutAt(order, n, k, i);
    WithoutAt(order, n, k, i + 1);
    MiddleOf(next, prev, order, n, k);
    var j := if i <= k then i else i + 1;
    assert Joined(next, prev, At(order, n, j), At(order, n, j + 1));
    if i != k {
      AtApart(order, n, j, k);
      NextApart(order, n, j + 1, k + 2);
    }
  }

  lemma MiddleOf(next: seq<int>, prev: seq<int>, order: seq<int>, n: nat, k: nat)
    requires RingOk(next, prev, order, n) && k < |order|
    ensures var b := order[k]; 0 <= b <= n && |next| == |prev| == n + 1
    ensures next[order[k]] == At(order, n, k + 2) && prev[order[k]] == At(order, n, k)
  {
    assert At(order, n, k + 1) == order[k];
    assert Joined(next, prev, At(order, n, k), At(order, n, k + 1));
    assert Joined(next, prev, At(order, n, k + 1), At(order, n, k + 2));
  }

  lemma NextApart(order: seq<int>, n: nat, i: int, j: int)
    requires Distinct(order, n) && 1 <= i <= |order| + 1 && 1 <= j <= |order| + 1 && i != j
    ensures At(order, n, i) != At(order, n, j)
  {
  }

  /** b->next = head.next; b->prev = head; head.next->prev = b; head.next = b */
  lemma Linked(next: seq<int>, prev: seq<int>, order: seq<int>, n: nat, b: int)
    requires RingOk(next, prev, order, n) && 0 <= b < n && b !in order
    ensures 0 <= next[n] <= n
    ensures RingOk(next[b := next[n]][n := b], prev[b := n][next[n] := b], [b] + order, n)
  {
    assert Joined(next, prev, At(order, n, 0), At(order, n, 1));
    var t := [b] + order;
    var next', prev' := next[b := next[n]][n := b], prev[b := n][next[n] := b];
    forall i | 0 <= i <= |t| ensures Joined(next', prev', At(t, n, i), At(t, n, i + 1)) {
      LinkedAt(next, prev, order, n, b, i);
    }
  }

  /** The members of the ring with b in front, one place further each. */
  lemma FrontAt(order: seq<int>, n: nat, b: int, i: int)
    requires 2 <= i <= |order| + 2
    ensures At([b] + order, n, i) == At(order, n, i - 1)
  {
  }

  lemma NotIn(order: seq<int>, n: nat, b: int, i: int)
    requires b !in order && b != n && 1 <= i <= |order| + 1
    ensures At(order, n, i) != b
  {
    if i <= |order| {
      assert order[i - 1] in order;
    }
  }

  lemma LinkedAt(next: seq<int>, prev: seq<int>, order: seq<int>, n: nat, b: int, i: nat)
    requires RingOk(next, prev, order, n) && 0 <= b < n && b !in order && i <= |order| + 1 && 0 <= next[n] <= n
    ensures Joined(next[b := next[n]][n := b], prev[b := n][next[n] := b],
                   At([b] + order, n, i), At([b] + order, n, i + 1))
  {
    var t := [b] + order;
    assert t[0] == b;
    assert At(t, n, 0) == n && At(t, n, 1) == b && At(order, n, 0) == n;
    assert Joined(next, prev, At(order, n, 0), At(order, n, 0 + 1));
    hide At;
    if i == 1 {
      FrontAt(order, n, b, 2);
      NotIn(order, n, b, 1);
    } else if i >= 2 {
      FrontAt(order, n, b, i);
      FrontAt(order, n, b, i + 1);
      assert Joined(next, prev, At(order, n, i - 1), At(order, n, i - 1 + 1));
      AtApart(order, n, i - 1, 0);
      NextApart(order, n, i, 1);
      NotIn(order, n, b, i - 1);
      NotIn(order, n, b, i);
    }
  }

  // ---------------------------------------------------------------- the cache

  /** order is the ring from the most to the least recently used; stamp[b] is when b was
      last moved to the front, and now is the next such time (proof state). */
  datatype Cache = Cache(n: nat, next: seq<int>, prev: seq<int>, dev: seq<int>, block: seq<int>, valid: seq<bool>,
                         refcnt: seq<int>, data: seq<Block>, disk: map<(int, int), Block>,
                         ghost order: seq<int>, ghost stamp: seq<int>, ghost now: int)

  ghost predicate Shape(c: Cache) {
    |c.dev| == |c.block| == |c.valid| == |c.refcnt| == |c.data| == |c.stamp| == c.n
  }

  predicate IsFor(c: Cache, b: int, d: int, blk: int) {
    0 <= b < |c.dev| && b < |c.block| && c.dev[b] == d && c.block[b] == blk
  }

  predicate Holds(c: Cache, b: int, d: int, blk: int) {
    IsFor(c, b, d, blk) && b < |c.valid| && b < |c.data| && c.valid[b]
  }

  /** Each block has at most one buffer. Device 0 is none. */
  ghost predicate OneEach(c: Cache) {
    forall i, j, d, blk {:trigger IsFor(c, i, d, blk), IsFor(c, j, d, blk)} ::
      d != 0 && IsFor(c, i, d, blk) && IsFor(c, j, d, blk) ==> i == j
  }

  function OnDisk(c: Cache, d: int, blk: int): Block {
    if (d, blk) in c.disk then c.disk[(d, blk)] else []
  }

  /** The buffer's contents are on the disk, or it has none. */
  ghost predicate Clean(c: Cache, b: int)
    requires Shape(c) && 0 <= b < c.n
  {
    c.valid[b] && c.dev[b] != 0 ==> c.data[b] == OnDisk(c, c.dev[b], c.block[b])
  }

  ghost predicate OrderOk(c: Cache)
    requires Shape(c)
  {
    && RingOk(c.next, c.prev, c.order, c.n) && |c.order| == c.n
    && (forall b :: 0 <= b < c.n ==> b in c.order && c.stamp[b] < c.now)
    && (forall i, j :: 0 <= i < j < c.n ==> c.stamp[c.order[j]] < c.stamp[c.order[i]])
  }

  ghost predicate Ok(c: Cache) {
    && Shape(c) && OneEach(c) && OrderOk(c)
    && (forall b {:trigger c.refcnt[b]} :: 0 <= b < c.n ==> c.refcnt[b] >= 0 && (c.refcnt[b] == 0 ==> Clean(c, b)))
  }

  /** What the cache and the disk together hold for a block. */
  ghost function View(c: Cache, d: int, blk: int): Block {
    if exists b :: Holds(c, b, d, blk) then var b :| Holds(c, b, d, blk); c.data[b] else OnDisk(c, d, blk)
  }

  ghost predicate SameView(c: Cache, t: Cache) {
    forall d, blk :: d != 0 ==> View(t, d, blk) == View(c, d, blk)
  }

  lemma ViewIs(c: Cache, b: int, d: int, blk: int)
    requires OneEach(c) && d != 0 && Holds(c, b, d, blk)
    ensures View(c, d, blk) == c.data[b]
  {
  }

  lemma ViewOnDisk(c: Cache, d: int, blk: int)
    requires forall b :: !Holds(c, b, d, blk)
    ensures View(c, d, blk) == OnDisk(c, d, blk)
  {
  }

  /** bget found the block. */
  ghost function Taken(c: Cache, b: int): Cache
    requires 0 <= b < |c.refcnt|
  {
    c.(refcnt := c.refcnt[b := c.refcnt[b] + 1])
  }

  /** bget recycles a buffer. */
  ghost function Recycled(c: Cache, b: int, d: int, blk: int): Cache
    requires Shape(c) && 0 <= b < c.n
  {
    c.(dev := c.dev[b := d], block := c.block[b := blk], valid := c.valid[b := false], refcnt := c.refcnt[b := 1])
  }

  lemma TakenOk(c: Cache, b: int)
    requires Ok(c) && 0 <= b < c.n
    ensures Ok(Taken(c, b)) && SameView(c, Taken(c, b))
  {
    hide RingOk;
    var t := Taken(c, b);
    forall i, d, blk ensures IsFor(t, i, d, blk) <==> IsFor(c, i, d, blk) {
    }
    forall d, blk | d != 0 ensures View(t, d, blk) == View(c, d, blk) {
      SameHolders(c, t, d, blk);
    }
    forall i | 0 <= i < c.n ensures t.refcnt[i] >= 0 && (t.refcnt[i] == 0 ==> Clean(t, i)) {
      assert c.refcnt[i] >= 0;
    }
  }

  /** Views are the same where the same buffers hold the same data. */
  lemma SameHolders(c: Cache, t: Cache, d: int, blk: int)
    requires OneEach(c) && d != 0 && OnDisk(t, d, blk) == OnDisk(c, d, blk)
    requires forall b :: Holds(t, b, d, blk) <==> Holds(c, b, d, blk)
    requires forall b :: Holds(c, b, d, blk) ==> b < |t.data| && t.data[b] == c.data[b]
    ensures View(t, d, blk) == View(c, d, blk)
  {
  }

  lemma RecycledOk(c: Cache, b: int, d: int, blk: int)
    requires Ok(c) && 0 <= b < c.n && c.refcnt[b] == 0 && d != 0 && forall i :: !IsFor(c, i, d, blk)
    ensures Ok(Recycled(c, b, d, blk)) && SameView(c, Recycled(c, b, d, blk))
  {
    hide RingOk;
    var t := Recycled(c, b, d, blk);
    forall i, e, x ensures IsFor(t, i, e, x) <==> if i == b then e == d && x == blk else IsFor(c, i, e, x) {
    }
    forall e, x | e != 0 ensures View(t, e, x) == View(c, e, x) {
      if Holds(c, b, e, x) {
        ViewIs(c, b, e, x);
        assert Clean(c, b);
        assert forall i :: !Holds(t, i, e, x);
        ViewOnDisk(t, e, x);
      } else {
        SameHolders(c, t, e, x);
      }
    }
    forall i | 0 <= i < c.n ensures t.refcnt[i] >= 0 && (t.refcnt[i] == 0 ==> Clean(t, i)) {
      assert c.refcnt[i] >= 0;
    }
  }

  /** b's data is x from now on. */
  ghost function Filled(c: Cache, b: int, x: Block): Cache
    requires 0 <= b < |c.data| && b < |c.valid|
  {
    c.(data := c.data[b := x], valid := c.valid[b := true])
  }

  lemma FilledOk(c: Cache, b: int, x: Block)
    requires Ok(c) && 0 <= b < c.n && c.refcnt[b] > 0 && c.dev[b] != 0
    ensures Ok(Filled(c, b, x))
    ensures forall e, y :: e != 0 ==> View(Filled(c, b, x), e, y) == if IsFor(c, b, e, y) then x else View(c, e, y)
  {
    hide RingOk;
    var t := Filled(c, b, x);
    forall i, e, y ensures IsFor(t, i, e, y) <==> IsFor(c, i, e, y) {
    }
    forall e, y | e != 0 ensures View(t, e, y) == if IsFor(c, b, e, y) then x else View(c, e, y) {
      if IsFor(c, b, e, y) {
        ViewIs(t, b, e, y);
      } else {
        SameHolders(c, t, e, y);
      }
    }
    forall i | 0 <= i < c.n ensures t.refcnt[i] >= 0 && (t.refcnt[i] == 0 ==> Clean(t, i)) {
      assert c.refcnt[i] >= 0;
    }
  }

  ghost function Written(c: Cache, b: int): Cache
    requires Shape(c) && 0 <= b < c.n
  {
    c.(disk := c.disk[(c.dev[b], c.block[b]) := c.data[b]])
  }

  lemma WrittenOk(c: Cache, b: int)
    requires Ok(c) && 0 <= b < c.n && c.refcnt[b] > 0 && c.valid[b] && c.dev[b] != 0
    ensures Ok(Written(c, b)) && SameView(c, Written(c, b)) && Clean(Written(c, b), b)
  {
    hide RingOk;
    var t := Written(c, b);
    forall i, e, y ensures IsFor(t, i, e, y) <==> IsFor(c, i, e, y) {
    }
    forall e, y | e != 0 ensures View(t, e, y) == View(c, e, y) {
      if IsFor(c, b, e, y) {
        ViewIs(t, b, e, y);
        ViewIs(c, b, e, y);
      } else {
        SameHolders(c, t, e, y);
      }
    }
    forall i | 0 <= i < c.n ensures t.refcnt[i] >= 0 && (t.refcnt[i] == 0 ==> Clean(t, i)) {
      assert c.refcnt[i] >= 0;
      if c.refcnt[i] == 0 && c.valid[i] && c.dev[i] != 0 {
        assert IsFor(c, i, c.dev[i], c.block[i]) && IsFor(c, b, c.dev[b], c.block[b]);
      }
    }
  }

  /** One reference less. */
  ghost function Dropped(c: Cache, b: int): Cache
    requires 0 <= b < |c.refcnt|
  {
    c.(refcnt := c.refcnt[b := c.refcnt[b] - 1])
  }

  lemma DroppedOk(c: Cache, b: int)
    requires Ok(c) && 0 <= b < c.n && c.refcnt[b] > 0 && (c.refcnt[b] == 1 ==> Clean(c, b))
    ensures Ok(Dropped(c, b)) && SameView(c, Dropped(c, b))
  {
    hide RingOk;
    var t := Dropped(c, b);
    forall i, d, blk ensures IsFor(t, i, d, blk) <==> IsFor(c, i, d, blk) {
    }
    forall d, blk | d != 0 ensures View(t, d, blk) == View(c, d, blk) {
      SameHolders(c, t, d, blk);
    }
    forall i | 0 <= i < c.n ensures t.refcnt[i] >= 0 && (t.refcnt[i] == 0 ==> Clean(t, i)) {
      assert c.refcnt[i] >= 0;
    }
  }

  /** The k-th buffer of the ring becomes the first. */
  ghost function Moved(c: Cache, k: nat): Cache
    requires k < |c.order| && |c.next| == |c.prev| == c.n + 1 && 0 <= c.order[k] < c.n && c.order[k] < |c.stamp|
    requires 0 <= c.next[c.order[k]] <= c.n && 0 <= c.prev[c.order[k]] <= c.n
    requires var b := c.order[k]; 0 <= c.next[c.prev[b] := c.next[b]][c.n] <= c.n
  {
    var b := c.order[k];
    var next, prev := c.next[c.prev[b] := c.next[b]], c.prev[c.next[b] := c.prev[b]];
    c.(next := next[b := next[c.n]][c.n := b], prev := prev[b := c.n][next[c.n] := b],
       order := [b] + Without(c.order, k), stamp := c.stamp[b := c.now], now := c.now + 1)
  }

  lemma WithoutElems(order: seq<int>, n: int, k: nat)
    requires Distinct(order, n) && k < |order|
    ensures forall x :: x in Without(order, k) <==> x in order && x != order[k]
    ensures Distinct(Without(order, k), n)
  {
    var t := Without(order, k);
    forall x | x in order && x != order[k] ensures x in t {
      var i :| 0 <= i < |order| && order[i] == x;
      assert t[if i < k then i else i - 1] == x;
    }
    forall i | 0 <= i < |t| ensures t[i] == order[if i < k then i else i + 1] {
    }
  }

  lemma MovedPre(c: Cache, k: nat)
    requires Ok(c) && k < c.n
    ensures |c.order| == c.n && |c.next| == |c.prev| == c.n + 1 && 0 <= c.order[k] < c.n && |c.stamp| == c.n
    ensures 0 <= c.next[c.order[k]] <= c.n && 0 <= c.prev[c.order[k]] <= c.n
    ensures var b := c.order[k]; 0 <= c.next[c.prev[b] := c.next[b]][c.n] <= c.n
    ensures RingOk(Moved(c, k).next, Moved(c, k).prev, Moved(c, k).order, c.n)
  {
    Unlinked(c.next, c.prev, c.order, c.n, k);
    WithoutElems(c.order, c.n, k);
    var b := c.order[k];
    Linked(c.next[c.prev[b] := c.next[b]], c.prev[c.next[b] := c.prev[b]], Without(c.order, k), c.n, b);
  }

  lemma MovedAt(order: seq<int>, n: nat, k: nat, i: nat)
    requires Distinct(order, n) && k < |order| && 1 <= i < |order|
    ensures var t := [order[k]] + Without(order, k);
            |t| == |order| && t[i] == order[if i - 1 < k then i - 1 else i] && t[i] != order[k]
  {
  }

  lemma MovedElems(order: seq<int>, n: nat, k: nat)
    requires Distinct(order, n) && k < |order| == n
    requires forall b :: 0 <= b < n ==> b in order
    ensures var t := [order[k]] + Without(order, k);
            |t| == n && Distinct(t, n) && (forall b :: 0 <= b < n ==> b in t)
  {
    WithoutElems(order, n, k);
    var w := Without(order, k);
    var t := [order[k]] + w;
    forall b | 0 <= b < n ensures b in t {
      assert b in order;
      if b != order[k] {
        assert b in w;
      } else {
        assert t[0] == b;
      }
    }
    forall i, j | 0 <= i < j < n ensures t[i] != t[j] {
      MovedAt(order, n, k, j);
      if i >= 1 {
        MovedAt(order, n, k, i);
      }
    }
    forall i | 0 <= i < n ensures 0 <= t[i] < n {
      if i >= 1 {
        MovedAt(order, n, k, i);
      }
    }
  }

  lemma MovedStamps(order: seq<int>, stamp: seq<int>, now: int, n: nat, k: nat, i: nat, j: nat)
    requires Distinct(order, n) && k < |order| == n == |stamp| && i < j < n
    requires forall b :: 0 <= b < n ==> stamp[b] < now
    requires forall i, j :: 0 <= i < j < n ==> stamp[order[j]] < stamp[order[i]]
    requires var t := [order[k]] + Without(order, k); |t| == n && Distinct(t, n)
    ensures var t := [order[k]] + Without(order, k); var s := stamp[order[k] := now]; s[t[j]] < s[t[i]]
  {
    MovedAt(order, n, k, j);
    if i >= 1 {
      MovedAt(order, n, k, i);
    }
    hide Without, Distinct;
  }

  lemma MovedOrder(order: seq<int>, stamp: seq<int>, now: int, n: nat, k: nat)
    requires Distinct(order, n) && k < |order| == n == |stamp|
    requires forall b :: 0 <= b < n ==> b in order && stamp[b] < now
    requires forall i, j :: 0 <= i < j < n ==> stamp[order[j]] < stamp[order[i]]
    ensures var t := [order[k]] + Without(order, k); var s := stamp[order[k] := now];
            |t| == n && Distinct(t, n) && (forall b :: 0 <= b < n ==> b in t && s[b] < now + 1) &&
            (forall i, j :: 0 <= i < j < n ==> s[t[j]] < s[t[i]])
  {
    MovedElems(order, n, k);
    forall i, j | 0 <= i < j < n
      ensures var t := [order[k]] + Without(order, k); var s := stamp[order[k] := now]; s[t[j]] < s[t[i]]
    {
      MovedStamps(order, stamp, now, n, k, i, j);
    }
  }

  lemma MovedOk(c: Cache, k: nat)
    requires Ok(c) && k < c.n && |c.order| == c.n && |c.next| == |c.prev| == c.n + 1 && 0 <= c.order[k] < c.n
    requires |c.stamp| == c.n && 0 <= c.next[c.order[k]] <= c.n && 0 <= c.prev[c.order[k]] <= c.n
    requires var b := c.order[k]; 0 <= c.next[c.prev[b] := c.next[b]][c.n] <= c.n
    ensures Ok(Moved(c, k)) && SameView(c, Moved(c, k))
  {
    MovedPre(c, k);
    MovedOrder(c.order, c.stamp, c.now, c.n, k);
    hide RingOk;
    var t := Moved(c, k);
    forall i, d, blk ensures IsFor(t, i, d, blk) <==> IsFor(c, i, d, blk) {
    }
    forall d, blk | d != 0 ensures View(t, d, blk) == View(c, d, blk) {
      SameHolders(c, t, d, blk);
    }
    forall i | 0 <= i < c.n ensures t.refcnt[i] >= 0 && (t.refcnt[i] == 0 ==> Clean(t, i)) {
      assert c.refcnt[i] >= 0;
    }
  }

  lemma NextInRing(c: Cache, i: nat)
    requires Ok(c) && i <= c.n
    ensures |c.order| == c.n && |c.next| == |c.prev| == c.n + 1
    ensures var x := At(c.order, c.n, i); 0 <= x <= c.n && c.next[x] == At(c.order, c.n, i + 1)
    ensures var y := At(c.order, c.n, i + 1); 0 <= y <= c.n && c.prev[y] == At(c.order, c.n, i)
    ensures At(c.order, c.n, i) == c.n <==> i == 0
    ensures At(c.order, c.n, i + 1) == c.n <==> i == c.n
  {
    assert Joined(c.next, c.prev, At(c.order, c.n, i), At(c.order, c.n, i + 1));
  }

  lemma ShapeOf(c: Cache)
    requires Ok(c)
    ensures Shape(c) && |c.order| == c.n
  {
  }

  class BCache {
    var c: Cache

    /** binit */
    constructor (n: nat, disk: map<(int, int), Block>)
      ensures Ok(c) && c.n == n && c.disk == disk && forall d, blk :: View(c, d, blk) == OnDisk(c, d, blk)
    {
      var next, prev := seq(n + 1, _ => n), seq(n + 1, _ => n);
      ghost var order: seq<int> := [];
      for b := 0 to n
        invariant RingOk(next, prev, order, n) && |order| == b
        invariant forall k :: 0 <= k < b ==> order[k] == b - 1 - k
      {
        Linked(next, prev, order, n, b);
        next, prev := next[b := next[n]], prev[b := n];
        prev := prev[next[n] := b];
        next := next[n := b];
        order := [b] + order;
      }
      c := Cache(n, next, prev, seq(n, _ => 0), seq(n, _ => 0), seq(n, _ => false), seq(n, _ => 0), seq(n, _ => []),
                 disk,
                 order, seq(n, i => i), n);
      forall b: int | 0 <= b < n ensures b in order {
        assert order[n - 1 - b] == b;
      }
    }

    /** bget: the block's buffer, or the least recently used of those not in use. Without
        either it panics. */
    method Bget(dev: int, block: int) returns (b: int)
      requires Ok(c) && dev != 0
      requires Shape(c) && exists i :: 0 <= i < c.n && (IsFor(c, i, dev, block) || c.refcnt[i] == 0)
      modifies this
      ensures Ok(c) && SameView(old(c), c) && c.disk == old(c).disk && c.n == old(c).n
      ensures IsFor(c, b, dev, block) && 0 <= b < c.n && Shape(c) && Shape(old(c))
      ensures IsFor(old(c), b, dev, block) ==> c == Taken(old(c), b)
      ensures !IsFor(old(c), b, dev, block) ==>
        c == Recycled(old(c), b, dev, block) && old(c).refcnt[b] == 0 && (forall i :: !IsFor(old(c), i, dev, block)) &&
        forall i :: 0 <= i < c.n && old(c).refcnt[i] == 0 ==> old(c).stamp[b] <= old(c).stamp[i]
    {
      hide Ok, View, OneEach, OrderOk, RingOk, At;
      ShapeOf(c);
      NextInRing(c, 0);
      b := c.next[c.n];
      ghost var k := 1;
      while b != c.n
        invariant c == old(c) && 1 <= k <= c.n + 1 && b == At(c.order, c.n, k)
        invariant b == c.n <==> k == c.n + 1
        invariant forall i :: 1 <= i < k ==> !IsFor(c, At(c.order, c.n, i), dev, block)
        decreases c.n + 1 - k
      {
        InRing(c, k);
        if c.dev[b] == dev && c.block[b] == block {
          TakenOk(c, b);
          c := c.(refcnt := c.refcnt[b := c.refcnt[b] + 1]);
          return;
        }
        NextInRing(c, k);
        b := c.next[b];
        k := k + 1;
      }
      NoneInRing(c, dev, block);
      NextInRing(c, c.n);
      b := c.prev[c.n];
      k := c.n;
      while b != c.n
        invariant c == old(c) && 0 <= k <= c.n && b == At(c.order, c.n, k)
        invariant b == c.n <==> k == 0
        invariant forall i :: k < i <= c.n ==> InUse(c, At(c.order, c.n, i))
        decreases k
      {
        InRing(c, k);
        if c.refcnt[b] == 0 {
          RecycledOk(c, b, dev, block);
          Oldest(c, k);
          c := c.(dev := c.dev[b := dev]);
          c := c.(block := c.block[b := block]);
          c := c.(valid := c.valid[b := false]);
          c := c.(refcnt := c.refcnt[b := 1]);
          return;
        }
        NextInRing(c, k - 1);
        b := c.prev[b];
        k := k - 1;
      }
      AllInUse(c);
    }

    /** bread: what the cache and the disk hold for the block. */
    method Bread(dev: int, block: int) returns (b: int)
      requires Ok(c) && dev != 0
      requires Shape(c) && exists i :: 0 <= i < c.n && (IsFor(c, i, dev, block) || c.refcnt[i] == 0)
      modifies this
      ensures Ok(c) && SameView(old(c), c) && c.disk == old(c).disk && Shape(c)
      ensures IsFor(c, b, dev, block) && 0 <= b < c.n && c.valid[b] && c.refcnt[b] > 0
      ensures c.data[b] == View(old(c), dev, block)
    {
      hide Ok, View, OneEach;
      ghost var s := c;
      b := Bget(dev, block);
      RefPositive(s, b, dev, block);
      if !c.valid[b] {
        FirstRead(c, b, dev, block);
        c := c.(data := c.data[b := if (dev, block) in c.disk then c.disk[(dev, block)] else []]);
        c := c.(valid := c.valid[b := true]);
      } else {
        ReadAgain(c, b, dev, block);
      }
    }

    /** The holder of a buffer changes its contents. */
    method Store(b: int, x: Block)
      requires Ok(c) && Shape(c) && 0 <= b < c.n && c.refcnt[b] > 0 && c.valid[b] && c.dev[b] != 0
      modifies this
      ensures Ok(c) && c == Filled(old(c), b, x)
      ensures forall d, blk :: d != 0 ==>
        View(c, d, blk) == if IsFor(old(c), b, d, blk) then x else View(old(c), d, blk)
    {
      hide Ok, View;
      FilledOk(c, b, x);
      assert c.valid == c.valid[b := true];
      c := c.(data := c.data[b := x]);
    }

    method Bwrite(b: int)
      requires Ok(c) && Shape(c) && 0 <= b < c.n && c.refcnt[b] > 0 && c.valid[b] && c.dev[b] != 0
      modifies this
      ensures Ok(c) && SameView(old(c), c) && c == Written(old(c), b) && Clean(c, b)
    {
      hide Ok, View;
      WrittenOk(c, b);
      c := c.(disk := c.disk[(c.dev[b], c.block[b]) := c.data[b]]);
    }

    /** brelse. A buffer with changes that are not on the disk must have been pinned. */
    method Brelse(b: int)
      requires Ok(c) && Shape(c) && 0 <= b < c.n && c.refcnt[b] > 0 && (c.refcnt[b] == 1 ==> Clean(c, b))
      modifies this
      ensures Ok(c) && SameView(old(c), c) && Shape(c) && c.n == old(c).n
      ensures c.refcnt == old(c).refcnt[b := old(c).refcnt[b] - 1] && c.disk == old(c).disk
      ensures c.dev == old(c).dev && c.block == old(c).block && c.valid == old(c).valid && c.data == old(c).data
      ensures c.stamp == (if c.refcnt[b] == 0 then old(c).stamp[b := old(c).now] else old(c).stamp)
    {
      hide Ok, View, RingOk, OneEach, OrderOk;
      ghost var s := c;
      DroppedOk(c, b);
      c := c.(refcnt := c.refcnt[b := c.refcnt[b] - 1]);
      if c.refcnt[b] == 0 {
        ghost var t := c;
        ghost var k := PlaceOf(t, b);
        MovedPre(t, k);
        MovedOk(t, k);
        c := c.(prev := c.prev[c.next[b] := c.prev[b]]);
        c := c.(next := c.next[c.prev[b] := c.next[b]]);
        c := c.(next := c.next[b := c.next[c.n]]);
        c := c.(prev := c.prev[b := c.n]);
        c := c.(prev := c.prev[c.next[c.n] := b]);
        c := c.(next := c.next[c.n := b], order := [b] + Without(c.order, k),
                stamp := c.stamp[b := c.now], now := c.now + 1);
        assert c == Moved(t, k);
      }
    }

    method Bpin(b: int)
      requires Ok(c) && Shape(c) && 0 <= b < c.n
      modifies this
      ensures Ok(c) && SameView(old(c), c) && c == Taken(old(c), b)
    {
      hide Ok, View;
      TakenOk(c, b);
      c := c.(refcnt := c.refcnt[b := c.refcnt[b] + 1]);
    }

    method Bunpin(b: int)
      requires Ok(c) && Shape(c) && 0 <= b < c.n && c.refcnt[b] > 0 && (c.refcnt[b] == 1 ==> Clean(c, b))
      modifies this
      ensures Ok(c) && SameView(old(c), c) && c == Dropped(old(c), b)
    {
      hide Ok, View;
      DroppedOk(c, b);
      c := c.(refcnt := c.refcnt[b := c.refcnt[b] - 1]);
    }
  }

  predicate InUse(c: Cache, b: int) {
    0 <= b < |c.refcnt| && c.refcnt[b] != 0
  }

  lemma InRing(c: Cache, k: nat)
    requires Ok(c) && 1 <= k <= c.n
    ensures |c.order| == c.n && At(c.order, c.n, k) == c.order[k - 1] && 0 <= c.order[k - 1] < c.n
  {
  }

  lemma NoneInRing(c: Cache, d: int, blk: int)
    requires Ok(c) && forall i :: 1 <= i < c.n + 1 ==> !IsFor(c, At(c.order, c.n, i), d, blk)
    ensures forall b :: !IsFor(c, b, d, blk)
  {
    forall b ensures !IsFor(c, b, d, blk) {
      if b in c.order {
        var i :| 0 <= i < |c.order| && c.order[i] == b;
        assert At(c.order, c.n, i + 1) == b;
      }
    }
  }

  /** The first buffer not in use from the back is the least recently used of them. */
  lemma Oldest(c: Cache, k: nat)
    requires Ok(c) && 1 <= k <= c.n && forall i :: k < i <= c.n ==> InUse(c, At(c.order, c.n, i))
    ensures forall i :: 0 <= i < c.n && c.refcnt[i] == 0 ==> c.stamp[At(c.order, c.n, k)] <= c.stamp[i]
  {
    forall b | 0 <= b < c.n && c.refcnt[b] == 0 ensures c.stamp[At(c.order, c.n, k)] <= c.stamp[b] {
      assert b in c.order;
      var i :| 0 <= i < |c.order| && c.order[i] == b;
      assert At(c.order, c.n, i + 1) == b;
    }
  }

  lemma AllInUse(c: Cache)
    requires Ok(c) && forall i :: 0 < i <= c.n ==> InUse(c, At(c.order, c.n, i))
    ensures forall b :: 0 <= b < c.n ==> c.refcnt[b] != 0
  {
    forall b | 0 <= b < c.n ensures c.refcnt[b] != 0 {
      assert b in c.order;
      var i :| 0 <= i < |c.order| && c.order[i] == b;
      assert At(c.order, c.n, i + 1) == b;
    }
  }

  ghost function PlaceOf(c: Cache, b: int): (k: nat)
    requires Ok(c) && 0 <= b < c.n
    ensures k < |c.order| == c.n && c.order[k] == b
  {
    assert b in c.order;
    var k :| 0 <= k < |c.order| && c.order[k] == b;
    k
  }

  lemma RefPositive(s: Cache, b: int, dev: int, block: int)
    requires Ok(s) && 0 <= b < s.n
    ensures s.refcnt[b] >= 0
  {
  }

  lemma FirstRead(c: Cache, b: int, dev: int, block: int)
    requires Ok(c) && dev != 0 && 0 <= b < c.n && IsFor(c, b, dev, block) && !c.valid[b] && c.refcnt[b] > 0
    ensures Ok(Filled(c, b, OnDisk(c, dev, block))) && SameView(c, Filled(c, b, OnDisk(c, dev, block)))
    ensures View(c, dev, block) == OnDisk(c, dev, block)
  {
    var x := OnDisk(c, dev, block);
    FilledOk(c, b, x);
    forall i ensures !Holds(c, i, dev, block) {
      assert i != b ==> !IsFor(c, i, dev, block);
    }
    ViewOnDisk(c, dev, block);
  }

  lemma ReadAgain(c: Cache, b: int, dev: int, block: int)
    requires Ok(c) && dev != 0 && 0 <= b < c.n && IsFor(c, b, dev, block) && c.valid[b]
    ensures View(c, dev, block) == c.data[b]
  {
    ViewIs(c, b, dev, block);
  }
}
