// Copies between the kernel and user memory (CLab/xv6/kernel/vm.c): a user's bytes are
// found through the page table, a page at a time.

module UserCopy {
  import opened PageTables

  type Bytes = seq<int>

  // -------------------------------------------------------------------- bytes

  /** Byte k of a word, the lowest first. */
  function Byte(w: int, k: nat): (b: int)
    ensures 0 <= b < 256
    decreases k
  {
    if k == 0 then w % 256 else Byte(w / 256, k - 1)
  }

  function PutByte(w: int, k: nat, b: int): int
    decreases k
  {
    if k == 0 then w / 256 * 256 + b else PutByte(w / 256, k - 1, b) * 256 + w % 256
  }

  lemma {:induction false} PutThenGet(w: int, k: nat, b: int, j: nat)
    requires 0 <= b < 256
    ensures Byte(PutByte(w, k, b), j) == if j == k then b else Byte(w, j)
    decreases k
  {
    var x := PutByte(w, k, b);
    assert x / 256 == (if k == 0 then w / 256 else PutByte(w / 256, k - 1, b));
    assert x % 256 == if k == 0 then b else w % 256;
    if k > 0 && j > 0 {
      PutThenGet(w / 256, k - 1, b, j - 1);
    }
  }

  /** Byte o of a page. */
  function At(page: seq<int>, o: int): (b: int)
    requires |page| == WORDS && 0 <= o < PGSIZE
    ensures 0 <= b < 256
  {
    Byte(page[o / 8], o % 8)
  }

  /** memmove of src to byte o of a page. */
  function Moved(page: seq<int>, o: int, src: Bytes): (p: seq<int>)
    requires |page| == WORDS && 0 <= o && o + |src| <= PGSIZE
    ensures |p| == WORDS
    decreases |src|
  {
    if src == [] then page
    else Moved(page[o / 8 := PutByte(page[o / 8], o % 8, src[0])], o + 1, src[1..])
  }

  predicate AreBytes(s: Bytes) {
    forall i :: 0 <= i < |s| ==> 0 <= s[i] < 256
  }

  /** The bytes of src are where they were put, and every other byte is as it was. */
  lemma {:induction false} MovedAt(page: seq<int>, o: int, src: Bytes, x: int)
    requires |page| == WORDS && 0 <= o && o + |src| <= PGSIZE && AreBytes(src) && 0 <= x < PGSIZE
    ensures At(Moved(page, o, src), x) == if o <= x < o + |src| then src[x - o] else At(page, x)
    decreases |src|
  {
    if src != [] {
      var next := page[o / 8 := PutByte(page[o / 8], o % 8, src[0])];
      MovedAt(next, o + 1, src[1..], x);
      PutThenGet(page[o / 8], o % 8, src[0], x % 8);
      assert x / 8 == o / 8 && x % 8 == o % 8 ==> x == o;
    }
  }

  // -------------------------------------------------------------- user memory

  /** PTE_V and PTE_U. */
  predicate User(w: Pte) {
    Present(w) && w / 16 % 2 == 1
  }

  /** And PTE_W. */
  predicate UserWritable(w: Pte) {
    User(w) && w / 4 % 2 == 1
  }

  ghost predicate CanRead(s: State, r: Frame, va: int) {
    0 <= va < MAXVA && User(Entry(s, r, va / PGSIZE))
  }

  ghost predicate CanWrite(s: State, r: Frame, va: int) {
    0 <= va < MAXVA && UserWritable(Entry(s, r, va / PGSIZE))
  }

  /** The frame of a user's page. */
  ghost function FrameOf(s: State, r: Frame, va: int): Frame {
    Pa(Entry(s, r, va / PGSIZE))
  }

  /** What a user may reach are data frames, one to a page. */
  ghost predicate Private(s: State, r: Frame) {
    && (forall va :: CanRead(s, r, va) ==> FrameOf(s, r, va) in s.held)
    && (forall a, b :: CanRead(s, r, a) && CanRead(s, r, b) && FrameOf(s, r, a) == FrameOf(s, r, b) ==>
          a / PGSIZE == b / PGSIZE)
  }

  /** The byte at a virtual address. */
  ghost function UserByte(s: State, r: Frame, va: int): int {
    var f := FrameOf(s, r, va);
    if f in s.mem && |s.mem[f]| == WORDS then At(s.mem[f], va % PGSIZE) else 0
  }

  /** Only the words of data frames differ. */
  ghost predicate OnlyData(s: State, t: State) {
    t == s.(mem := t.mem) && t.mem.Keys == s.mem.Keys && SameFlat(s, t)
  }

  /** t is s with src in the user's memory from address a. */
  ghost predicate Written(s: State, t: State, r: Frame, a: int, src: Bytes) {
    && OnlyData(s, t)
    && (forall va :: CanRead(s, r, va) ==>
          UserByte(t, r, va) == if a <= va < a + |src| then src[va - a] else UserByte(s, r, va))
    && (forall f :: f in s.mem && t.mem[f] != s.mem[f] ==> Reached(s, r, a, |src|, f))
  }

  /** f is the frame of some byte of the range that the user may write. */
  ghost predicate Reached(s: State, r: Frame, a: int, n: int, f: Frame) {
    exists va :: a <= va < a + n && CanWrite(s, r, va) && FrameOf(s, r, va) == f
  }

  // ------------------------------------------------------------- one page's part

  lemma SameAccess(s: State, t: State, r: Frame, va: int)
    requires SameFlat(s, t)
    ensures CanRead(t, r, va) <==> CanRead(s, r, va)
    ensures CanWrite(t, r, va) <==> CanWrite(s, r, va)
    ensures FrameOf(t, r, va) == FrameOf(s, r, va)
  {
    hide Entry;
  }

  lemma WrittenNone(s: State, r: Frame, a: int)
    ensures Written(s, s, r, a, [])
  {
    hide Entry, UserByte;
  }

  /** The same addresses are a user's, and its frames are still its own. */
  lemma PrivateKept(s: State, t: State, r: Frame)
    requires Private(s, r) && OnlyData(s, t)
    ensures Private(t, r)
  {
    hide Entry;
    forall va ensures CanRead(t, r, va) <==> CanRead(s, r, va) ensures FrameOf(t, r, va) == FrameOf(s, r, va) {
      SameAccess(s, t, r, va);
    }
  }

  lemma UserFrame(s: State, r: Frame, va: int)
    requires Ok(s, {}) && Private(s, r) && CanRead(s, r, va)
    ensures var f := FrameOf(s, r, va); f in s.held && f in s.mem && |s.mem[f]| == WORDS && f > 0
  {
    hide Entry;
    HeldPages(s);
    assert FrameOf(s, r, va) in s.pool;
  }

  /** The words of one of its pages are moved to. */
  ghost function Store(s: State, r: Frame, a: int, chunk: Bytes): State {
    var f := FrameOf(s, r, a);
    if f in s.mem && |s.mem[f]| == WORDS && a % PGSIZE + |chunk| <= PGSIZE then
      Stored(s, f, Moved(s.mem[f], a % PGSIZE, chunk))
    else s
  }

  lemma ByteStored(s: State, r: Frame, a: int, chunk: Bytes, va: int)
    requires FrameOf(s, r, a) in s.mem && |s.mem[FrameOf(s, r, a)]| == WORDS && 0 <= a && a % PGSIZE + |chunk| <= PGSIZE
    requires AreBytes(chunk) && FrameOf(Store(s, r, a, chunk), r, va) == FrameOf(s, r, va)
    requires FrameOf(s, r, va) == FrameOf(s, r, a) ==> va / PGSIZE == a / PGSIZE
    ensures UserByte(Store(s, r, a, chunk), r, va) ==
      if a <= va < a + |chunk| then chunk[va - a] else UserByte(s, r, va)
  {
    hide Entry, Moved, At;
    if va / PGSIZE == a / PGSIZE {
      assert va - a == va % PGSIZE - a % PGSIZE;
      MovedAt(s.mem[FrameOf(s, r, a)], a % PGSIZE, chunk, va % PGSIZE);
    }
  }

  lemma PageWritten(s: State, r: Frame, a: int, chunk: Bytes)
    requires Ok(s, {}) && Private(s, r) && CanWrite(s, r, a) && AreBytes(chunk) && chunk != []
    requires a % PGSIZE + |chunk| <= PGSIZE
    ensures FrameOf(s, r, a) in s.mem && |s.mem[FrameOf(s, r, a)]| == WORDS
    ensures Ok(Store(s, r, a, chunk), {}) && Written(s, Store(s, r, a, chunk), r, a, chunk)
  {
    hide Entry, Ok, UserByte, Moved;
    UserFrame(s, r, a);
    var t := Store(s, r, a, chunk);
    StoredOk(s, FrameOf(s, r, a), Moved(s.mem[FrameOf(s, r, a)], a % PGSIZE, chunk), {});
    forall va | CanRead(s, r, va)
      ensures UserByte(t, r, va) == if a <= va < a + |chunk| then chunk[va - a] else UserByte(s, r, va)
    {
      SameAccess(s, t, r, va);
      ByteStored(s, r, a, chunk, va);
    }
  }

  /** What is written next comes after what was. */
  lemma WrittenOn(s0: State, s: State, t: State, r: Frame, a: int, src: Bytes, chunk: Bytes)
    requires Written(s0, s, r, a, src) && Written(s, t, r, a + |src|, chunk)
    ensures Written(s0, t, r, a, src + chunk)
  {
    hide Entry, UserByte;
    forall va ensures CanRead(s, r, va) <==> CanRead(s0, r, va) {
      SameAccess(s0, s, r, va);
    }
    forall f | f in s0.mem && t.mem[f] != s0.mem[f] ensures Reached(s0, r, a, |src + chunk|, f) {
      if s.mem[f] == s0.mem[f] {
        var va :| a + |src| <= va < a + |src| + |chunk| && CanWrite(s, r, va) && FrameOf(s, r, va) == f;
        SameAccess(s0, s, r, va);
      }
    }
  }

  // ---------------------------------------------------------------- the copies

  ghost predicate Writable(s: State, r: Frame, a: int, n: int) {
    forall va :: a <= va < a + n ==> CanWrite(s, r, va)
  }

  ghost predicate Readable(s: State, r: Frame, a: int, n: int) {
    forall va :: a <= va < a + n ==> CanRead(s, r, va)
  }

  ghost function UserBytes(s: State, r: Frame, a: int, n: nat): (b: Bytes)
    ensures |b| == n && forall i :: 0 <= i < n ==> b[i] == UserByte(s, r, a + i)
  {
    seq(n, i => UserByte(s, r, a + i))
  }

  /** How many bytes to the end of the page, or of what is to be copied. */
  function Chunk(va: int, len: int): (n: int)
    requires 0 <= va && 0 < len
    ensures 0 < n <= len && va % PGSIZE + n <= PGSIZE && (n < len ==> (va + n) % PGSIZE == 0)
  {
    if PGSIZE - va % PGSIZE > len then len else PGSIZE - va % PGSIZE
  }

  lemma SamePage(a: int, va: int)
    requires 0 <= a <= va && a % PGSIZE + (va - a) < PGSIZE
    ensures va / PGSIZE == a / PGSIZE && va % PGSIZE == a % PGSIZE + (va - a)
  {
  }

  /** All of a page can be reached, or none of it. */
  lemma AccessOn(s: State, r: Frame, a: int, c: int, n: int)
    requires 0 <= a && 0 <= c && 0 < n && (a + c) % PGSIZE + n <= PGSIZE
    ensures Writable(s, r, a, c) && CanWrite(s, r, a + c) ==> Writable(s, r, a, c + n)
    ensures Readable(s, r, a, c) && CanRead(s, r, a + c) ==> Readable(s, r, a, c + n)
  {
    hide Entry;
    forall va | a + c <= va < a + c + n ensures CanWrite(s, r, a + c) ==> CanWrite(s, r, va)
      ensures CanRead(s, r, a + c) ==> CanRead(s, r, va)
    {
      SamePage(a + c, va);
    }
  }

  /** walkaddr: the frame of a user's page, or 0. */
  method Walkaddr(m: Machine, pagetable: Frame, va: int) returns (pa: Frame)
    requires Ok(m.S(), {}) && Top(pagetable) in m.tabs && 0 <= va
    modifies m
    ensures m.S() == old(m.S())
    ensures pa == if CanRead(m.S(), pagetable, va) then FrameOf(m.S(), pagetable, va) else 0
  {
    hide Ok, Entry;
    if va >= MAXVA {
      return 0;
    }
    var pt, i := m.Walk(pagetable, va, false);
    MappedHasTable(m.S(), pagetable, va / PGSIZE);
    if pt == 0 {
      return 0;
    }
    LeafRead(m.S(), pagetable, va / PGSIZE);
    var pte := m.mem[pt][i];
    if !Present(pte) || pte / 16 % 2 == 0 {
      return 0;
    }
    pa := Pa(pte);
  }

  lemma NoneYet(s: State, r: Frame, a: int)
    ensures Writable(s, r, a, 0) && Readable(s, r, a, 0)
  {
  }

  lemma WrittenFlat(s: State, t: State, r: Frame, a: int, src: Bytes)
    requires Written(s, t, r, a, src)
    ensures OnlyData(s, t) && SameFlat(s, t)
  {
    hide Entry, UserByte;
  }

  /** Copyout's page: what it stores is one more piece of src. */
  lemma PieceWritten(s0: State, s: State, r: Frame, a: int, src: Bytes, c: int, k: int)
    requires 0 <= a && 0 <= c < c + k <= |src| && (a + c) % PGSIZE + k <= PGSIZE && AreBytes(src)
    requires Ok(s, {}) && Private(s, r) && Written(s0, s, r, a, src[..c]) && Writable(s0, r, a, c)
    requires CanWrite(s, r, a + c)
    ensures FrameOf(s, r, a + c) in s.mem && |s.mem[FrameOf(s, r, a + c)]| == WORDS
    ensures var t := Store(s, r, a + c, src[c..c + k]);
            Ok(t, {}) && Private(t, r) && Written(s0, t, r, a, src[..c + k]) && Writable(s0, r, a, c + k)
  {
    hide Ok, Entry, Private, UserByte, Writable, FrameOf, Store, Written, OnlyData, CanWrite;
    var t := Store(s, r, a + c, src[c..c + k]);
    PageWritten(s, r, a + c, src[c..c + k]);
    WrittenFlat(s, t, r, a + c, src[c..c + k]);
    WrittenFlat(s0, s, r, a, src[..c]);
    PrivateKept(s, t, r);
    assert |src[..c]| == c && src[..c] + src[c..c + k] == src[..c + k];
    WrittenOn(s0, s, t, r, a, src[..c], src[c..c + k]);
    SameAccess(s0, s, r, a + c);
    AccessOn(s0, r, a, c, k);
  }

  /** What copyout checks of the leaf entry is whether the user may write. */
  lemma EntryChecked(s0: State, s: State, r: Frame, a: int, src: Bytes, va: int)
    requires Ok(s, {}) && Written(s0, s, r, a, src) && 0 <= va < MAXVA
    ensures LeafNode(r, va / PGSIZE) !in s.tabs ==> !CanWrite(s0, r, va)
    ensures LeafNode(r, va / PGSIZE) in s.tabs ==>
      var pt := s.tabs[LeafNode(r, va / PGSIZE)];
      pt in s.mem && |s.mem[pt]| == WORDS && (CanWrite(s0, r, va) <==> UserWritable(s.mem[pt][Lo(va / PGSIZE)])) &&
      (CanWrite(s0, r, va) ==> CanWrite(s, r, va) && FrameOf(s, r, va) == Pa(s.mem[pt][Lo(va / PGSIZE)]))
  {
    hide Ok, Entry, LeafNode, UserByte;
    SameAccess(s0, s, r, va);
    MappedHasTable(s, r, va / PGSIZE);
    if LeafNode(r, va / PGSIZE) in s.tabs {
      LeafRead(s, r, va / PGSIZE);
    }
  }

  /** copyout: src is written as far as the user may write; 0 if that is all of it. */
  method Copyout(m: Machine, pagetable: Frame, dstva: int, src: Bytes) returns (r: int, ghost n: int)
    requires Ok(m.S(), {}) && Top(pagetable) in m.tabs && 0 <= dstva && AreBytes(src)
    requires Private(m.S(), pagetable)
    modifies m
    ensures Ok(m.S(), {}) && Private(m.S(), pagetable)
    ensures 0 <= n <= |src| && Written(old(m.S()), m.S(), pagetable, dstva, src[..n])
    ensures Writable(old(m.S()), pagetable, dstva, n)
    ensures (r == 0 && n == |src|) || (r == -1 && n < |src| && !CanWrite(old(m.S()), pagetable, dstva + n))
  {
    hide Ok, Entry, Written, OnlyData, Private, Writable, UserByte;
    ghost var s0 := m.S();
    var c, dst := 0, dstva;
    WrittenNone(s0, pagetable, dstva);
    NoneYet(s0, pagetable, dstva);
    while c < |src|
      invariant 0 <= c <= |src| && dst >= dstva + c && (c < |src| ==> dst == dstva + c)
      invariant Ok(m.S(), {}) && Private(m.S(), pagetable) && Top(pagetable) in m.tabs
      invariant Written(s0, m.S(), pagetable, dstva, src[..c]) && Writable(s0, pagetable, dstva, c)
    {
      ghost var s := m.S();
      var va0 := dst - dst % PGSIZE;
      SamePage(va0, dst);
      if va0 >= MAXVA {
        return -1, c;
      }
      EntryChecked(s0, s, pagetable, dstva, src[..c], dst);
      var pt, i := m.Walk(pagetable, va0, false);
      if pt == 0 {
        return -1, c;
      }
      var pte := m.mem[pt][i];
      if !UserWritable(pte) {
        return -1, c;
      }
      var pa0 := Pa(pte);
      var k := Chunk(dst, |src| - c);
      PieceWritten(s0, s, pagetable, dstva, src, c, k);
      m.mem := m.mem[pa0 := Moved(m.mem[pa0], dst - va0, src[c..c + k])];
      c := c + k;
      dst := va0 + PGSIZE;
    }
    return 0, c;
  }

  /** memmove from byte o of a page. */
  function From(page: seq<int>, o: int, n: int): (b: Bytes)
    requires |page| == WORDS && 0 <= o && 0 <= n && o + n <= PGSIZE
    ensures |b| == n
  {
    seq(n, i requires 0 <= i < n => At(page, o + i))
  }

  /** Copyin's page: what it reads is the next piece of the user's bytes. */
  lemma PieceRead(s: State, r: Frame, a: int, c: int, k: int)
    requires 0 <= a && 0 <= c && 0 < k && (a + c) % PGSIZE + k <= PGSIZE
    requires Ok(s, {}) && Private(s, r) && Readable(s, r, a, c) && CanRead(s, r, a + c)
    ensures var f := FrameOf(s, r, a + c);
            f in s.mem && |s.mem[f]| == WORDS && f != 0 &&
            UserBytes(s, r, a, c + k) == UserBytes(s, r, a, c) + From(s.mem[f], (a + c) % PGSIZE, k)
    ensures Readable(s, r, a, c + k)
  {
    hide Ok, Entry, Private, Readable, At;
    UserFrame(s, r, a + c);
    AccessOn(s, r, a, c, k);
    var f := FrameOf(s, r, a + c);
    forall va | a + c <= va < a + c + k ensures UserByte(s, r, va) == At(s.mem[f], (a + c) % PGSIZE + (va - a - c)) {
      SamePage(a + c, va);
    }
  }

  /** copyin: the user's bytes, as far as they can be read; 0 if that is all of them. */
  method Copyin(m: Machine, pagetable: Frame, srcva: int, len: int) returns (r: int, dst: Bytes)
    requires Ok(m.S(), {}) && Top(pagetable) in m.tabs && 0 <= srcva && 0 <= len
    requires Private(m.S(), pagetable)
    modifies m
    ensures m.S() == old(m.S())
    ensures |dst| <= len && dst == UserBytes(m.S(), pagetable, srcva, |dst|)
    ensures Readable(m.S(), pagetable, srcva, |dst|)
    ensures (r == 0 && |dst| == len) || (r == -1 && |dst| < len && !CanRead(m.S(), pagetable, srcva + |dst|))
  {
    hide Ok, Entry, Private, Readable, UserByte, CanRead, FrameOf;
    dst := [];
    var src := srcva;
    NoneYet(m.S(), pagetable, srcva);
    while |dst| < len
      invariant |dst| <= len && src >= srcva + |dst| && (|dst| < len ==> src == srcva + |dst|)
      invariant m.S() == old(m.S())
      invariant dst == UserBytes(m.S(), pagetable, srcva, |dst|) && Readable(m.S(), pagetable, srcva, |dst|)
    {
      var va0 := src - src % PGSIZE;
      SameForPage(m.S(), pagetable, src);
      var pa0 := Walkaddr(m, pagetable, va0);
      if CanRead(m.S(), pagetable, src) {
        PieceRead(m.S(), pagetable, srcva, |dst|, Chunk(src, len - |dst|));
      }
      if pa0 == 0 {
        return -1, dst;
      }
      var n := Chunk(src, len - |dst|);
      dst := dst + From(m.mem[pa0], src - va0, n);
      src := va0 + PGSIZE;
    }
    r := 0;
  }

  lemma SameForPage(s: State, r: Frame, va: int)
    requires 0 <= va
    ensures var va0 := va - va % PGSIZE;
            0 <= va0 && (CanRead(s, r, va) <==> CanRead(s, r, va0)) && FrameOf(s, r, va) == FrameOf(s, r, va0)
  {
    SamePage(va - va % PGSIZE, va);
  }

  // ------------------------------------------------------------------- strings

  /** A terminated string of at most max bytes starts at a, in pages that can be read. */
  ghost predicate HasString(s: State, r: Frame, a: int, max: int) {
    exists k :: StringEnds(s, r, a, max, k)
  }

  ghost predicate StringEnds(s: State, r: Frame, a: int, max: int, k: int) {
    0 <= k < max && Readable(s, r, a, k + 1) && UserByte(s, r, a + k) == 0
  }

  predicate NoNul(b: Bytes) {
    forall i :: 0 <= i < |b| ==> b[i] != 0
  }

  lemma NoStringThere(s: State, r: Frame, a: int, max: int, dst: Bytes)
    requires dst == UserBytes(s, r, a, |dst|) && NoNul(dst)
    requires |dst| >= max || !CanRead(s, r, a + |dst|)
    ensures !HasString(s, r, a, max)
  {
    hide CanRead, UserByte;
    forall k ensures !StringEnds(s, r, a, max, k) {
      if 0 <= k < |dst| {
        assert dst[k] == UserByte(s, r, a + k);
      }
    }
  }

  lemma NextByte(s: State, r: Frame, a: int, c: int, va0: int)
    requires 0 <= a && 0 <= c && va0 == a + c - (a + c) % PGSIZE
    requires Ok(s, {}) && Private(s, r) && Readable(s, r, a, c) && CanRead(s, r, va0)
    ensures var f := FrameOf(s, r, va0);
            f in s.mem && |s.mem[f]| == WORDS &&
            UserBytes(s, r, a, c + 1) == UserBytes(s, r, a, c) + [At(s.mem[f], a + c - va0)]
    ensures Readable(s, r, a, c + 1)
  {
    hide Ok, Entry, Private, Readable, At, CanRead, FrameOf;
    SameForPage(s, r, a + c);
    PieceRead(s, r, a, c, 1);
  }

  /** What has been read so far: all but a final NUL is no NUL. */
  predicate SoFar(dst: Bytes, gotNull: bool) {
    if gotNull then dst != [] && NoNul(dst[..|dst| - 1]) && dst[|dst| - 1] == 0 else NoNul(dst)
  }

  /** copyinstr's inner loop: to the end of the page, or to the NUL. */
  method CopyChunk(m: Machine, ghost pagetable: Frame, srcva: int, dst0: Bytes, va0: int, pa0: Frame, chunk: int)
    returns (dst: Bytes, gotNull: bool)
    requires Ok(m.S(), {}) && Private(m.S(), pagetable) && 0 <= srcva && NoNul(dst0)
    requires 0 <= va0 <= srcva + |dst0| && va0 % PGSIZE == 0 && srcva + |dst0| - va0 + chunk <= PGSIZE && chunk > 0
    requires CanRead(m.S(), pagetable, va0) && pa0 == FrameOf(m.S(), pagetable, va0)
    requires dst0 == UserBytes(m.S(), pagetable, srcva, |dst0|) && Readable(m.S(), pagetable, srcva, |dst0|)
    ensures |dst0| < |dst| <= |dst0| + chunk && SoFar(dst, gotNull) && (!gotNull ==> |dst| == |dst0| + chunk)
    ensures dst == UserBytes(m.S(), pagetable, srcva, |dst|) && Readable(m.S(), pagetable, srcva, |dst|)
  {
    hide Ok, Entry, Private, Readable, UserByte, CanRead, FrameOf, At;
    dst, gotNull := dst0, false;
    var n := chunk;
    var p := srcva + |dst0| - va0;
    while n > 0 && !gotNull
      invariant 0 <= n && 0 <= p && p + n <= PGSIZE && |dst| <= |dst0| + chunk && (|dst| == |dst0| ==> n == chunk)
      invariant dst == UserBytes(m.S(), pagetable, srcva, |dst|) && Readable(m.S(), pagetable, srcva, |dst|)
      invariant SoFar(dst, gotNull) && |dst| >= |dst0|
      invariant !gotNull ==> |dst| + n == |dst0| + chunk && va0 + p == srcva + |dst|
      decreases n, if gotNull then 0 else 1
    {
      SamePage(va0, srcva + |dst|);
      NextByte(m.S(), pagetable, srcva, |dst|, va0);
      var b := At(m.mem[pa0], p);
      dst := dst + [b];
      if b == 0 {
        gotNull := true;
      } else {
        n := n - 1;
        p := p + 1;
      }
    }
  }

  /** copyinstr: the string with its NUL, exactly if there is one. */
  method Copyinstr(m: Machine, pagetable: Frame, srcva: int, max: int) returns (r: int, dst: Bytes)
    requires Ok(m.S(), {}) && Top(pagetable) in m.tabs && 0 <= srcva && 0 <= max
    requires Private(m.S(), pagetable)
    modifies m
    ensures m.S() == old(m.S())
    ensures r == (if HasString(m.S(), pagetable, srcva, max) then 0 else -1)
    ensures |dst| <= max && dst == UserBytes(m.S(), pagetable, srcva, |dst|)
    ensures r == 0 ==> dst != [] && NoNul(dst[..|dst| - 1]) && dst[|dst| - 1] == 0
  {
    hide Ok, Entry, Private, Readable, UserByte, CanRead, FrameOf, At;
    dst := [];
    var src, gotNull := srcva, false;
    ghost var s := m.S();
    NoneYet(s, pagetable, srcva);
    while !gotNull && |dst| < max
      invariant |dst| <= max && src >= 0 && (!gotNull && |dst| < max ==> src == srcva + |dst|)
      invariant m.S() == s && dst == UserBytes(s, pagetable, srcva, |dst|) && Readable(s, pagetable, srcva, |dst|)
      invariant SoFar(dst, gotNull)
      decreases max - |dst|
    {
      var va0 := src - src % PGSIZE;
      SameForPage(s, pagetable, src);
      var pa0 := Walkaddr(m, pagetable, va0);
      if CanRead(s, pagetable, src) {
        NextByte(s, pagetable, srcva, |dst|, va0);
        UserFrame(s, pagetable, src);
      }
      if pa0 == 0 {
        NoStringThere(s, pagetable, srcva, max, dst);
        return -1, dst;
      }
      dst, gotNull := CopyChunk(m, pagetable, srcva, dst, va0, pa0, Chunk(src, max - |dst|));
      src := va0 + PGSIZE;
    }
    if gotNull {
      assert StringEnds(s, pagetable, srcva, max, |dst| - 1);
      return 0, dst;
    }
    NoStringThere(s, pagetable, srcva, max, dst);
    r := -1;
  }

  // ---------------------------------------------------------------- what it means

  /** copyin of what copyout wrote gives it back. */
  lemma WriteThenRead(s: State, t: State, r: Frame, a: int, src: Bytes)
    requires Written(s, t, r, a, src) && Writable(s, r, a, |src|)
    ensures UserBytes(t, r, a, |src|) == src && Readable(t, r, a, |src|)
  {
    hide Entry, UserByte;
    forall va | a <= va < a + |src| ensures UserByte(t, r, va) == src[va - a] && CanRead(t, r, va) {
      SameAccess(s, t, r, va);
      assert CanWrite(s, r, va);
    }
  }

  /** What q's user reads is not in a frame of r's. */
  ghost predicate Apart(s: State, r: Frame, q: Frame) {
    forall a, b :: CanRead(s, r, a) && CanRead(s, q, b) ==> FrameOf(s, r, a) != FrameOf(s, q, b)
  }

  /** Writing to one user's memory changes no byte of another's. */
  lemma OthersKept(s: State, t: State, r: Frame, q: Frame, a: int, src: Bytes, va: int)
    requires Ok(s, {}) && Private(s, q) && Apart(s, r, q) && Written(s, t, r, a, src) && CanRead(s, q, va)
    ensures UserByte(t, q, va) == UserByte(s, q, va)
  {
    hide Entry, Ok, At;
    UserFrame(s, q, va);
    SameAccess(s, t, q, va);
    forall x | CanWrite(s, r, x) ensures FrameOf(s, r, x) != FrameOf(s, q, va) {
      assert CanRead(s, r, x);
    }
  }

  /** Nor is a page-table page or a free frame written to. */
  lemma TablesKept(s: State, t: State, r: Frame, a: int, src: Bytes, f: Frame)
    requires Private(s, r) && Written(s, t, r, a, src) && f in s.mem && f !in s.held
    ensures t.mem[f] == s.mem[f]
  {
    hide Entry;
    forall x | CanWrite(s, r, x) ensures FrameOf(s, r, x) in s.held {
      assert CanRead(s, r, x);
    }
  }

  // --------------------------------------------------------------------- fork

  /** All that the user can reach is below page hi. */
  ghost predicate Within(s: State, r: Frame, hi: int) {
    forall va :: CanRead(s, r, va) ==> va / PGSIZE < hi
  }

  lemma OwnedIsPrivate(s: State, r: Frame, hi: int)
    requires Owned(s, r, 0, hi) && Within(s, r, hi)
    ensures Private(s, r)
  {
    hide Entry;
    forall a | CanRead(s, r, a) ensures 0 <= a / PGSIZE < hi && FrameOf(s, r, a) in s.held {
    }
  }

  lemma Sixteenth(w: int, k: int, r: int)
    requires w == 16 * k + r && 0 <= r < 16
    ensures w / 16 == k
  {
  }

  lemma Quarter(w: int, k: int, r: int)
    requires w == 4 * k + r && 0 <= r < 4
    ensures w / 4 == k
  {
  }

  lemma FlagBits(w: Pte)
    ensures w / 16 % 2 == Flags(w) / 16 % 2
    ensures w / 4 % 2 == Flags(w) / 4 % 2
    ensures w % 2 == Flags(w) % 2
  {
    var q, f := w / 1024, Flags(w);
    Sixteenth(w, 64 * q + f / 16, f % 16);
    Even(64 * q + f / 16, 32 * q + f / 16 / 2, f / 16 % 2);
    Quarter(w, 256 * q + f / 4, f % 4);
    Even(256 * q + f / 4, 128 * q + f / 4 / 2, f / 4 % 2);
    Even(w, 512 * q + f / 2, f % 2);
  }

  lemma FlagsTell(w: Pte, x: Pte)
    requires Flags(w) == Flags(x)
    ensures (User(w) <==> User(x)) && (UserWritable(w) <==> UserWritable(x))
  {
    hide Flags;
    FlagBits(w);
    FlagBits(x);
  }

  /** What uvmcopy leaves: tree b has images of tree a's pages below hi. */
  ghost predicate Copied(s: State, t: State, a: Frame, b: Frame, hi: int) {
    GrownTo(s, t, b, 0, hi) && forall u :: 0 <= u < hi ==> SameImage(s, t, a, b, u)
  }

  /** Parent and child see the same bytes, with the same rights. */
  lemma SameToBoth(s: State, t: State, a: Frame, b: Frame, hi: int, va: int)
    requires Ok(s, {}) && a != b && Copied(s, t, a, b, hi)
    requires Owned(s, a, 0, hi) && Within(s, a, hi) && Within(s, b, 0)
    ensures (CanRead(t, b, va) <==> CanRead(s, a, va)) && (CanWrite(t, b, va) <==> CanWrite(s, a, va))
    ensures (CanRead(t, a, va) <==> CanRead(s, a, va)) && (CanWrite(t, a, va) <==> CanWrite(s, a, va))
    ensures CanRead(s, a, va) ==>
      UserByte(t, b, va) == UserByte(s, a, va) && UserByte(t, a, va) == UserByte(s, a, va) &&
      FrameOf(t, a, va) in s.held && FrameOf(t, b, va) !in s.held
  {
    hide Entry, At;
    var u := va / PGSIZE;
    assert Entry(t, a, u) == Entry(s, a, u);
    if 0 <= u < hi {
      assert SameImage(s, t, a, b, u);
      FlagsTell(Entry(t, b, u), Entry(s, a, u));
      assert Pa(Entry(s, a, u)) in s.held;
      HeldInMemory(s);
    } else {
      assert Entry(t, b, u) == Entry(s, b, u);
      assert CanRead(s, b, va) ==> u < 0;
    }
  }

  /** After fork each has memory of its own. */
  lemma ForkedApart(s: State, t: State, a: Frame, b: Frame, hi: int)
    requires Ok(s, {}) && a != b && Copied(s, t, a, b, hi)
    requires Owned(s, a, 0, hi) && Within(s, a, hi) && Within(s, b, 0)
    ensures Private(t, a) && Private(t, b) && Apart(t, a, b) && Apart(t, b, a)
  {
    hide Entry, UserByte, Copied, Ok, CanRead;
    assert Owned(t, a, 0, hi) && Owned(t, b, 0, hi) by { StillOwned(s, t, a, b, hi); }
    forall va ensures CanRead(t, b, va) <==> CanRead(s, a, va) ensures CanRead(t, a, va) <==> CanRead(s, a, va)
      ensures CanRead(s, a, va) ==> FrameOf(t, a, va) in s.held && FrameOf(t, b, va) !in s.held
    {
      SameToBoth(s, t, a, b, hi, va);
    }
    OwnedIsPrivate(t, a, hi);
    OwnedIsPrivate(t, b, hi);
  }

  lemma StillOwned(s: State, t: State, a: Frame, b: Frame, hi: int)
    requires a != b && Copied(s, t, a, b, hi) && Owned(s, a, 0, hi)
    ensures Owned(t, a, 0, hi) && Owned(t, b, 0, hi)
  {
    hide Entry;
    assert forall u :: 0 <= u < hi ==> Entry(t, a, u) == Entry(s, a, u);
  }

  // ---------------------------------------------------- any writes from then on

  /** copyout of src to address at of the process with page table r. */
  datatype Write = Write(r: Frame, at: int, src: Bytes)

  /** A run of writes to the processes a and b: state i + 1 is what write i leaves. */
  ghost predicate Run(states: seq<State>, ws: seq<Write>, a: Frame, b: Frame) {
    && |states| == |ws| + 1
    && (forall i :: 0 <= i < |states| ==> Ok(states[i], {}))
    && (forall i :: 0 <= i < |ws| ==> (ws[i].r == a || ws[i].r == b) && Wrote(states, ws, i))
  }

  ghost predicate Wrote(states: seq<State>, ws: seq<Write>, i: int)
    requires 0 <= i < |ws| && |states| == |ws| + 1
  {
    Written(states[i], states[i + 1], ws[i].r, ws[i].at, ws[i].src)
  }

  /** A byte after the writes that r itself made: the last one over it counts. */
  function Applied(byte: int, ws: seq<Write>, r: Frame, va: int): int {
    if ws == [] then byte
    else
      var w := ws[|ws| - 1];
      if w.r == r && w.at <= va < w.at + |w.src| then w.src[va - w.at]
      else Applied(byte, ws[..|ws| - 1], r, va)
  }

  ghost predicate Separate(s: State, a: Frame, b: Frame) {
    Private(s, a) && Private(s, b) && Apart(s, a, b) && Apart(s, b, a)
  }

  lemma SeparateKept(s: State, t: State, a: Frame, b: Frame)
    requires Separate(s, a, b) && OnlyData(s, t)
    ensures Separate(t, a, b)
  {
    hide Entry;
    PrivateKept(s, t, a);
    PrivateKept(s, t, b);
    forall r, va ensures CanRead(t, r, va) <==> CanRead(s, r, va) ensures FrameOf(t, r, va) == FrameOf(s, r, va) {
      SameAccess(s, t, r, va);
    }
  }

  /** One write: of the two processes, r sees it exactly if it is its own. */
  lemma WriteSeen(s: State, t: State, w: Write, a: Frame, b: Frame, r: Frame, va: int)
    requires Ok(s, {}) && a != b && Separate(s, a, b) && (w.r == a || w.r == b) && (r == a || r == b)
    requires Written(s, t, w.r, w.at, w.src) && CanRead(s, r, va)
    ensures CanRead(t, r, va)
    ensures UserByte(t, r, va) ==
      if w.r == r && w.at <= va < w.at + |w.src| then w.src[va - w.at] else UserByte(s, r, va)
  {
    hide Entry, UserByte, Ok, Private, Apart;
    SameAccess(s, t, r, va);
    if w.r != r {
      OthersKept(s, t, w.r, r, w.at, w.src, va);
    }
  }

  /** In every run each process's memory is what its own writes make of it. */
  lemma {:induction false} RunIsolates(states: seq<State>, ws: seq<Write>, a: Frame, b: Frame, r: Frame, va: int)
    requires Run(states, ws, a, b) && a != b && (r == a || r == b)
    requires Separate(states[0], a, b) && CanRead(states[0], r, va)
    ensures Separate(states[|ws|], a, b) && CanRead(states[|ws|], r, va)
    ensures UserByte(states[|ws|], r, va) == Applied(UserByte(states[0], r, va), ws, r, va)
    decreases |ws|
  {
    hide Entry, UserByte, Ok, Separate, Written, CanRead;
    if ws != [] {
      var n := |ws| - 1;
      RunBefore(states, ws, a, b);
      RunIsolates(states[..n + 1], ws[..n], a, b, r, va);
      assert Wrote(states, ws, n);
      WrittenFlat(states[n], states[n + 1], ws[n].r, ws[n].at, ws[n].src);
      SeparateKept(states[n], states[n + 1], a, b);
      WriteSeen(states[n], states[n + 1], ws[n], a, b, r, va);
    }
  }

  lemma RunBefore(states: seq<State>, ws: seq<Write>, a: Frame, b: Frame)
    requires Run(states, ws, a, b) && ws != []
    ensures Run(states[..|ws|], ws[..|ws| - 1], a, b)
  {
    hide Written, Ok;
    var before, first := states[..|ws|], ws[..|ws| - 1];
    forall i | 0 <= i < |first| ensures (first[i].r == a || first[i].r == b) && Wrote(before, first, i) {
      assert Wrote(states, ws, i);
    }
  }

  /** After a fork and any number of writes to either process, each reads what the
      parent had, but for what it wrote itself. */
  lemma ForkIsolates(s: State, a: Frame, b: Frame, hi: int, states: seq<State>, ws: seq<Write>, r: Frame, va: int)
    requires Ok(s, {}) && a != b && Run(states, ws, a, b) && Copied(s, states[0], a, b, hi)
    requires Owned(s, a, 0, hi) && Within(s, a, hi) && Within(s, b, 0)
    requires (r == a || r == b) && CanRead(s, a, va)
    ensures CanRead(states[|ws|], r, va)
    ensures UserByte(states[|ws|], r, va) == Applied(UserByte(s, a, va), ws, r, va)
  {
    hide Entry, UserByte, Copied, Ok, CanRead, Within, Owned, Private, Apart, Written;
    ForkedApart(s, states[0], a, b, hi);
    SameToBoth(s, states[0], a, b, hi, va);
    RunIsolates(states, ws, a, b, r, va);
  }
}
