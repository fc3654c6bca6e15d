// The inode block layer of xv6 (CLab/xv6/kernel/fs.c): a bitmap, block pointers in
// inodes and in indirect blocks, and files of bytes on top of them.
//
// A block is read and written at once here: what bread and log_write do between the
// cache, the log and the disk is the subject of log.dfy and bio.dfy.

module FileBlocks {
  const BSIZE := 1024
  const BPB := 8192
  const NDIRECT := 12
  const NINDIRECT := 256
  const MAXFILE := 268
  const UINT := 0x1_0000_0000
  const IPB := 16 // inodes in a block

  type Block = seq<int>

  // ------------------------------------------------------------------- bitmap

  /** 1 << i, in a byte. */
  function Mask(i: int): bv8 {
    if i == 0 then 1 else if i == 1 then 2 else if i == 2 then 4 else if i == 3 then 8
    else if i == 4 then 16 else if i == 5 then 32 else if i == 6 then 64 else 128
  }

  predicate Bit(bits: seq<bv8>, b: int) {
    0 <= b / 8 < |bits| && bits[b / 8] & Mask(b % 8) != 0
  }

  lemma MasksApart(x: bv8, i: int, j: int)
    requires 0 <= i < 8 && 0 <= j < 8
    ensures (x | Mask(i)) & Mask(j) != 0 <==> i == j || x & Mask(j) != 0
    ensures (x & !Mask(i)) & Mask(j) != 0 <==> i != j && x & Mask(j) != 0
  {
  }

  lemma ByteChanged(bits: seq<bv8>, k: int, y: bv8, c: int)
    requires 0 <= k < |bits|
    ensures Bit(bits[k := y], c) <==> if c / 8 == k then y & Mask(c % 8) != 0 else Bit(bits, c)
  {
    hide Mask;
  }

  function Marked(bits: seq<bv8>, b: int): seq<bv8>
    requires 0 <= b / 8 < |bits|
  {
    bits[b / 8 := bits[b / 8] | Mask(b % 8)]
  }

  function Unmarked(bits: seq<bv8>, b: int): seq<bv8>
    requires 0 <= b / 8 < |bits|
  {
    bits[b / 8 := bits[b / 8] & !Mask(b % 8)]
  }

  lemma SameBit(b: int, c: int)
    requires c / 8 == b / 8
    ensures b % 8 == c % 8 <==> b == c
  {
  }

  /** Setting a block's bit leaves every other block's bit alone. */
  lemma MarksApart(bits: seq<bv8>, b: int, c: int)
    requires 0 <= b / 8 < |bits|
    ensures Bit(Marked(bits, b), c) <==> c == b || Bit(bits, c)
  {
    hide Mask, Bit;
    ByteChanged(bits, b / 8, bits[b / 8] | Mask(b % 8), c);
    if c / 8 == b / 8 {
      MasksApart(bits[b / 8], b % 8, c % 8);
      BitInByte(bits, c);
      SameBit(b, c);
    }
  }

  lemma UnmarksApart(bits: seq<bv8>, b: int, c: int)
    requires 0 <= b / 8 < |bits|
    ensures Bit(Unmarked(bits, b), c) <==> c != b && Bit(bits, c)
  {
    hide Mask, Bit;
    ByteChanged(bits, b / 8, bits[b / 8] & !Mask(b % 8), c);
    if c / 8 == b / 8 {
      MasksApart(bits[b / 8], b % 8, c % 8);
      BitInByte(bits, c);
      SameBit(b, c);
    }
  }

  lemma BitInByte(bits: seq<bv8>, c: int)
    requires 0 <= c / 8 < |bits|
    ensures Bit(bits, c) <==> bits[c / 8] & Mask(c % 8) != 0
  {
    hide Mask;
  }

  // ---------------------------------------------------------- words in a block

  predicate IsBlock(blk: Block) {
    |blk| == BSIZE && forall i :: 0 <= i < BSIZE ==> 0 <= blk[i] < 256
  }

  /** The j-th uint of a block, least significant byte first. */
  function Word(blk: Block, j: int): int
    requires |blk| == BSIZE && 0 <= j < NINDIRECT
  {
    blk[4 * j] + 256 * blk[4 * j + 1] + 65536 * blk[4 * j + 2] + 16777216 * blk[4 * j + 3]
  }

  function Put4(blk: Block, j: int, a: int, b: int, c: int, d: int): (r: Block)
    requires |blk| == BSIZE && 0 <= j < NINDIRECT
    ensures |r| == BSIZE
  {
    blk[4 * j := a][4 * j + 1 := b][4 * j + 2 := c][4 * j + 3 := d]
  }

  function SetWord(blk: Block, j: int, w: int): (r: Block)
    requires |blk| == BSIZE && 0 <= j < NINDIRECT
    ensures |r| == BSIZE
  {
    Put4(blk, j, w % 256, w / 256 % 256, w / 65536 % 256, w / 16777216)
  }

  lemma FourBytes(w: int)
    requires 0 <= w < UINT
    ensures w == w % 256 + 256 * (w / 256 % 256) + 65536 * (w / 65536 % 256) + 16777216 * (w / 16777216)
    ensures 0 <= w / 16777216 < 256
  {
    assert w / 65536 == w / 256 / 256;
    assert w / 16777216 == w / 65536 / 256;
  }

  lemma FourPut(blk: Block, j: int, a: int, b: int, c: int, d: int)
    requires IsBlock(blk) && 0 <= j < NINDIRECT
    requires 0 <= a < 256 && 0 <= b < 256 && 0 <= c < 256 && 0 <= d < 256
    ensures IsBlock(Put4(blk, j, a, b, c, d))
    ensures Word(Put4(blk, j, a, b, c, d), j) == a + 256 * b + 65536 * c + 16777216 * d
    ensures forall i :: 0 <= i < NINDIRECT && i != j ==> Word(Put4(blk, j, a, b, c, d), i) == Word(blk, i)
  {
  }

  lemma WordSet(blk: Block, j: int, w: int)
    requires IsBlock(blk) && 0 <= j < NINDIRECT && 0 <= w < UINT
    ensures IsBlock(SetWord(blk, j, w))
    ensures forall i :: 0 <= i < NINDIRECT ==> Word(SetWord(blk, j, w), i) == if i == j then w else Word(blk, i)
  {
    hide Word, Put4, IsBlock;
    FourBytes(w);
    FourPut(blk, j, w % 256, w / 256 % 256, w / 65536 % 256, w / 16777216);
  }

  function ZeroBlock(): (r: Block)
    ensures IsBlock(r) && forall j :: 0 <= j < NINDIRECT ==> Word(r, j) == 0
  {
    seq(BSIZE, _ => 0)
  }

  // ------------------------------------------------------------------- state

  datatype Inode = Inode(addrs: seq<int>, size: int)

  /** Where a block number is stored: addrs[k] of an inode, or for k > NDIRECT the
      entry k - NDIRECT - 1 of its indirect block. */
  datatype Slot = Slot(ip: int, k: int)

  /** owner (proof state) says which slot refers to a block in use. */
  datatype Fs = Fs(nmeta: int, size: int, bits: seq<bv8>, disk: map<int, Block>, inodes: seq<Inode>,
                   owner: map<int, Slot>)

  function WordAt(disk: map<int, Block>, b: int, j: int): int {
    if b in disk && |disk[b]| == BSIZE && 0 <= j < NINDIRECT then Word(disk[b], j) else 0
  }

  function Addr(s: Fs, ip: int, k: int): int {
    if 0 <= ip < |s.inodes| && 0 <= k < |s.inodes[ip].addrs| then s.inodes[ip].addrs[k] else 0
  }

  function Ref(s: Fs, x: Slot): int {
    if x.k <= NDIRECT then Addr(s, x.ip, x.k)
    else if Addr(s, x.ip, NDIRECT) == 0 then 0
    else WordAt(s.disk, Addr(s, x.ip, NDIRECT), x.k - NDIRECT - 1)
  }

  /** The slot of a file's n-th data block. */
  function DataSlot(ip: int, n: int): Slot {
    Slot(ip, if n < NDIRECT then n else n + 1)
  }

  ghost predicate ShapeOk(s: Fs) {
    && 0 < s.nmeta <= s.size < 0x8000_0000 && s.size <= 8 * |s.bits|
    && (forall b {:trigger b in s.disk} :: s.nmeta <= b < s.size ==> b in s.disk && IsBlock(s.disk[b]))
    && (forall ip :: 0 <= ip < |s.inodes| ==> |s.inodes[ip].addrs| == NDIRECT + 1)
  }

  /** A freed entry of inode dip's indirect block, while itrunc walks over the block. */
  predicate Dead(x: Slot, dip: int, dj: int) {
    x.ip == dip && NDIRECT < x.k <= NDIRECT + dj
  }

  /** The bitmap marks the metadata, the blocks that are referred to, each from one
      place, and the blocks just allocated (loose). */
  ghost predicate OwnOk(s: Fs, loose: set<int>, dip: int, dj: int) {
    && (forall b {:trigger Bit(s.bits, b)} :: 0 <= b < s.size ==>
          (Bit(s.bits, b) <==> b < s.nmeta || b in s.owner || b in loose))
    && (forall b {:trigger b in loose} :: b in loose ==> s.nmeta <= b < s.size && b !in s.owner)
    && (forall b {:trigger b in s.owner} :: b in s.owner ==>
          s.nmeta <= b < s.size && Ref(s, s.owner[b]) == b && !Dead(s.owner[b], dip, dj))
    && (forall x {:trigger Ref(s, x)} :: Ref(s, x) != 0 && !Dead(x, dip, dj) ==> Owns(s, Ref(s, x), x))
  }

  ghost predicate Owns(s: Fs, b: int, x: Slot) {
    b in s.owner && s.owner[b] == x
  }

  ghost predicate Ok(s: Fs, loose: set<int>, dip: int, dj: int) {
    ShapeOk(s) && OwnOk(s, loose, dip, dj)
  }

  /** Every block below a file's size is there. */
  ghost predicate SizesOk(s: Fs) {
    forall ip :: 0 <= ip < |s.inodes| ==> (
      && 0 <= s.inodes[ip].size <= MAXFILE * BSIZE
      && forall n :: 0 <= n && n * BSIZE < s.inodes[ip].size ==> Ref(s, DataSlot(ip, n)) != 0)
  }

  // ------------------------------------------------------- steps on one block

  /** balloc takes block b. */
  ghost function Taken(s: Fs, b: int): Fs
    requires 0 <= b / 8 < |s.bits|
  {
    s.(bits := Marked(s.bits, b), disk := s.disk[b := ZeroBlock()])
  }

  lemma SameRefs(s: Fs, t: Fs)
    requires t.inodes == s.inodes
    requires forall ip :: Addr(s, ip, NDIRECT) != 0 ==>
      Addr(s, ip, NDIRECT) in s.disk && Addr(s, ip, NDIRECT) in t.disk &&
      t.disk[Addr(s, ip, NDIRECT)] == s.disk[Addr(s, ip, NDIRECT)]
    ensures forall x :: Ref(t, x) == Ref(s, x)
  {
    forall x ensures Ref(t, x) == Ref(s, x) {
      assert Addr(t, x.ip, NDIRECT) == Addr(s, x.ip, NDIRECT);
    }
  }

  lemma TakenOk(s: Fs, loose: set<int>, b: int)
    requires Ok(s, loose, 0, 0) && 0 <= b < s.size && !Bit(s.bits, b)
    ensures s.nmeta <= b && b !in s.owner && b !in loose && 0 <= b / 8 < |s.bits|
    ensures Ok(Taken(s, b), loose + {b}, 0, 0)
    ensures forall x :: Ref(Taken(s, b), x) == Ref(s, x)
  {
    var t := Taken(s, b);
    forall ip | Addr(s, ip, NDIRECT) != 0 ensures Addr(s, ip, NDIRECT) in s.disk && Addr(s, ip, NDIRECT) != b {
      assert Ref(s, Slot(ip, NDIRECT)) == Addr(s, ip, NDIRECT);
    }
    SameRefs(s, t);
    forall c ensures Bit(t.bits, c) <==> c == b || Bit(s.bits, c) {
      MarksApart(s.bits, b, c);
    }
  }

  ghost function WithAddr(s: Fs, ip: int, k: int, b: int): Fs
    requires 0 <= ip < |s.inodes| && 0 <= k < |s.inodes[ip].addrs|
  {
    var d := s.inodes[ip];
    s.(inodes := s.inodes[ip := d.(addrs := d.addrs[k := b])])
  }

  ghost function WithOwner(s: Fs, b: int, x: Slot): Fs {
    s.(owner := s.owner[b := x])
  }

  lemma OwnerIrrelevant(s: Fs, b: int, x: Slot)
    ensures forall y :: Ref(WithOwner(s, b, x), y) == Ref(s, y)
  {
    var t := WithOwner(s, b, x);
    forall y ensures Ref(t, y) == Ref(s, y) {
      assert Addr(t, y.ip, NDIRECT) == Addr(s, y.ip, NDIRECT);
      assert Addr(t, y.ip, y.k) == Addr(s, y.ip, y.k);
    }
  }

  ghost predicate OneRef(s: Fs, t: Fs, x: Slot, b: int) {
    forall y :: Ref(t, y) == if y == x then b else Ref(s, y)
  }

  lemma RefAdded(s: Fs, t: Fs, loose: set<int>, x: Slot, b: int)
    requires Ok(s, loose, 0, 0) && ShapeOk(t) && OneRef(s, t, x, b) && Ref(s, x) == 0 && b in loose
    requires t.owner == s.owner[b := x] && t.bits == s.bits && t.nmeta == s.nmeta && t.size == s.size
    ensures Ok(t, loose - {b}, 0, 0)
  {
    forall c | c in t.owner ensures t.nmeta <= c < t.size && Ref(t, t.owner[c]) == c && !Dead(t.owner[c], 0, 0) {
      if c != b {
        assert c in s.owner && Ref(s, s.owner[c]) == c;
      }
    }
    forall y | Ref(t, y) != 0 ensures Owns(t, Ref(t, y), y) {
      if y != x {
        assert Owns(s, Ref(s, y), y);
      }
    }
  }

  lemma AddrSet(s: Fs, loose: set<int>, ip: int, k: int, b: int)
    requires Ok(s, loose, 0, 0) && 0 <= ip < |s.inodes| && 0 <= k <= NDIRECT && Addr(s, ip, k) == 0
    requires b in loose && b in s.disk && (k == NDIRECT ==> s.disk[b] == ZeroBlock())
    ensures |s.inodes[ip].addrs| == NDIRECT + 1
    ensures OneRef(s, WithAddr(s, ip, k, b), Slot(ip, k), b)
    ensures Ok(WithOwner(WithAddr(s, ip, k, b), b, Slot(ip, k)), loose - {b}, 0, 0)
  {
    var t := WithAddr(s, ip, k, b);
    forall q, j ensures Addr(t, q, j) == if q == ip && j == k then b else Addr(s, q, j) {
    }
    forall y ensures Ref(t, y) == if y == Slot(ip, k) then b else Ref(s, y) {
      assert Addr(t, y.ip, NDIRECT) == if y.ip == ip && k == NDIRECT then b else Addr(s, y.ip, NDIRECT);
    }
    var u := WithOwner(t, b, Slot(ip, k));
    OwnerIrrelevant(t, b, Slot(ip, k));
    RefAdded(s, u, loose, Slot(ip, k), b);
  }

  ghost function WithEntry(s: Fs, ib: int, j: int, w: int): Fs
    requires ib in s.disk && |s.disk[ib]| == BSIZE && 0 <= j < NINDIRECT
  {
    s.(disk := s.disk[ib := SetWord(s.disk[ib], j, w)])
  }

  lemma EntrySet(s: Fs, loose: set<int>, ip: int, j: int, b: int)
    requires Ok(s, loose, 0, 0) && Addr(s, ip, NDIRECT) != 0 && 0 <= j < NINDIRECT
    requires Ref(s, Slot(ip, NDIRECT + 1 + j)) == 0 && b in loose
    ensures var ib := Addr(s, ip, NDIRECT);
            ib in s.disk && IsBlock(s.disk[ib]) &&
            OneRef(s, WithEntry(s, ib, j, b), Slot(ip, NDIRECT + 1 + j), b) &&
            Ok(WithOwner(WithEntry(s, ib, j, b), b, Slot(ip, NDIRECT + 1 + j)), loose - {b}, 0, 0)
  {
    var ib, x := Addr(s, ip, NDIRECT), Slot(ip, NDIRECT + 1 + j);
    IndirectOwned(s, loose, ip);
    var t := WithEntry(s, ib, j, b);
    WordSet(s.disk[ib], j, b);
    forall y ensures Ref(t, y) == if y == x then b else Ref(s, y) {
      if Addr(s, y.ip, NDIRECT) == ib {
        IndirectOwned(s, loose, y.ip);
      }
      assert Addr(t, y.ip, y.k) == Addr(s, y.ip, y.k);
      assert Addr(t, y.ip, NDIRECT) == Addr(s, y.ip, NDIRECT);
    }
    var u := WithOwner(t, b, x);
    OwnerIrrelevant(t, b, x);
    RefAdded(s, u, loose, x, b);
  }

  lemma IndirectOwned(s: Fs, loose: set<int>, ip: int)
    requires Ok(s, loose, 0, 0) && Addr(s, ip, NDIRECT) != 0
    ensures var ib := Addr(s, ip, NDIRECT);
            ib in s.owner && s.owner[ib] == Slot(ip, NDIRECT) && s.nmeta <= ib < s.size && ib in s.disk &&
            IsBlock(s.disk[ib])
  {
    assert Ref(s, Slot(ip, NDIRECT)) == Addr(s, ip, NDIRECT);
    assert Owns(s, Ref(s, Slot(ip, NDIRECT)), Slot(ip, NDIRECT));
  }

  /** A data block gets new bytes. */
  ghost function WithData(s: Fs, b: int, blk: Block): Fs {
    s.(disk := s.disk[b := blk])
  }

  lemma DataSet(s: Fs, b: int, blk: Block)
    requires Ok(s, {}, 0, 0) && b in s.owner && s.owner[b].k != NDIRECT && IsBlock(blk)
    ensures Ok(WithData(s, b, blk), {}, 0, 0)
    ensures forall x :: Ref(WithData(s, b, blk), x) == Ref(s, x)
  {
    forall ip | Addr(s, ip, NDIRECT) != 0 ensures Addr(s, ip, NDIRECT) in s.disk && Addr(s, ip, NDIRECT) != b {
      IndirectOwned(s, {}, ip);
    }
    SameRefs(s, WithData(s, b, blk));
  }

  // ------------------------------------------------------------ what bmap keeps

  /** References are only added, to file ip; data blocks and sizes stay. */
  ghost predicate GrowsOnly(s: Fs, t: Fs, ip: int) {
    && t.nmeta == s.nmeta && t.size == s.size && |t.inodes| == |s.inodes|
    && (forall q :: 0 <= q < |s.inodes| ==> t.inodes[q].size == s.inodes[q].size)
    && (forall x {:trigger Ref(t, x)} {:trigger Ref(s, x)} ::
          Ref(t, x) == Ref(s, x) || (Ref(s, x) == 0 && x.ip == ip))
    && (forall b {:trigger b in s.owner} :: b in s.owner && s.owner[b].k != NDIRECT ==>
          b in s.disk && b in t.disk && t.disk[b] == s.disk[b])
  }

  lemma GrowsRefl(s: Fs, ip: int, loose: set<int>)
    requires Ok(s, loose, 0, 0)
    ensures GrowsOnly(s, s, ip)
  {
    hide Ref;
    assert forall b {:trigger b in s.owner} :: b in s.owner ==> b in s.disk;
  }

  lemma GrowsTrans(s: Fs, t: Fs, u: Fs, ip: int, loose: set<int>, more: set<int>)
    requires Ok(s, loose, 0, 0) && Ok(t, more, 0, 0) && GrowsOnly(s, t, ip) && GrowsOnly(t, u, ip)
    ensures GrowsOnly(s, u, ip)
  {
    hide Ref;
    forall b | b in s.owner && s.owner[b].k != NDIRECT ensures b in s.disk && b in u.disk && u.disk[b] == s.disk[b] {
      assert Ref(s, s.owner[b]) == b;
      assert Ref(t, s.owner[b]) == b;
      assert Owns(t, Ref(t, s.owner[b]), s.owner[b]);
    }
  }

  lemma TakenGrows(s: Fs, b: int, ip: int)
    requires Ok(s, {}, 0, 0) && b !in s.owner && 0 <= b / 8 < |s.bits|
    requires forall x :: Ref(Taken(s, b), x) == Ref(s, x)
    ensures GrowsOnly(s, Taken(s, b), ip)
  {
    hide Ref;
    assert forall c {:trigger c in s.owner} :: c in s.owner ==> c in s.disk;
  }

  lemma TakenFacts(s: Fs, b: int, ip: int)
    requires Ok(s, {}, 0, 0) && 0 <= b < s.size && !Bit(s.bits, b)
    ensures 0 <= b / 8 < |s.bits| && b !in s.owner
    ensures Ok(Taken(s, b), {b}, 0, 0) && GrowsOnly(s, Taken(s, b), ip)
    ensures forall x :: Ref(Taken(s, b), x) == Ref(s, x)
  {
    hide Ok, Bit, Ref, GrowsOnly;
    TakenOk(s, {}, b);
    TakenGrows(s, b, ip);
    assert {} + {b} == {b};
  }

  lemma AddrGrows(s: Fs, loose: set<int>, ip: int, k: int, b: int)
    requires Ok(s, loose, 0, 0) && 0 <= ip < |s.inodes| && 0 <= k <= NDIRECT && |s.inodes[ip].addrs| == NDIRECT + 1
    requires Ref(s, Slot(ip, k)) == 0 && OneRef(s, WithAddr(s, ip, k, b), Slot(ip, k), b)
    ensures GrowsOnly(s, WithOwner(WithAddr(s, ip, k, b), b, Slot(ip, k)), ip)
  {
    hide Ref;
    OwnerIrrelevant(WithAddr(s, ip, k, b), b, Slot(ip, k));
    assert forall c {:trigger c in s.owner} :: c in s.owner ==> c in s.disk;
  }

  lemma EntryGrows(s: Fs, loose: set<int>, ip: int, j: int, b: int)
    requires Ok(s, loose, 0, 0) && Addr(s, ip, NDIRECT) != 0 && 0 <= j < NINDIRECT
    requires Addr(s, ip, NDIRECT) in s.disk && |s.disk[Addr(s, ip, NDIRECT)]| == BSIZE
    requires Ref(s, Slot(ip, NDIRECT + 1 + j)) == 0
    requires OneRef(s, WithEntry(s, Addr(s, ip, NDIRECT), j, b), Slot(ip, NDIRECT + 1 + j), b)
    ensures GrowsOnly(s, WithOwner(WithEntry(s, Addr(s, ip, NDIRECT), j, b), b, Slot(ip, NDIRECT + 1 + j)), ip)
  {
    IndirectOwned(s, loose, ip);
    hide Ref;
    OwnerIrrelevant(WithEntry(s, Addr(s, ip, NDIRECT), j, b), b, Slot(ip, NDIRECT + 1 + j));
    assert forall c {:trigger c in s.owner} :: c in s.owner ==> c in s.disk;
  }

  /** No block is free. */
  ghost predicate Full(s: Fs) {
    forall b :: 0 <= b < s.size ==> Bit(s.bits, b)
  }

  lemma BitByte(bits: seq<bv8>, b: int, bi: int)
    requires 0 <= b && b % BPB == 0 && 0 <= bi < BPB && b + bi < 8 * |bits|
    ensures b / BPB * BSIZE + bi / 8 == (b + bi) / 8 < |bits|
    ensures bi % 8 == (b + bi) % 8
  {
  }

  // ------------------------------------------------------ what operations log

  /** A block, by what it is for. */
  datatype Home = Bitmap(k: int) | InodeOf(k: int) | Data(b: int)

  /** A block that the file system has. */
  predicate InFs(s: Fs, x: Home) {
    match x
    case Bitmap(k) => 0 <= k <= (s.size - 1) / BPB
    case InodeOf(k) => 0 <= k && k * IPB < |s.inodes|
    case Data(b) => s.nmeta <= b < s.size
  }

  /** From s to t only blocks in the log have changed, the inode `but` aside. */
  ghost predicate Covers(s: Fs, t: Fs, log: seq<Home>, but: int) {
    && t.nmeta == s.nmeta && t.size == s.size && |t.inodes| == |s.inodes|
    && (forall b {:trigger Bit(t.bits, b)} :: 0 <= b && Bitmap(b / BPB) !in log ==>
       (Bit(t.bits, b) <==> Bit(s.bits, b)))
    && (forall ip {:trigger t.inodes[ip]} ::
          0 <= ip < |s.inodes| && ip != but && InodeOf(ip / IPB) !in log ==> t.inodes[ip] == s.inodes[ip])
    && (forall b {:trigger Data(b)} {:trigger b in t.disk} {:trigger b in s.disk} ::
          Data(b) !in log ==> (b in s.disk <==> b in t.disk) && (b in s.disk ==> t.disk[b] == s.disk[b]))
  }

  lemma CoversRefl(s: Fs, but: int)
    ensures Covers(s, s, [], but)
  {
  }

  lemma CoversTrans(s: Fs, t: Fs, u: Fs, a: seq<Home>, b: seq<Home>, but: int)
    requires Covers(s, t, a, but) && Covers(t, u, b, but)
    ensures Covers(s, u, a + b, but)
  {
    hide Bit;
    forall c | 0 <= c && Bitmap(c / BPB) !in a + b ensures Bit(u.bits, c) <==> Bit(s.bits, c) {
      assert Bit(t.bits, c) <==> Bit(s.bits, c);
    }
    forall ip | 0 <= ip < |s.inodes| && ip != but && InodeOf(ip / IPB) !in a + b ensures u.inodes[ip] == s.inodes[ip] {
      assert t.inodes[ip] == s.inodes[ip];
    }
  }

  lemma CoversTaken(s: Fs, b: int, but: int)
    requires 0 <= b && b / 8 < |s.bits|
    ensures Covers(s, Taken(s, b), [Bitmap(b / BPB), Data(b)], but)
  {
    hide Bit;
    forall c | 0 <= c && Bitmap(c / BPB) !in [Bitmap(b / BPB), Data(b)]
      ensures Bit(Taken(s, b).bits, c) <==> Bit(s.bits, c)
    {
      assert Bitmap(b / BPB) in [Bitmap(b / BPB), Data(b)];
      MarksApart(s.bits, b, c);
    }
  }

  /** Steps that leave the bitmap alone, and all data blocks but those in the log. */
  lemma CoversSame(s: Fs, t: Fs, log: seq<Home>, but: int)
    requires t.nmeta == s.nmeta && t.size == s.size && t.bits == s.bits && |t.inodes| == |s.inodes|
    requires forall ip :: 0 <= ip < |s.inodes| && ip != but ==> t.inodes[ip] == s.inodes[ip]
    requires t.disk == s.disk ||
             exists b :: Data(b) in log && b in s.disk && b in t.disk && t.disk == s.disk[b := t.disk[b]]
    ensures Covers(s, t, log, but)
  {
    hide Bit;
  }

  /** What is in the log already need not be named again. */
  lemma CoversIn(s: Fs, t: Fs, log: seq<Home>, b: int, but: int)
    requires Covers(s, t, log + [Data(b)], but) && Data(b) in log
    ensures Covers(s, t, log, but)
  {
    hide Bit;
    assert forall x :: x in log + [Data(b)] <==> x in log;
  }

  lemma CoversUnmark(s: Fs, t: Fs, b: int, but: int)
    requires 0 <= b && b / 8 < |s.bits| && t.bits == Unmarked(s.bits, b)
    requires t.nmeta == s.nmeta && t.size == s.size && t.disk == s.disk && |t.inodes| == |s.inodes|
    requires forall ip :: 0 <= ip < |s.inodes| && ip != but ==> t.inodes[ip] == s.inodes[ip]
    ensures Covers(s, t, [Bitmap(b / BPB)], but)
  {
    hide Bit;
    forall c | 0 <= c && Bitmap(c / BPB) !in [Bitmap(b / BPB)] ensures Bit(t.bits, c) <==> Bit(s.bits, c) {
      assert Bitmap(b / BPB) in [Bitmap(b / BPB)];
      UnmarksApart(s.bits, b, c);
    }
  }

  /** iupdate: the inode's block is logged too. */
  lemma CoversDone(s: Fs, t: Fs, log: seq<Home>, ip: int)
    requires Covers(s, t, log, ip)
    ensures Covers(s, t, log + [InodeOf(ip / IPB)], -1)
  {
    hide Bit;
    var all := log + [InodeOf(ip / IPB)];
    assert all[|log|] == InodeOf(ip / IPB);
    forall q | 0 <= q < |s.inodes| && InodeOf(q / IPB) !in all ensures t.inodes[q] == s.inodes[q] {
      assert q != ip;
    }
  }

  ghost function Names(log: seq<Home>): set<Home> {
    set x | x in log
  }

  /** What a call of bmap may log: the blocks that it takes, and the indirect block. */
  predicate OfBmap(x: Home, addr: int, ib: int) {
    || (addr != 0 && (x == Bitmap(addr / BPB) || x == Data(addr)))
    || (ib != 0 && (x == Bitmap(ib / BPB) || x == Data(ib)))
  }

  /** k calls, of which a took a data block. */
  ghost predicate Accounted(log: seq<Home>, ib: int, k: nat, a: nat) {
    exists data: set<Home>, maps: set<Home> :: |data| <= k && |maps| <= a && AllOf(log, data, maps, ib)
  }

  ghost predicate AllOf(log: seq<Home>, data: set<Home>, maps: set<Home>, ib: int) {
    forall x :: x in log ==> x in data || x in maps || (ib != 0 && (x == Bitmap(ib / BPB) || x == Data(ib)))
  }

  lemma AccountedNone(ib: int)
    ensures Accounted([], ib, 0, 0)
  {
    assert AllOf([], {}, {}, ib);
  }

  lemma AccountedNext(log: seq<Home>, more: seq<Home>, ib: int, ib': int, addr: int, k: nat, a: nat, taken: bool)
    requires Accounted(log, ib, k, a) && (ib != 0 ==> ib' == ib)
    requires forall x :: x in more ==> OfBmap(x, addr, ib') && (!taken ==> x == Data(addr))
    ensures Accounted(log + more, ib', k + 1, if taken then a + 1 else a)
  {
    var data, maps :| |data| <= k && |maps| <= a && AllOf(log, data, maps, ib);
    var data', maps' := data + {Data(addr)}, if taken then maps + {Bitmap(addr / BPB)} else maps;
    assert AllOf(log + more, data', maps', ib');
  }

  lemma AccountedBound(log: seq<Home>, ib: int, k: nat, a: nat)
    requires Accounted(log, ib, k, a)
    ensures |Names(log)| <= k + a + 2
  {
    var data, maps :| |data| <= k && |maps| <= a && AllOf(log, data, maps, ib);
    var all := data + maps + {Bitmap(ib / BPB), Data(ib)};
    Fewer(Names(log), all);
  }

  lemma {:induction false} Fewer(a: set<Home>, b: set<Home>)
    requires a <= b
    ensures |a| <= |b|
  {
    assert b == a + (b - a);
  }

  /** How many blocks of a file hold the n bytes from off on. */
  function Touched(off: nat, n: nat): nat {
    if n == 0 then 0 else (off + n - 1) / BSIZE - off / BSIZE + 1
  }

  /** How many blocks a write may log before the inode: each block that it touches and
      the bitmap blocks for those that it takes, and two for the indirect block. A first
      block that is only written in part is there already. */
  function LogBound(off: nat, n: nat): int {
    2 * Touched(off, n) + 2 - if n > 0 && off % BSIZE != 0 then 1 else 0
  }

  lemma OfBmapIn(s: Fs, ip: int, bn: nat, addr: int, x: Home)
    requires Ok(s, {}, 0, 0) && 0 <= ip < |s.inodes| && (addr == 0 || Ref(s, DataSlot(ip, bn)) == addr)
    requires OfBmap(x, addr, Addr(s, ip, NDIRECT))
    ensures InFs(s, x)
  {
    assert Ref(s, Slot(ip, NDIRECT)) == Addr(s, ip, NDIRECT);
    assert addr != 0 ==> Owns(s, Ref(s, DataSlot(ip, bn)), DataSlot(ip, bn));
    assert Addr(s, ip, NDIRECT) != 0 ==> Owns(s, Ref(s, Slot(ip, NDIRECT)), Slot(ip, NDIRECT));
  }

  lemma AllIn(s: Fs, ip: int, bn: nat, addr: int, log: seq<Home>)
    requires Ok(s, {}, 0, 0) && 0 <= ip < |s.inodes| && (addr == 0 || Ref(s, DataSlot(ip, bn)) == addr)
    requires forall x :: x in log ==> OfBmap(x, addr, Addr(s, ip, NDIRECT))
    ensures forall x :: x in log ==> InFs(s, x)
  {
    hide Ok, Ref, OfBmap, InFs;
    forall x | x in log ensures InFs(s, x) {
      OfBmapIn(s, ip, bn, addr, x);
    }
  }

  lemma StillIn(s: Fs, t: Fs, log: seq<Home>)
    requires t.nmeta == s.nmeta && t.size == s.size && |t.inodes| == |s.inodes| && forall x :: x in log ==> InFs(s, x)
    ensures forall x :: x in log ==> InFs(t, x)
  {
  }

  /** How many of the first k blocks of a write can be missing. */
  function Takes(off: nat, k: nat): nat {
    if k > 0 && off % BSIZE != 0 then k - 1 else k
  }

  lemma TakesBound(off: nat, n: nat, k: nat, a: nat)
    requires a <= Takes(off, k) && k <= Touched(off, n)
    ensures k + a + 2 <= LogBound(off, n)
  {
  }

  lemma NextTouched(off: nat, n: nat, at: nat, k: nat)
    requires off <= at < off + n && k == at / BSIZE - off / BSIZE
    ensures k + 1 <= Touched(off, n)
  {
  }

  lemma NextBlock(at: nat, m: nat)
    requires at % BSIZE + m <= BSIZE
    ensures at % BSIZE + m == BSIZE ==> (at + m) / BSIZE == at / BSIZE + 1
  {
  }

  /** A block that is written from its middle on is below the size. */
  lemma FirstThere(s: Fs, ip: int, off: nat, at: nat, k: nat)
    requires SizesOk(s) && 0 <= ip < |s.inodes| && off <= s.inodes[ip].size
    ensures k == 0 && at == off && off % BSIZE != 0 ==> Ref(s, DataSlot(ip, at / BSIZE)) != 0
  {
    hide Ref;
    assert off % BSIZE != 0 ==> off / BSIZE * BSIZE < off;
  }

  lemma IndirectStays(s: Fs, t: Fs, ip: int)
    requires GrowsOnly(s, t, ip)
    ensures Addr(s, ip, NDIRECT) != 0 ==> Addr(t, ip, NDIRECT) == Addr(s, ip, NDIRECT)
  {
    assert Ref(s, Slot(ip, NDIRECT)) == Addr(s, ip, NDIRECT) && Ref(t, Slot(ip, NDIRECT)) == Addr(t, ip, NDIRECT);
  }

  lemma NothingPatched(blk: Block, o: nat, data: seq<int>)
    requires |blk| == BSIZE && o + |data| <= BSIZE
    ensures data == [] ==> Patched(blk, o, data) == blk
  {
  }

  /** One turn of writei's loop: how many blocks are logged by then. */
  lemma CallLogged(s0: Fs, s: Fs, ip: int, off: nat, n: nat, at: nat, log: seq<Home>, more: seq<Home>,
                   addr: int, ib': int, k: nat, a: nat, taken: bool)
    requires SizesOk(s0) && 0 <= ip < |s0.inodes| && off <= s0.inodes[ip].size
    requires off <= at < off + n && k == at / BSIZE - off / BSIZE && (k == 0 ==> s == s0 && at == off)
    requires Accounted(log, Addr(s, ip, NDIRECT), k, a) && a <= Takes(off, k)
    requires Addr(s, ip, NDIRECT) != 0 ==> ib' == Addr(s, ip, NDIRECT)
    requires taken <==> Ref(s, DataSlot(ip, at / BSIZE)) == 0
    requires forall x :: x in more ==> OfBmap(x, addr, ib') && (!taken ==> x == Data(addr))
    ensures var a' := if taken then a + 1 else a;
      a' <= Takes(off, k + 1) && k + 1 <= Touched(off, n) && Accounted(log + more, ib', k + 1, a')
  {
    hide Accounted, OfBmap, Ref, SizesOk;
    FirstThere(s0, ip, off, at, k);
    NextTouched(off, n, at, k);
    AccountedNext(log, more, Addr(s, ip, NDIRECT), ib', addr, k, a, taken);
  }

  // ------------------------------------------------------------- files of bytes

  function DataByte(s: Fs, ip: int, i: nat): int {
    var b := Ref(s, DataSlot(ip, i / BSIZE));
    if b in s.disk && |s.disk[b]| == BSIZE then s.disk[b][i % BSIZE] else 0
  }

  /** The bytes of a file. */
  function Content(s: Fs, ip: int): (c: seq<int>)
    requires 0 <= ip < |s.inodes| && 0 <= s.inodes[ip].size
    ensures |c| == s.inodes[ip].size
  {
    seq(s.inodes[ip].size, i requires i >= 0 => DataByte(s, ip, i))
  }

  /** The blocks of file ip hold these bytes. */
  ghost predicate FileHas(s: Fs, ip: int, bytes: seq<int>) {
    forall i :: 0 <= i < |bytes| ==> Ref(s, DataSlot(ip, i / BSIZE)) != 0 && DataByte(s, ip, i) == bytes[i]
  }

  ghost predicate OthersHave(s0: Fs, s: Fs, ip: int)
    requires SizesOk(s0)
  {
    forall q :: 0 <= q < |s0.inodes| && q != ip ==> FileHas(s, q, Content(s0, q))
  }

  ghost predicate SameSizes(s: Fs, t: Fs) {
    |t.inodes| == |s.inodes| && forall q :: 0 <= q < |s.inodes| ==> t.inodes[q].size == s.inodes[q].size
  }

  /** c with data written over it from off on. */
  function Spliced(c: seq<int>, off: nat, data: seq<int>): (r: seq<int>)
    requires off <= |c|
    ensures |r| == if off + |data| <= |c| then |c| else off + |data|
    ensures forall i :: 0 <= i < |r| ==> r[i] == if off <= i < off + |data| then data[i - off] else c[i]
  {
    c[..off] + data + if off + |data| <= |c| then c[off + |data|..] else []
  }

  lemma NoneSpliced(c: seq<int>, off: nat, src: seq<int>)
    requires off <= |c|
    ensures Spliced(c, off, src[..0]) == c
  {
  }

  /** What a file shows after tot bytes were written and reported, and `shown` put into
      its blocks. */
  function Shown(c: seq<int>, off: nat, src: seq<int>, tot: nat, shown: nat): (r: seq<int>)
    requires off <= |c| && tot <= shown <= |src|
    ensures |r| == (if off + tot <= |c| then |c| else off + tot)
    ensures forall i :: 0 <= i < |r| ==> r[i] == if off <= i < off + shown then src[i - off] else c[i]
  {
    Spliced(c, off, src[..shown])[..if off + tot <= |c| then |c| else off + tot]
  }

  lemma ShowsReported(c: seq<int>, off: nat, src: seq<int>, tot: nat, shown: nat)
    requires off <= |c| && tot <= shown <= |src|
    ensures Shown(c, off, src, tot, shown)[off..off + tot] == src[..tot]
  {
  }

  /** The file shows what is reported exactly if the failed copy brought nothing new
      within the file's size. */
  lemma ShowsReportedIff(c: seq<int>, off: nat, src: seq<int>, tot: nat, shown: nat)
    requires off <= |c| && tot <= shown <= |src|
    ensures Shown(c, off, src, tot, shown) == Spliced(c, off, src[..tot])
            <==> forall i :: tot <= i < shown && off + i < |c| ==> src[i] == c[off + i]
  {
    var x, y := Shown(c, off, src, tot, shown), Spliced(c, off, src[..tot]);
    assert |x| == |y|;
    forall i | tot <= i < shown && off + i < |c| ensures x[off + i] == src[i] && y[off + i] == c[off + i] {
    }
  }

  /** How far writei gets if only the first `good` of n bytes can be read: to the end, or
      to the start of the block in which the copy fails. */
  function Whole(off: nat, n: nat, good: nat): (w: nat)
    ensures w <= n && w <= good
  {
    if good >= n then n
    else if (off + good) / BSIZE * BSIZE <= off then 0
    else (off + good) / BSIZE * BSIZE - off
  }

  function Readable(n: nat, good: nat): nat {
    if good < n then good else n
  }

  /** Nothing is put into a block without being reported exactly if all can be read, or
      nothing, or the bytes that can end with a block. */
  lemma WholeIff(off: nat, n: nat, good: nat)
    ensures Whole(off, n, good) == Readable(n, good) <==> good >= n || good == 0 || (off + good) % BSIZE == 0
  {
    BlockStart(off + good);
  }

  lemma BlockStart(at: nat)
    ensures at == at / BSIZE * BSIZE + at % BSIZE && 0 <= at % BSIZE < BSIZE
  {
  }

  lemma WholeTurns(off: nat, n: nat, good: nat, tot: nat, m: nat)
    requires tot <= n && tot <= good && (tot == 0 || tot == n || (off + tot) % BSIZE == 0)
    requires m == if n - tot < BSIZE - (off + tot) % BSIZE then n - tot else BSIZE - (off + tot) % BSIZE
    ensures tot <= Whole(off, n, good) && (good < tot + m ==> Whole(off, n, good) == tot)
    ensures tot + m == n || (off + tot + m) % BSIZE == 0
  {
    BlockStart(off + good);
    BlockStart(off + tot);
    if good < n {
      assert (off + good) / BSIZE >= (off + tot) / BSIZE;
    }
  }

  /** Why writei stopped after r bytes: the next block is missing and the disk is full, or
      else the copy decided. */
  ghost predicate Stopped(t: Fs, ip: int, off: nat, n: nat, good: nat, r: int, shown: nat) {
    && 0 <= r <= Whole(off, n, good)
    && if r < n && Ref(t, DataSlot(ip, (off + r) / BSIZE)) == 0 then Full(t) && shown == r
       else r == Whole(off, n, good) && shown == Readable(n, good)
  }

  lemma StoppedSized(s: Fs, t: Fs, ip: int, off: nat, n: nat, good: nat, r: int, shown: nat)
    requires Stopped(s, ip, off, n, good, r, shown) && (Full(s) ==> Full(t)) && forall x :: Ref(t, x) == Ref(s, x)
    ensures Stopped(t, ip, off, n, good, r, shown)
  {
    hide Ref, Full;
  }

  lemma TurnStops(t: Fs, ip: int, off: nat, n: nat, good: nat, tot: nat, m: nat, fits: nat, addr: int)
    requires tot < n && tot <= Whole(off, n, good) && (good < tot + m ==> Whole(off, n, good) == tot)
    requires addr == Ref(t, DataSlot(ip, (off + tot) / BSIZE)) && fits <= m
    requires if addr == 0 then fits == 0 && Full(t) else fits < m && tot + fits == good < n
    ensures Stopped(t, ip, off, n, good, tot, tot + fits)
  {
    hide Ref, Full, Whole;
  }

  lemma AllDone(s: Fs, t: Fs, ip: int, off: nat, src: seq<int>, good: nat)
    requires |src| <= good
    ensures Stopped(t, ip, off, |src|, good, |src|, |src|) && AllLogged(s, ip, off, src, |src|, |src|)
  {
  }

  /** If a block is free or all blocks were there, the copy decides. */
  lemma CopyDecides(t: Fs, ip: int, off: nat, n: nat, good: nat, r: int, shown: nat)
    requires SizesOk(t) && 0 <= ip < |t.inodes| && Stopped(t, ip, off, n, good, r, shown)
    ensures !Full(t) || off + n <= t.inodes[ip].size ==> r == Whole(off, n, good) && shown == Readable(n, good)
  {
    hide Ref;
    if r < n && off + n <= t.inodes[ip].size {
      BlockStart(off + r);
      assert (off + r) / BSIZE * BSIZE < t.inodes[ip].size;
    }
  }

  /** A copy of which only `good` bytes can be read leaves the file showing what is
      reported exactly if the bytes from the last whole block on are, within the file's
      size, those that were there. */
  lemma FailedCopyIff(c: seq<int>, off: nat, src: seq<int>, good: nat)
    requires off <= |c|
    ensures var w, m := Whole(off, |src|, good), Readable(|src|, good);
            Shown(c, off, src, w, m) == Spliced(c, off, src[..w])
            <==> forall i :: w <= i < m && off + i < |c| ==> src[i] == c[off + i]
  {
    ShowsReportedIff(c, off, src, Whole(off, |src|, good), Readable(|src|, good));
  }

  /** What is put into blocks and not reported needs no logging: the block is new, so its
      contents are logged anyway, or it held these bytes. */
  ghost predicate AllLogged(s: Fs, ip: int, off: nat, src: seq<int>, r: nat, shown: nat)
    requires r <= shown <= |src|
  {
    || Ref(s, DataSlot(ip, (off + r) / BSIZE)) == 0
    || forall i :: r <= i < shown ==> DataByte(s, ip, off + i) == src[i]
  }

  /** The same as the caller can tell before the call. */
  ghost predicate Harmless(s: Fs, ip: int, off: nat, src: seq<int>, good: nat) {
    AllLogged(s, ip, off, src, Whole(off, |src|, good), Readable(|src|, good))
  }

  lemma HarmlessLogged(s: Fs, t: Fs, ip: int, off: nat, src: seq<int>, good: nat, r: int, shown: nat)
    requires Stopped(t, ip, off, |src|, good, r, shown)
    ensures r <= shown <= |src|
    ensures Harmless(s, ip, off, src, good) ==> AllLogged(s, ip, off, src, r, shown)
    ensures r == Whole(off, |src|, good) && shown == Readable(|src|, good) ==>
              (Harmless(s, ip, off, src, good) <==> AllLogged(s, ip, off, src, r, shown))
    ensures good >= |src| || good == 0 || (off + good) % BSIZE == 0 ==> shown == r && Harmless(s, ip, off, src, good)
  {
    hide Ref, DataByte;
    WholeIff(off, |src|, good);
  }

  /** Block b has changed and was not logged. */
  ghost predicate Unlogged(s: Fs, t: Fs, b: int, log: seq<Home>) {
    && s.nmeta <= b < s.size && Data(b) !in log
    && b in s.disk && b in t.disk && t.disk[b] != s.disk[b]
  }

  lemma StillUnlogged(s: Fs, t: Fs, u: Fs, b: int, log: seq<Home>, x: Home)
    requires Unlogged(s, t, b, log) && u.disk == t.disk && !x.Data?
    ensures Unlogged(s, u, b, log + [x])
  {
  }

  lemma UnloggedUncovered(s: Fs, t: Fs, b: int, log: seq<Home>, but: int)
    requires Unlogged(s, t, b, log)
    ensures !Covers(s, t, log, but)
  {
  }

  /** When all is logged, the file shows just what is reported. */
  lemma LoggedShows(s: Fs, ip: int, off: nat, src: seq<int>, r: nat, shown: nat)
    requires SizesOk(s) && 0 <= ip < |s.inodes| && off <= s.inodes[ip].size && r <= shown <= |src|
    requires AllLogged(s, ip, off, src, r, shown)
    ensures 0 <= s.inodes[ip].size
    ensures Shown(Content(s, ip), off, src, r, shown) == Spliced(Content(s, ip), off, src[..r])
  {
    hide Ref, DataByte;
    var c := Content(s, ip);
    ShowsReportedIff(c, off, src, r, shown);
    BlockStart(off + r);
    forall i | r <= i < shown && off + i < |c| ensures src[i] == c[off + i] {
      assert c[off + i] == DataByte(s, ip, off + i);
    }
  }

  /** readi's n, cut at the size; 0 for a bad range. */
  function Wanted(size: int, off: int, n: int): int {
    if off > size || off + n >= UINT then 0 else if off + n > size then size - off else n
  }

  lemma BlockOf(s: Fs, ip: int, i: nat)
    requires Ok(s, {}, 0, 0) && Ref(s, DataSlot(ip, i / BSIZE)) != 0
    ensures var b := Ref(s, DataSlot(ip, i / BSIZE));
            b in s.owner && s.owner[b] == DataSlot(ip, i / BSIZE) && b in s.disk && IsBlock(s.disk[b]) &&
            DataByte(s, ip, i) == s.disk[b][i % BSIZE]
  {
    assert Owns(s, Ref(s, DataSlot(ip, i / BSIZE)), DataSlot(ip, i / BSIZE));
  }

  lemma HasContent(s: Fs, ip: int)
    requires SizesOk(s) && 0 <= ip < |s.inodes|
    ensures FileHas(s, ip, Content(s, ip))
  {
    hide Ref;
    forall i | 0 <= i < s.inodes[ip].size ensures Ref(s, DataSlot(ip, i / BSIZE)) != 0 {
      assert i / BSIZE * BSIZE <= i;
    }
  }

  lemma GrowsHas(s: Fs, t: Fs, ip: int, q: int, bytes: seq<int>)
    requires Ok(s, {}, 0, 0) && Ok(t, {}, 0, 0) && GrowsOnly(s, t, ip) && FileHas(s, q, bytes)
    ensures FileHas(t, q, bytes)
  {
    hide Ref, Ok;
    forall i | 0 <= i < |bytes| ensures Ref(t, DataSlot(q, i / BSIZE)) != 0 && DataByte(t, q, i) == bytes[i] {
      BlockOf(s, q, i);
      assert Ref(t, DataSlot(q, i / BSIZE)) == Ref(s, DataSlot(q, i / BSIZE));
    }
  }

  /** Bytes o to o + |data| of a block. */
  function Patched(blk: Block, o: nat, data: seq<int>): (r: Block)
    requires |blk| == BSIZE && o + |data| <= BSIZE
    ensures |r| == BSIZE
    ensures forall i :: 0 <= i < BSIZE ==> r[i] == if o <= i < o + |data| then data[i - o] else blk[i]
  {
    blk[..o] + data + blk[o + |data|..]
  }

  /** Block b of t is that of s with the bytes from o on replaced; nothing else differs. */
  ghost predicate Overwritten(s: Fs, t: Fs, b: int, o: nat, data: seq<int>) {
    && b in s.disk && |s.disk[b]| == BSIZE && o + |data| <= BSIZE
    && t == WithData(s, b, Patched(s.disk[b], o, data))
  }

  lemma OneDataRefOn(s: Fs, t: Fs, u: Fs, ip: int, bn: int, b: int)
    requires OneDataRef(s, t, ip, bn, b) && 0 <= bn && forall x :: Ref(u, x) == Ref(t, x)
    ensures OneDataRef(s, u, ip, bn, b) && Ref(u, DataSlot(ip, bn)) == b
  {
    hide Ref;
  }

  /** The file's blocks from index n on: as they were in s, and not logged. */
  ghost predicate Ahead(s: Fs, t: Fs, ip: int, n: int, log: seq<Home>) {
    forall i {:trigger Ref(t, DataSlot(ip, i))} :: 0 <= n <= i ==>
      Ref(t, DataSlot(ip, i)) == Ref(s, DataSlot(ip, i)) &&
      (Ref(s, DataSlot(ip, i)) != 0 ==> Data(Ref(s, DataSlot(ip, i))) !in log)
  }

  lemma AheadStart(s: Fs, ip: int, n: int)
    ensures Ahead(s, s, ip, n, [])
  {
  }

  /** Each turn leaves the blocks behind its own alone. */
  lemma AheadNext(s0: Fs, s: Fs, t: Fs, ip: int, n: int, addr: int, log: seq<Home>, more: seq<Home>)
    requires Ahead(s0, s, ip, n, log) && 0 <= n && Ok(t, {}, 0, 0) && OneDataRef(s, t, ip, n, addr)
    requires forall x :: x in more ==> OfBmap(x, addr, Addr(t, ip, NDIRECT))
    ensures Ahead(s0, t, ip, n + 1, log + more)
  {
    hide Ok, Ref, OfBmap;
    forall i | n + 1 <= i
      ensures Ref(t, DataSlot(ip, i)) == Ref(s0, DataSlot(ip, i))
      ensures Ref(s0, DataSlot(ip, i)) != 0 ==> Data(Ref(s0, DataSlot(ip, i))) !in log + more
    {
      assert Ref(t, DataSlot(ip, i)) == Ref(s, DataSlot(ip, i)) == Ref(s0, DataSlot(ip, i));
      OneDataRefAt(s, t, ip, n, addr);
      if Ref(s0, DataSlot(ip, i)) != 0 {
        OtherBlock(t, ip, n, i, addr);
      }
    }
  }

  lemma OtherBlock(t: Fs, ip: int, n: int, i: int, addr: int)
    requires Ok(t, {}, 0, 0) && 0 <= n < i && addr == Ref(t, DataSlot(ip, n)) && Ref(t, DataSlot(ip, i)) != 0
    ensures !OfBmap(Data(Ref(t, DataSlot(ip, i))), addr, Addr(t, ip, NDIRECT))
  {
    assert Owns(t, Ref(t, DataSlot(ip, i)), DataSlot(ip, i));
    assert addr != 0 ==> Owns(t, Ref(t, DataSlot(ip, n)), DataSlot(ip, n));
    assert Ref(t, Slot(ip, NDIRECT)) == Addr(t, ip, NDIRECT);
    assert Addr(t, ip, NDIRECT) != 0 ==> Owns(t, Ref(t, Slot(ip, NDIRECT)), Slot(ip, NDIRECT));
  }

  /** The byte of a file that lies i past byte `at`, in the same block. */
  lemma ByteOf(s: Fs, ip: int, at: nat, i: nat, b: int)
    requires b == Ref(s, DataSlot(ip, at / BSIZE)) && b in s.disk && |s.disk[b]| == BSIZE && at % BSIZE + i < BSIZE
    ensures DataByte(s, ip, at + i) == s.disk[b][at % BSIZE + i]
  {
    hide Ref;
    InBlock(at, i + 1, at + i);
  }

  lemma SamePatch(blk: Block, o: nat, src: seq<int>, tot: nat, n: nat)
    requires |blk| == BSIZE && o + n <= BSIZE && tot + n <= |src|
    ensures Patched(blk, o, src[tot..tot + n]) == blk <==> forall i :: tot <= i < tot + n ==> src[i] == blk[o + i - tot]
  {
    var r := Patched(blk, o, src[tot..tot + n]);
    if r == blk {
      forall i | tot <= i < tot + n ensures src[i] == blk[o + i - tot] {
        assert r[o + i - tot] == src[tot..tot + n][o + i - tot - o];
      }
    }
  }

  /** The turn in which the copy fails, in a block that was there before: what it leaves is
      covered exactly if the bytes that came are those that the block held. */
  lemma PartLogged(s0: Fs, s: Fs, t: Fs, ip: int, off: nat, src: seq<int>, tot: nat, n: nat, addr: int,
                   log: seq<Home>)
    requires Ok(s, {}, 0, 0) && Covers(s0, s, log, ip) && Ahead(s0, s, ip, (off + tot) / BSIZE, log)
    requires addr == Ref(s, DataSlot(ip, (off + tot) / BSIZE)) && addr != 0 && tot + n <= |src|
    requires Overwritten(s, t, addr, (off + tot) % BSIZE, src[tot..tot + n])
    ensures Ref(s0, DataSlot(ip, (off + tot) / BSIZE)) == addr
    ensures if forall i :: tot <= i < tot + n ==> DataByte(s0, ip, off + i) == src[i] then Covers(s0, t, log, ip)
            else Unlogged(s0, t, addr, log)
  {
    hide Ok, Ref, Covers, DataByte, Patched;
    var at := off + tot;
    BlockOf(s, ip, at);
    InUse(s, addr);
    assert Ref(s, DataSlot(ip, at / BSIZE)) == Ref(s0, DataSlot(ip, at / BSIZE));
    CoveredBlock(s0, s, log, ip, addr);
    forall i | tot <= i < tot + n
      ensures DataByte(s0, ip, off + i) == src[i] <==> src[i] == s.disk[addr][at % BSIZE + i - tot]
    {
      ByteOf(s0, ip, at, i - tot, addr);
    }
    SamePatch(s.disk[addr], at % BSIZE, src, tot, n);
    if forall i :: tot <= i < tot + n ==> DataByte(s0, ip, off + i) == src[i] {
      assert t == s;
    }
  }

  /** What a turn of writei's loop leaves to the log. */
  lemma TurnLogged(s0: Fs, s: Fs, t: Fs, ip: int, off: nat, src: seq<int>, tot: nat, m: nat, fits: nat, addr: int,
                   log: seq<Home>, more: seq<Home>)
    requires Ok(s, {}, 0, 0) && Covers(s0, s, log, ip) && Ahead(s0, s, ip, (off + tot) / BSIZE, log)
    requires fits <= m && tot + m <= |src|
    requires fits == 0 || fits == m || Ref(s, DataSlot(ip, (off + tot) / BSIZE)) == 0 ==> Covers(s, t, more, ip)
    requires 0 < fits < m ==> addr == Ref(t, DataSlot(ip, (off + tot) / BSIZE)) != 0
    requires 0 < fits < m && Ref(s, DataSlot(ip, (off + tot) / BSIZE)) != 0 ==>
               more == [] && Ref(s, DataSlot(ip, (off + tot) / BSIZE)) == addr &&
               Overwritten(s, t, addr, (off + tot) % BSIZE, src[tot..tot + fits])
    ensures fits == 0 || fits == m ==> Covers(s0, t, log + more, ip)
    ensures fits < m ==> if AllLogged(s0, ip, off, src, tot, tot + fits) then Covers(s0, t, log + more, ip)
                         else Unlogged(s0, t, Ref(s0, DataSlot(ip, (off + tot) / BSIZE)), log + more)
  {
    hide Ok, Ref, Covers, DataByte, Overwritten, DataSlot, Unlogged;
    var x := DataSlot(ip, (off + tot) / BSIZE);
    assert Ref(s, x) == Ref(s0, x);
    if fits == 0 || fits == m || Ref(s, x) == 0 {
      CoversTrans(s0, s, t, log, more, ip);
    } else {
      assert log + more == log;
      PartLogged(s0, s, t, ip, off, src, tot, fits, addr, log);
    }
  }

  lemma InUse(s: Fs, b: int)
    requires Ok(s, {}, 0, 0) && b in s.owner
    ensures s.nmeta <= b < s.size
  {
  }

  lemma CoveredBlock(s: Fs, t: Fs, log: seq<Home>, but: int, b: int)
    requires Covers(s, t, log, but) && Data(b) !in log && b in t.disk
    ensures b in s.disk && t.disk[b] == s.disk[b] && t.nmeta == s.nmeta && t.size == s.size
  {
  }

  /** Where byte i lies, when the bytes from off to off + m are in one block. */
  lemma InBlock(off: nat, m: nat, i: nat)
    requires off % BSIZE + m <= BSIZE
    ensures off <= i < off + m ==> i / BSIZE == off / BSIZE && i % BSIZE == off % BSIZE + (i - off)
    ensures i / BSIZE == off / BSIZE && !(off <= i < off + m) ==> !(off % BSIZE <= i % BSIZE < off % BSIZE + m)
  {
  }

  lemma OtherFilePatched(s: Fs, ip: int, off: nat, blk: Block, q: int, bytes: seq<int>)
    requires Ok(s, {}, 0, 0) && q != ip && Ref(s, DataSlot(ip, off / BSIZE)) != 0 && IsBlock(blk)
    requires FileHas(s, q, bytes)
    ensures FileHas(WithData(s, Ref(s, DataSlot(ip, off / BSIZE)), blk), q, bytes)
  {
    hide Ref, Ok;
    BlockOf(s, ip, off);
    var b := Ref(s, DataSlot(ip, off / BSIZE));
    DataSet(s, b, blk);
    forall i | 0 <= i < |bytes|
      ensures Ref(WithData(s, b, blk), DataSlot(q, i / BSIZE)) != 0 && DataByte(WithData(s, b, blk), q, i) == bytes[i]
    {
      BlockOf(s, q, i);
    }
  }

  /** One turn of writei's loop: the part of one block from byte off on. */
  lemma FilePatched(s: Fs, ip: int, c: seq<int>, off0: nat, src: seq<int>, tot: nat, m: nat, blk: Block)
    requires Ok(s, {}, 0, 0) && off0 <= |c| && tot + m <= |src| && (off0 + tot) % BSIZE + m <= BSIZE
    requires Ref(s, DataSlot(ip, (off0 + tot) / BSIZE)) != 0
    requires FileHas(s, ip, Spliced(c, off0, src[..tot]))
    requires var b := Ref(s, DataSlot(ip, (off0 + tot) / BSIZE));
             b in s.disk && |s.disk[b]| == BSIZE &&
             blk == Patched(s.disk[b], (off0 + tot) % BSIZE, src[tot..tot + m]) && IsBlock(blk)
    ensures FileHas(WithData(s, Ref(s, DataSlot(ip, (off0 + tot) / BSIZE)), blk), ip, Spliced(c, off0, src[..tot + m]))
  {
    hide Ref, Ok;
    var off := off0 + tot;
    BlockOf(s, ip, off);
    var b := Ref(s, DataSlot(ip, off / BSIZE));
    DataSet(s, b, blk);
    var t := WithData(s, b, blk);
    var was := Spliced(c, off0, src[..tot]);
    var bytes := Spliced(c, off0, src[..tot + m]);
    forall i | 0 <= i < |bytes| ensures Ref(t, DataSlot(ip, i / BSIZE)) != 0 && DataByte(t, ip, i) == bytes[i] {
      InBlock(off, m, i);
      if off <= i < off + m {
        assert bytes[i] == src[i - off0];
      } else {
        assert i < |was| && bytes[i] == was[i];
        BlockOf(s, ip, i);
      }
    }
  }

  ghost function WithSize(s: Fs, ip: int, size: int): Fs
    requires 0 <= ip < |s.inodes|
  {
    s.(inodes := s.inodes[ip := s.inodes[ip].(size := size)])
  }

  lemma SizeSet(s: Fs, ip: int, size: int)
    requires Ok(s, {}, 0, 0) && 0 <= ip < |s.inodes|
    ensures Ok(WithSize(s, ip, size), {}, 0, 0)
    ensures forall x :: Ref(WithSize(s, ip, size), x) == Ref(s, x)
    ensures forall q, i: nat :: DataByte(WithSize(s, ip, size), q, i) == DataByte(s, q, i)
    ensures Full(s) ==> Full(WithSize(s, ip, size))
  {
    var t := WithSize(s, ip, size);
    forall x ensures Ref(t, x) == Ref(s, x) {
      assert Addr(t, x.ip, NDIRECT) == Addr(s, x.ip, NDIRECT);
      assert Addr(t, x.ip, x.k) == Addr(s, x.ip, x.k);
    }
  }

  /** The file system, one operation at a time. */
  class FileSystem {
    const nmeta: int
    const size: int
    var bits: seq<bv8>
    var disk: map<int, Block>
    var inodes: seq<Inode>
    ghost var owner: map<int, Slot>

    ghost function S(): Fs
      reads this
    {
      Fs(nmeta, size, bits, disk, inodes, owner)
    }

    /** balloc: the first free block, zeroed; 0 if there is none. */
    method Balloc() returns (r: int, log: seq<Home>)
      requires Ok(S(), {}, 0, 0)
      modifies this
      ensures r == 0 ==> S() == old(S()) && Full(S())
      ensures r != 0 ==> 0 <= r < size && !Bit(old(bits), r) && forall b :: 0 <= b < r ==> Bit(old(bits), b)
      ensures r != 0 ==> 0 <= r / 8 < |old(bits)| && S() == Taken(old(S()), r)
      ensures log == if r == 0 then [] else [Bitmap(r / BPB), Data(r)]
    {
      hide Ok, Bit, Mask, GrowsOnly, Ref;
      BitsCover(S(), {});
      var b := 0;
      while b < size
        invariant 0 <= b && b % BPB == 0 && S() == old(S())
        invariant forall c :: 0 <= c < b && c < size ==> Bit(bits, c)
      {
        var bi := 0;
        while bi < BPB && b + bi < size
          invariant 0 <= bi <= BPB && S() == old(S())
          invariant forall c :: 0 <= c < b + bi && c < size ==> Bit(bits, c)
        {
          BitByte(bits, b, bi);
          BitInByte(bits, b + bi);
          var at := b / BPB * BSIZE + bi / 8;
          var m := Mask(bi % 8);
          if bits[at] & m == 0 {
            bits := bits[at := bits[at] | m];
            disk := disk[b + bi := ZeroBlock()];
            assert S() == Taken(old(S()), b + bi);
            return b + bi, [Bitmap((b + bi) / BPB), Data(b + bi)];
          }
          bi := bi + 1;
        }
        b := b + BPB;
      }
      r, log := 0, [];
    }

    /** A new block becomes slot (ip, k) of the inode: what bmap does with addrs[k]. */
    method NewAddr(ip: int, k: int) returns (addr: int, log: seq<Home>)
      requires Ok(S(), {}, 0, 0) && 0 <= ip < |inodes| && 0 <= k <= NDIRECT && Addr(S(), ip, k) == 0
      modifies this
      ensures Ok(S(), {}, 0, 0) && GrowsOnly(old(S()), S(), ip)
      ensures addr == 0 ==> S() == old(S()) && Full(S())
      ensures addr != 0 ==> OneRef(old(S()), S(), Slot(ip, k), addr) && addr !in old(owner)
      ensures addr != 0 ==> Addr(S(), ip, k) == addr
      ensures addr != 0 ==> addr in disk && disk[addr] == ZeroBlock()
      ensures log == (if addr == 0 then [] else [Bitmap(addr / BPB), Data(addr)]) && Covers(old(S()), S(), log, ip)
    {
      hide Ok, GrowsOnly, Full, Bit, Covers;
      ghost var s := S();
      GrowsRefl(s, ip, {});
      CoversRefl(s, ip);
      addr, log := Balloc();
      if addr == 0 {
        return;
      }
      CoversTaken(s, addr, ip);
      TakenFacts(s, addr, ip);
      ghost var t := S();
      assert Ref(s, Slot(ip, k)) == Addr(s, ip, k);
      assert Ref(t, Slot(ip, k)) == Addr(t, ip, k);
      AddrSet(t, {addr}, ip, k, addr);
      AddrGrows(t, {addr}, ip, k, addr);
      inodes := inodes[ip := inodes[ip].(addrs := inodes[ip].addrs[k := addr])];
      owner := owner[addr := Slot(ip, k)];
      assert S() == WithOwner(WithAddr(t, ip, k, addr), addr, Slot(ip, k));
      CoversSame(t, S(), [], ip);
      CoversTrans(s, t, S(), log, [], ip);
      assert log + [] == log;
      OwnerIrrelevant(WithAddr(t, ip, k, addr), addr, Slot(ip, k));
      assert {addr} - {addr} == {};
      GrowsTrans(s, t, S(), ip, {}, {addr});
    }

    /** A new block becomes entry n of the indirect block: what bmap does with a[n]. */
    method NewEntry(ip: int, n: int) returns (addr: int, log: seq<Home>)
      requires Ok(S(), {}, 0, 0) && 0 <= ip < |inodes| && 0 <= n < NINDIRECT
      requires Addr(S(), ip, NDIRECT) != 0 && Ref(S(), Slot(ip, NDIRECT + 1 + n)) == 0
      modifies this
      ensures Ok(S(), {}, 0, 0) && GrowsOnly(old(S()), S(), ip)
      ensures addr == 0 ==> S() == old(S()) && Full(S())
      ensures addr != 0 ==> OneRef(old(S()), S(), Slot(ip, NDIRECT + 1 + n), addr)
      ensures addr != 0 ==> addr in disk && disk[addr] == ZeroBlock()
      ensures log == if addr == 0 then [] else [Bitmap(addr / BPB), Data(addr), Data(Addr(old(S()), ip, NDIRECT))]
      ensures inodes == old(inodes) && Covers(old(S()), S(), log, ip)
    {
      hide Ok, GrowsOnly, Full, Bit, Ref, Covers;
      ghost var s := S();
      GrowsRefl(s, ip, {});
      CoversRefl(s, ip);
      var ib := inodes[ip].addrs[NDIRECT];
      addr, log := Balloc();
      if addr == 0 {
        return;
      }
      CoversTaken(s, addr, ip);
      TakenFacts(s, addr, ip);
      ghost var t := S();
      ghost var x := Slot(ip, NDIRECT + 1 + n);
      EntrySet(t, {addr}, ip, n, addr);
      IndirectOwned(t, {addr}, ip);
      LooseIsNew(t, {addr}, addr);
      EntryGrows(t, {addr}, ip, n, addr);
      disk := disk[ib := SetWord(disk[ib], n, addr)];
      owner := owner[addr := x];
      assert S() == WithOwner(WithEntry(t, ib, n, addr), addr, x);
      CoversSame(t, S(), [Data(ib)], ip);
      CoversTrans(s, t, S(), log, [Data(ib)], ip);
      log := log + [Data(ib)];
      OwnerIrrelevant(WithEntry(t, ib, n, addr), addr, x);
      assert {addr} - {addr} == {};
      GrowsTrans(s, t, S(), ip, {}, {addr});
    }

    /** bmap: the block of a file's index bn, allocated if it was not there. */
    method Bmap(ip: int, bn: int) returns (addr: int, log: seq<Home>)
      requires Ok(S(), {}, 0, 0) && 0 <= ip < |inodes| && 0 <= bn < MAXFILE
      modifies this
      ensures Ok(S(), {}, 0, 0) && GrowsOnly(old(S()), S(), ip)
      ensures addr == 0 ==> Full(S())
      ensures addr != 0 ==> OneDataRef(old(S()), S(), ip, bn, addr)
      ensures Ref(S(), DataSlot(ip, bn)) == addr
      ensures Ref(old(S()), DataSlot(ip, bn)) != 0 ==> addr != 0 && S() == old(S()) && log == []
      ensures Ref(old(S()), DataSlot(ip, bn)) == 0 && addr != 0 ==>
                addr in disk && disk[addr] == ZeroBlock() && Data(addr) in log
      ensures Covers(old(S()), S(), log, ip) && forall x :: x in log ==> OfBmap(x, addr, Addr(S(), ip, NDIRECT))
    {
      hide Ok, GrowsOnly, Full, Bit, OneRef, Covers;
      ghost var s := S();
      GrowsRefl(s, ip, {});
      CoversRefl(s, ip);
      AddrsThere(s, {}, ip);
      log := [];
      if bn < NDIRECT {
        addr := inodes[ip].addrs[bn];
        assert addr == Ref(s, DataSlot(ip, bn));
        if addr == 0 {
          addr, log := NewAddr(ip, bn);
          if addr != 0 {
            OneRefIsData(s, S(), ip, bn, addr);
          }
        }
        return;
      }
      addr, log := IndirectOf(ip, bn);
      if addr == 0 {
        return;
      }
      ghost var t, ib := S(), addr;
      var n := bn - NDIRECT;
      IndirectOwned(t, {}, ip);
      addr := Word(disk[addr], n);
      assert addr == Ref(t, DataSlot(ip, bn));
      var more := [];
      CoversRefl(t, ip);
      if addr == 0 {
        addr, more := NewEntry(ip, n);
        if addr != 0 {
          OneRefIsData(t, S(), ip, bn, addr);
        }
      }
      assert Addr(S(), ip, NDIRECT) == ib;
      GrowsTrans(s, t, S(), ip, {}, {});
      CoversTrans(s, t, S(), log, more, ip);
      assert forall x :: x in log + more ==> x in log || x in more;
      log := log + more;
    }

    /** The indirect block, allocated if it was not there. */
    method IndirectOf(ip: int, ghost bn: int) returns (ib: int, log: seq<Home>)
      requires Ok(S(), {}, 0, 0) && 0 <= ip < |inodes| && NDIRECT <= bn < MAXFILE
      modifies this
      ensures Ok(S(), {}, 0, 0) && GrowsOnly(old(S()), S(), ip) && Covers(old(S()), S(), log, ip)
      ensures ib == Addr(S(), ip, NDIRECT) &&
              (ib == 0 ==> Full(S()) && log == [] && Ref(old(S()), DataSlot(ip, bn)) == 0)
      ensures forall q, n :: 0 <= n ==> Ref(S(), DataSlot(q, n)) == Ref(old(S()), DataSlot(q, n))
      ensures Ref(old(S()), DataSlot(ip, bn)) != 0 ==> S() == old(S()) && log == []
      ensures forall x :: x in log ==> x == Bitmap(ib / BPB) || x == Data(ib)
    {
      hide Ok, GrowsOnly, Full, Bit, OneRef, Covers;
      ghost var s := S();
      GrowsRefl(s, ip, {});
      CoversRefl(s, ip);
      AddrsThere(s, {}, ip);
      log := [];
      ib := inodes[ip].addrs[NDIRECT];
      if ib == 0 {
        assert Ref(s, DataSlot(ip, bn)) == 0;
        ib, log := NewAddr(ip, NDIRECT);
        if ib != 0 {
          OneRefNoData(s, S(), ip, ib);
        }
      }
    }

    /** readi into memory of which the first `good` bytes may be written: exactly the
        bytes of the range, cut at the file's size; -1 if they do not all go there. */
    method Readi(ip: int, off: int, n: int, good: nat) returns (tot: int, out: seq<int>)
      requires Ok(S(), {}, 0, 0) && SizesOk(S()) && 0 <= ip < |inodes| && 0 <= off < UINT && 0 <= n < UINT
      modifies this
      ensures S() == old(S())
      ensures var want := Wanted(inodes[ip].size, off, n);
        tot == (if want <= good then want else -1) && |out| == (if want <= good then want else good)
      ensures off <= inodes[ip].size ==> off + |out| <= inodes[ip].size && out == Content(S(), ip)[off..off + |out|]
    {
      hide Ok, Ref, Bit, GrowsOnly, OneDataRef, FileHas, SizesOk, DataByte;
      SizeBound(S(), ip);
      if off > inodes[ip].size || (off + n) % UINT < off {
        return 0, [];
      }
      var todo := n;
      if (off + n) % UINT > inodes[ip].size {
        todo := inodes[ip].size - off;
      }
      ghost var c := Content(S(), ip);
      HasContent(S(), ip);
      tot, out := 0, [];
      var at := off;
      while tot < todo
        invariant S() == old(S()) && 0 <= tot <= todo && at == off + tot && tot <= good
        invariant out == c[off..at]
      {
        HasBlock(S(), ip, c, at);
        BlockOf(S(), ip, at);
        var addr, _ := Bmap(ip, at / BSIZE);
        if addr == 0 {
          break;
        }
        var m := if todo - tot < BSIZE - at % BSIZE then todo - tot else BSIZE - at % BSIZE;
        OneDataRefAt(S(), S(), ip, at / BSIZE, addr);
        var fits := if tot + m <= good then m else good - tot;
        NextPiece(S(), ip, c, off, at, fits, addr);
        out := out + disk[addr][at % BSIZE..at % BSIZE + fits];
        if fits < m {
          tot := -1;
          break;
        }
        tot := tot + m;
        at := at + m;
      }
    }

    /** writei from memory of which the first `good` bytes can be read: a prefix of the
        bytes is written, all of them unless the disk is full or the copy fails. A copy
        that fails has still put its first bytes into the block; those within the file's
        size show (`shown` counts all that do), though they are not reported or logged. */
    method Writei(ip: int, src: seq<int>, off: int, good: nat) returns (r: int, ghost shown: nat, log: seq<Home>)
      requires Ok(S(), {}, 0, 0) && SizesOk(S()) && 0 <= ip < |inodes| && 0 <= off < UINT && |src| < UINT
      requires forall i :: 0 <= i < |src| ==> 0 <= src[i] < 256
      modifies this
      ensures Ok(S(), {}, 0, 0) && SizesOk(S()) && |inodes| == |old(inodes)|
      ensures r == -1 <==> off > old(inodes[ip].size) || off + |src| > MAXFILE * BSIZE
      ensures r != -1 ==> Stopped(S(), ip, off, |src|, good, r, shown)
      ensures r != -1 && (!Full(S()) || off + |src| <= old(inodes[ip].size)) ==>
                r == Whole(off, |src|, good) && shown == Readable(|src|, good)
      ensures r == -1 ==> S() == old(S())
      ensures r != -1 ==> 0 <= r <= shown <= |src| && (r < |src| ==> Full(S()) || good < |src|)
      ensures r != -1 ==> shown == r || (r < shown == good < |src|)
      ensures r != -1 ==> off <= |old(Content(S(), ip))|
      ensures r != -1 ==> Content(S(), ip) == Shown(old(Content(S(), ip)), off, src, r, shown)
      ensures forall q :: 0 <= q < |inodes| && q != ip ==> Content(S(), q) == old(Content(S(), q))
      ensures r == -1 ==> log == []
      ensures forall x :: x in log ==> InFs(S(), x)
      ensures r != -1 ==>
                log != [] && log[|log| - 1] == InodeOf(ip / IPB) && |Names(log[..|log| - 1])| <= LogBound(off, |src|)
      ensures r != -1 ==>
                if AllLogged(old(S()), ip, off, src, r, shown) then Covers(old(S()), S(), log, -1)
                else Unlogged(old(S()), S(), Ref(old(S()), DataSlot(ip, (off + r) / BSIZE)), log)
    {
      hide Ok, Ref, Bit, GrowsOnly, OneDataRef, SizesOk, FileHas, OthersHave, Full, Covers, Names, Stopped, AllLogged,
           Unlogged;
      shown, log := 0, [];
      ghost var s0 := S();
      SizeBound(s0, ip);
      if off > inodes[ip].size || (off + |src|) % UINT < off {
        return -1, 0, [];
      }
      if (off + |src|) % UINT > MAXFILE * BSIZE {
        return -1, 0, [];
      }
      ghost var c := Content(s0, ip);
      r, shown, log := WriteBlocks(ip, src, off, good);
      ghost var s := S();
      if off + r > inodes[ip].size {
        inodes := inodes[ip := inodes[ip].(size := off + r)];
      }
      ghost var bytes := Shown(c, off, src, r, shown);
      SizeSet(s, ip, |bytes|);
      assert S() == WithSize(s, ip, |bytes|);
      HasPrefix(s, ip, Spliced(c, off, src[..shown]), |bytes|);
      Written(s0, s, S(), ip, bytes);
      StoppedSized(s, S(), ip, off, |src|, good, r, shown);
      CopyDecides(S(), ip, off, |src|, good, r, shown);
      if AllLogged(s0, ip, off, src, r, shown) {
        CoversSame(s, S(), [], ip);
        CoversTrans(s0, s, S(), log, [], ip);
        assert log + [] == log;
        CoversDone(s0, S(), log, ip);
      } else {
        StillUnlogged(s0, s, S(), Ref(s0, DataSlot(ip, (off + r) / BSIZE)), log, InodeOf(ip / IPB));
      }
      assert (log + [InodeOf(ip / IPB)])[..|log|] == log;
      log := log + [InodeOf(ip / IPB)];
    }

    /** One turn of writei's loop: m bytes are due in the block, and fits of them copied. */
    method WriteOne(ip: int, src: seq<int>, off: int, tot: int, good: nat, ghost s0: Fs, ghost c: seq<int>)
      returns (addr: int, m: int, fits: int, log: seq<Home>)
      requires Ok(S(), {}, 0, 0) && SizesOk(s0) && 0 <= ip < |inodes| && SameSizes(s0, S()) && OthersHave(s0, S(), ip)
      requires 0 <= off <= |c| && 0 <= tot < |src| && tot <= good && off + |src| <= MAXFILE * BSIZE
      requires forall i :: 0 <= i < |src| ==> 0 <= src[i] < 256
      requires FileHas(S(), ip, Spliced(c, off, src[..tot]))
      modifies this
      ensures Ok(S(), {}, 0, 0) && SameSizes(s0, S()) && OthersHave(s0, S(), ip)
      ensures m == (if |src| - tot < BSIZE - (off + tot) % BSIZE then |src| - tot else BSIZE - (off + tot) % BSIZE)
      ensures 0 <= fits <= m && (addr == 0 ==> fits == 0 && Full(S()))
      ensures addr != 0 && fits < m ==> tot + fits == good < |src|
      ensures fits == m ==> tot + m <= good
      ensures FileHas(S(), ip, Spliced(c, off, src[..tot + fits]))
      ensures addr != 0 ==> OneDataRef(old(S()), S(), ip, (off + tot) / BSIZE, addr)
      ensures addr == Ref(S(), DataSlot(ip, (off + tot) / BSIZE))
      ensures Ref(old(S()), DataSlot(ip, (off + tot) / BSIZE)) != 0 ==>
                addr == Ref(old(S()), DataSlot(ip, (off + tot) / BSIZE))
      ensures fits == 0 || fits == m || Ref(old(S()), DataSlot(ip, (off + tot) / BSIZE)) == 0 ==>
                Covers(old(S()), S(), log, ip)
      ensures 0 < fits < m && Ref(old(S()), DataSlot(ip, (off + tot) / BSIZE)) != 0 ==>
                log == [] && Overwritten(old(S()), S(), addr, (off + tot) % BSIZE, src[tot..tot + fits])
      ensures forall x :: x in log ==> InFs(S(), x)
      ensures Addr(old(S()), ip, NDIRECT) != 0 ==> Addr(S(), ip, NDIRECT) == Addr(old(S()), ip, NDIRECT)
      ensures forall x :: x in log ==>
        OfBmap(x, addr, Addr(S(), ip, NDIRECT)) &&
        (Ref(old(S()), DataSlot(ip, (off + tot) / BSIZE)) != 0 ==> x == Data(addr))
    {
      hide Ok, Ref, Bit, GrowsOnly, OneDataRef, SizesOk, FileHas, OthersHave, Full, Covers, InFs;
      var at := off + tot;
      ghost var s := S();
      addr, log := Bmap(ip, at / BSIZE);
      ghost var t := S();
      AfterBmap(s0, s, t, ip, Spliced(c, off, src[..tot]));
      IndirectStays(s, t, ip);
      m := if |src| - tot < BSIZE - at % BSIZE then |src| - tot else BSIZE - at % BSIZE;
      if addr == 0 {
        AllIn(t, ip, at / BSIZE, addr, log);
        return addr, m, 0, log;
      }
      OneDataRefAt(s, t, ip, at / BSIZE, addr);
      AllIn(t, ip, at / BSIZE, addr, log + [Data(addr)]);
      fits := if tot + m <= good then m else good - tot;
      CopyIn(ip, src, off, tot, fits, addr, s0, c);
      OneDataRefOn(s, t, S(), ip, at / BSIZE, addr);
      StillIn(t, S(), log + [Data(addr)]);
      assert forall x :: x in log ==> x in log + [Data(addr)];
      CoversTrans(s, t, S(), log, [Data(addr)], ip);
      if fits < m {
        if Data(addr) in log {
          CoversIn(s, S(), log, addr, ip);
        }
        return;
      }
      assert forall x :: x in log + [Data(addr)] ==> x in log || x == Data(addr);
      log := log + [Data(addr)];
    }

    /** either_copyin of n bytes to their place in the block. */
    method CopyIn(ip: int, src: seq<int>, off: int, tot: int, n: int, addr: int, ghost s0: Fs, ghost c: seq<int>)
      requires Ok(S(), {}, 0, 0) && SizesOk(s0) && 0 <= ip < |inodes| && SameSizes(s0, S()) && OthersHave(s0, S(), ip)
      requires 0 <= off <= |c| && 0 <= tot && 0 <= n && tot + n <= |src| && (off + tot) % BSIZE + n <= BSIZE
      requires forall i :: 0 <= i < |src| ==> 0 <= src[i] < 256
      requires addr == Ref(S(), DataSlot(ip, (off + tot) / BSIZE)) && addr != 0
      requires FileHas(S(), ip, Spliced(c, off, src[..tot]))
      modifies this`disk
      ensures Ok(S(), {}, 0, 0) && SameSizes(s0, S()) && OthersHave(s0, S(), ip)
      ensures FileHas(S(), ip, Spliced(c, off, src[..tot + n]))
      ensures Covers(old(S()), S(), [Data(addr)], ip) && (n == 0 ==> S() == old(S()))
      ensures Overwritten(old(S()), S(), addr, (off + tot) % BSIZE, src[tot..tot + n])
      ensures forall x :: Ref(S(), x) == Ref(old(S()), x)
    {
      hide Ok, Ref, Bit, SizesOk, FileHas, OthersHave, Covers;
      ghost var t := S();
      WritePart(s0, t, ip, c, off, src, tot, n);
      var o := (off + tot) % BSIZE;
      NothingPatched(disk[addr], o, src[tot..tot + n]);
      disk := disk[addr := Patched(disk[addr], o, src[tot..tot + n])];
      assert S() == WithData(t, addr, disk[addr]);
      assert n == 0 ==> disk == t.disk;
      CoversSame(t, S(), [Data(addr)], ip);
    }

    /** writei's loop; off is not in question any more. */
    method WriteBlocks(ip: int, src: seq<int>, off: int, good: nat) returns (tot: int, ghost shown: nat, log: seq<Home>)
      requires Ok(S(), {}, 0, 0) && SizesOk(S()) && 0 <= ip < |inodes| && 0 <= off <= inodes[ip].size
      requires off + |src| <= MAXFILE * BSIZE && forall i :: 0 <= i < |src| ==> 0 <= src[i] < 256
      modifies this
      ensures Ok(S(), {}, 0, 0) && SameSizes(old(S()), S()) && OthersHave(old(S()), S(), ip)
      ensures 0 <= tot <= shown <= |src| && (tot < |src| ==> Full(S()) || good < |src|)
      ensures shown == tot || (tot < shown == good < |src|)
      ensures off <= |Content(old(S()), ip)| && FileHas(S(), ip, Spliced(Content(old(S()), ip), off, src[..shown]))
      ensures |Names(log)| <= LogBound(off, |src|) && Stopped(S(), ip, off, |src|, good, tot, shown)
      ensures if AllLogged(old(S()), ip, off, src, tot, shown) then Covers(old(S()), S(), log, ip)
              else Unlogged(old(S()), S(), Ref(old(S()), DataSlot(ip, (off + tot) / BSIZE)), log)
      ensures forall x :: x in log ==> InFs(S(), x)
    {
      hide Ok, Ref, Bit, SizesOk, FileHas, OthersHave, Full, Covers, Accounted, Names, OfBmap, Addr, DataSlot,
           Stopped, AllLogged, Unlogged, Ahead, Overwritten, OneDataRef, Takes, Touched, Whole, Spliced;
      ghost var s0 := S();
      SizeBound(s0, ip);
      ghost var c := Content(s0, ip);
      AllHave(s0, ip);
      CoversRefl(s0, ip);
      AccountedNone(Addr(s0, ip, NDIRECT));
      AheadStart(s0, ip, off / BSIZE);
      tot, shown, log := 0, 0, [];
      ghost var k, a: nat := 0, 0;
      NoneSpliced(c, off, src);
      while tot < |src|
        invariant 0 <= tot <= |src| && Ok(S(), {}, 0, 0) && SameSizes(s0, S())
        invariant OthersHave(s0, S(), ip) && FileHas(S(), ip, Spliced(c, off, src[..tot]))
        invariant tot <= good && shown == tot && Covers(s0, S(), log, ip)
        invariant Accounted(log, Addr(S(), ip, NDIRECT), k, a) && a <= Takes(off, k) && k <= Touched(off, |src|)
        invariant tot < |src| ==> k == (off + tot) / BSIZE - off / BSIZE
        invariant k == 0 ==> S() == s0 && tot == 0
        invariant forall x :: x in log ==> InFs(S(), x)
        invariant tot == 0 || tot == |src| || (off + tot) % BSIZE == 0
        invariant tot < |src| ==> Ahead(s0, S(), ip, (off + tot) / BSIZE, log)
      {
        ghost var s := S();
        ghost var taken := Ref(s, DataSlot(ip, (off + tot) / BSIZE)) == 0;
        var addr, m, fits, more := WriteOne(ip, src, off, tot, good, s0, c);
        CallLogged(s0, s, ip, off, |src|, off + tot, log, more, addr, Addr(S(), ip, NDIRECT), k, a, taken);
        log := log + more;
        k, a := k + 1, if taken then a + 1 else a;
        shown := tot + fits;
        WholeTurns(off, |src|, good, tot, m);
        TurnLogged(s0, s, S(), ip, off, src, tot, m, fits, addr, log[..|log| - |more|], more);
        if addr == 0 || fits < m {
          TurnStops(S(), ip, off, |src|, good, tot, m, fits, addr);
          break;
        }
        AheadNext(s0, s, S(), ip, (off + tot) / BSIZE, addr, log[..|log| - |more|], more);
        NextBlock(off + tot, m);
        tot := tot + m;
      }
      AccountedBound(log, Addr(S(), ip, NDIRECT), k, a);
      TakesBound(off, |src|, k, a);
      if tot == |src| {
        AllDone(s0, S(), ip, off, src, good);
      }
    }

    /** bfree: the panic on a free block is the precondition. */
    method Bfree(b: int) returns (log: seq<Home>)
      requires 0 <= b && Bit(bits, b)
      modifies this`bits
      ensures bits == Unmarked(old(bits), b) && log == [Bitmap(b / BPB)]
    {
      BitByteOf(b);
      BitInByte(bits, b);
      var m := Mask(b % BPB % 8);
      var at := b / BPB * BSIZE + b % BPB / 8;
      bits := bits[at := bits[at] & !m];
      log := [Bitmap(b / BPB)];
    }

    /** itrunc's first loop: the direct blocks. */
    method FreeDirect(ip: int) returns (log: seq<Home>)
      requires Ok(S(), {}, 0, 0) && 0 <= ip < |inodes|
      modifies this
      ensures Ok(S(), {}, 0, 0) && |inodes| == |old(inodes)| && |inodes[ip].addrs| == NDIRECT + 1
      ensures Trimmed(old(S()), S(), ip, NDIRECT) && Covers(old(S()), S(), log, ip)
      ensures forall x :: x in log ==> IsBitmap(x, size)
      ensures Names(log) == Maps(old(S()), ip, 0, NDIRECT)
    {
      hide Ok, Ref, Bit, Dead, Covers, Maps, Names;
      ghost var s0 := S();
      AddrsThere(s0, {}, ip);
      CoversRefl(s0, ip);
      log := [];
      NoNames();
      MapsNext(s0, ip, 0, 0);
      for i := 0 to NDIRECT
        invariant Names(log) == Maps(s0, ip, 0, i)
        invariant Ok(S(), {}, 0, 0) && |inodes| == |s0.inodes| && |inodes[ip].addrs| == NDIRECT + 1
        invariant Trimmed(s0, S(), ip, i)
        invariant Covers(s0, S(), log, ip) && forall x :: x in log ==> IsBitmap(x, size)
      {
        ghost var s := S();
        var addr := inodes[ip].addrs[i];
        MapsNext(s0, ip, 0, i);
        DirectRef(s0, s, ip, i);
        if addr != 0 {
          DirectDropped(s0, s, ip, i);
          AddrRange(s, 0, 0, ip, i);
          var more := Bfree(addr);
          inodes := inodes[ip := inodes[ip].(addrs := inodes[ip].addrs[i := 0])];
          owner := owner - {addr};
          assert S() == WithoutAddr(s, ip, i);
          CoversUnmark(s, S(), addr, ip);
          CoversTrans(s0, s, S(), log, more, ip);
          NamesNext(log, Bitmap(addr / BPB));
          log := log + more;
        } else {
          NothingDropped(s0, s, ip, i);
        }
      }
    }

    /** itrunc's second loop: the entries of the indirect block. */
    method FreeEntries(ip: int) returns (log: seq<Home>)
      requires Ok(S(), {}, ip, 0) && Ok(S(), {}, 0, 0) && 0 <= ip < |inodes| && Addr(S(), ip, NDIRECT) != 0
      modifies this
      ensures Ok(S(), {}, ip, NINDIRECT) && inodes == old(inodes) && disk == old(disk) && Covers(old(S()), S(), log, ip)
      ensures forall x :: x in log ==> IsBitmap(x, size)
      ensures Names(log) == Maps(old(S()), ip, NDIRECT + 1, MAXFILE + 1)
    {
      hide Ok, Ref, Bit, Dead, Covers, Maps, Names;
      ghost var s1 := S();
      AddrsThere(s1, {}, ip);
      CoversRefl(s1, ip);
      IndirectOwned(s1, {}, ip);
      log := [];
      NoNames();
      MapsNext(s1, ip, NDIRECT + 1, NDIRECT + 1);
      var a := disk[inodes[ip].addrs[NDIRECT]];
      for j := 0 to NINDIRECT
        invariant Names(log) == Maps(s1, ip, NDIRECT + 1, NDIRECT + 1 + j)
        invariant Ok(S(), {}, ip, j) && inodes == s1.inodes && disk == s1.disk
        invariant Covers(s1, S(), log, ip) && forall x :: x in log ==> IsBitmap(x, size)
      {
        ghost var s := S();
        SameInodesRefs(s1, s);
        EntryRef(s, ip, j);
        MapsNext(s1, ip, NDIRECT + 1, NDIRECT + 1 + j);
        if Word(a, j) != 0 {
          EntryDropped(s, ip, j);
          EntryRange(s, ip, j);
          var more := Bfree(Word(a, j));
          owner := owner - {Word(a, j)};
          assert S() == WithoutOwner(s, Word(a, j));
          CoversUnmark(s, S(), Word(a, j), ip);
          CoversTrans(s1, s, S(), log, more, ip);
          NamesNext(log, Bitmap(Word(a, j) / BPB));
          log := log + more;
        } else {
          EntrySkipped(s, ip, j);
        }
      }
    }

    /** itrunc: the file's blocks are freed, each once, and no other. */
    method Itrunc(ip: int) returns (log: seq<Home>)
      requires Ok(S(), {}, 0, 0) && SizesOk(S()) && 0 <= ip < |inodes|
      modifies this
      ensures Ok(S(), {}, 0, 0) && SizesOk(S()) && |inodes| == |old(inodes)|
      ensures Content(S(), ip) == [] && forall k :: Ref(S(), Slot(ip, k)) == 0
      ensures forall q :: 0 <= q < |inodes| && q != ip ==> Content(S(), q) == old(Content(S(), q))
      ensures forall b :: 0 <= b < size ==>
        (Bit(bits, b) <==> Bit(old(bits), b) && !(b in old(owner) && old(owner)[b].ip == ip))
      ensures Covers(old(S()), S(), log, -1) && log != [] && log[|log| - 1] == InodeOf(ip / IPB)
      ensures forall x :: x in log[..|log| - 1] ==> IsBitmap(x, size)
      ensures InFs(S(), InodeOf(ip / IPB)) && Names(log[..|log| - 1]) == FileMaps(old(S()), ip)
    {
      hide Ok, Ref, Bit, SizesOk, Dead, Covers, IsBitmap, Maps, Names;
      ghost var s0 := S();
      log := FreeDirect(ip);
      ghost var s1 := S();
      TrimmedRefs(s0, s1, ip);
      MapsJoin(s0, ip, 0, NDIRECT, MAXFILE + 1);
      if inodes[ip].addrs[NDIRECT] != 0 {
        NoneDead(s1, ip);
        var more := FreeEntries(ip);
        CoversTrans(s0, s1, S(), log, more, ip);
        NamesJoin(log, more);
        MapsSame(s0, s1, ip, NDIRECT + 1, MAXFILE + 1);
        MapsJoin(s0, ip, NDIRECT, NDIRECT + 1, MAXFILE + 1);
        log := log + more;
        ghost var s2 := S();
        SameInodesRefs(s1, s2);
        TrimmedSame(s0, s1, s2, ip);
        IndirectDropped(s0, s2, ip);
        BitmapOf(s2, ip);
        more := Bfree(inodes[ip].addrs[NDIRECT]);
        owner := owner - {inodes[ip].addrs[NDIRECT]};
        inodes := inodes[ip := inodes[ip].(addrs := inodes[ip].addrs[NDIRECT := 0])];
        assert S() == WithoutAddr(s2, ip, NDIRECT);
        CoversUnmark(s2, S(), s2.inodes[ip].addrs[NDIRECT], ip);
        CoversTrans(s0, s2, S(), log, more, ip);
        AddrRange(s2, ip, NINDIRECT, ip, NDIRECT);
        MapsNext(s0, ip, NDIRECT, NDIRECT);
        NamesNext(log, Bitmap(s2.inodes[ip].addrs[NDIRECT] / BPB));
        log := log + more;
      } else {
        NoEntries(s1, ip);
        MapsSame(s0, s1, ip, NDIRECT, MAXFILE + 1);
        NothingDropped(s0, s1, ip, NDIRECT);
      }
      ghost var s3 := S();
      SizeSet(s3, ip, 0);
      inodes := inodes[ip := inodes[ip].(size := 0)];
      assert S() == WithSize(s3, ip, 0);
      Truncated(s0, s3, ip);
      CoversSame(s3, S(), [], ip);
      CoversTrans(s0, s3, S(), log, [], ip);
      assert log + [] == log;
      CoversDone(s0, S(), log, ip);
      assert (log + [InodeOf(ip / IPB)])[..|log|] == log;
      log := log + [InodeOf(ip / IPB)];
    }
  }

  lemma BitmapOf(s: Fs, ip: int)
    requires Ok(s, {}, ip, NINDIRECT) && Addr(s, ip, NDIRECT) != 0
    ensures IsBitmap(Bitmap(Addr(s, ip, NDIRECT) / BPB), s.size)
  {
    AddrRange(s, ip, NINDIRECT, ip, NDIRECT);
  }

  /** A bitmap block of a file system of that size. */
  predicate IsBitmap(x: Home, size: int) {
    x.Bitmap? && 0 <= x.k <= (size - 1) / BPB
  }

  lemma EntryRange(s: Fs, ip: int, j: int)
    requires Ok(s, {}, ip, j) && 0 <= j < NINDIRECT && Ref(s, Slot(ip, NDIRECT + 1 + j)) != 0
    ensures 0 < Ref(s, Slot(ip, NDIRECT + 1 + j)) < s.size
  {
    assert Owns(s, Ref(s, Slot(ip, NDIRECT + 1 + j)), Slot(ip, NDIRECT + 1 + j));
  }

  /** The bitmap blocks in which lie the blocks of file ip's slots from lo to hi. */
  ghost function Maps(s: Fs, ip: int, lo: int, hi: int): set<Home> {
    set k | lo <= k < hi && Ref(s, Slot(ip, k)) != 0 :: Bitmap(Ref(s, Slot(ip, k)) / BPB)
  }

  /** Those of a whole file, its indirect block included. */
  ghost function FileMaps(s: Fs, ip: int): set<Home> {
    Maps(s, ip, 0, MAXFILE + 1)
  }

  lemma MapsNext(s: Fs, ip: int, lo: int, hi: int)
    requires lo <= hi
    ensures Maps(s, ip, lo, lo) == {}
    ensures Maps(s, ip, lo, hi + 1) ==
            Maps(s, ip, lo, hi) + if Ref(s, Slot(ip, hi)) != 0 then {Bitmap(Ref(s, Slot(ip, hi)) / BPB)} else {}
  {
    hide Ref;
  }

  lemma MapsJoin(s: Fs, ip: int, lo: int, mid: int, hi: int)
    requires lo <= mid <= hi
    ensures Maps(s, ip, lo, hi) == Maps(s, ip, lo, mid) + Maps(s, ip, mid, hi)
  {
    hide Ref;
  }

  lemma MapsSame(s: Fs, t: Fs, ip: int, lo: int, hi: int)
    requires forall k :: lo <= k < hi ==> Ref(t, Slot(ip, k)) == Ref(s, Slot(ip, k))
    ensures Maps(t, ip, lo, hi) == Maps(s, ip, lo, hi)
  {
    hide Ref;
  }

  lemma NoEntries(s: Fs, ip: int)
    requires Addr(s, ip, NDIRECT) == 0
    ensures Maps(s, ip, NDIRECT, MAXFILE + 1) == {}
  {
  }

  lemma NoNames()
    ensures Names([]) == {}
  {
  }

  lemma NamesNext(log: seq<Home>, x: Home)
    ensures Names(log + [x]) == Names(log) + {x}
  {
    assert (log + [x])[|log|] == x;
  }

  lemma DirectRef(s0: Fs, s: Fs, ip: int, i: int)
    requires 0 <= ip < |s0.inodes| && Trimmed(s0, s, ip, i) && 0 <= i < NDIRECT && |s.inodes[ip].addrs| == NDIRECT + 1
    ensures Ref(s0, Slot(ip, i)) == s.inodes[ip].addrs[i] == Addr(s, ip, i)
  {
    assert Addr(s, ip, i) == Addr(s0, ip, i);
  }

  lemma NamesJoin(a: seq<Home>, b: seq<Home>)
    ensures Names(a + b) == Names(a) + Names(b)
  {
  }

  lemma TrimmedRefs(s0: Fs, s: Fs, ip: int)
    requires 0 <= ip < |s0.inodes| && Trimmed(s0, s, ip, NDIRECT)
    ensures forall k :: NDIRECT <= k ==> Ref(s, Slot(ip, k)) == Ref(s0, Slot(ip, k))
  {
  }

  /** itrunc logs the bitmap blocks of the file's blocks, and the inode's block: that is
      within an operation's share of n blocks exactly if the former are fewer than n. */
  lemma TruncFitsIff(s: Fs, ip: int, log: seq<Home>, n: nat)
    requires log != [] && log[|log| - 1] == InodeOf(ip / IPB) && Names(log[..|log| - 1]) == FileMaps(s, ip)
    ensures |Names(log)| <= n <==> |FileMaps(s, ip)| < n
  {
    var last := |log| - 1;
    NamesJoin(log[..last], [log[last]]);
    assert log == log[..last] + [log[last]];
    assert Names([log[last]]) == {log[last]};
    assert log[last] !in FileMaps(s, ip);
  }

  lemma BitByteOf(b: int)
    requires 0 <= b
    ensures b / BPB * BSIZE + b % BPB / 8 == b / 8 && b % BPB % 8 == b % 8
  {
  }

  // ------------------------------------------------------------ blocks given back

  lemma NoneDead(s: Fs, ip: int)
    ensures Ok(s, {}, 0, 0) <==> Ok(s, {}, ip, 0)
  {
    assert forall x :: !Dead(x, ip, 0) && !Dead(x, 0, 0);
  }

  ghost function WithoutOwner(s: Fs, b: int): Fs
    requires 0 <= b / 8 < |s.bits|
  {
    s.(bits := Unmarked(s.bits, b), owner := s.owner - {b})
  }

  ghost function WithoutAddr(s: Fs, ip: int, k: int): Fs
    requires 0 <= ip < |s.inodes| && 0 <= k < |s.inodes[ip].addrs| && 0 <= s.inodes[ip].addrs[k] / 8 < |s.bits|
  {
    WithAddr(WithoutOwner(s, s.inodes[ip].addrs[k]), ip, k, 0)
  }

  /** Taking away one reference, its owner and its bit keeps the rest in order. */
  lemma RefDropped(s: Fs, t: Fs, dip: int, dj: int, ej: int, x: Slot, b: int)
    requires Ok(s, {}, dip, dj) && b == Ref(s, x) && b != 0 && !Dead(x, dip, dj)
    requires t.nmeta == s.nmeta && t.size == s.size && t.disk == s.disk && ShapeOk(t)
    requires 0 <= b / 8 < |s.bits| && t.bits == Unmarked(s.bits, b) && t.owner == s.owner - {b}
    requires forall y :: y != x && !Dead(y, dip, dj) ==> Ref(t, y) == Ref(s, y)
    requires forall y :: Ref(t, y) == 0 || Ref(t, y) == Ref(s, y)
    requires forall y :: !Dead(y, dip, ej) && (y == x || Dead(y, dip, dj)) ==> Ref(t, y) == 0
    requires forall y :: y != x && !Dead(y, dip, dj) ==> !Dead(y, dip, ej)
    ensures Ok(t, {}, dip, ej)
  {
    hide Ref, Bit;
    assert Owns(s, Ref(s, x), x);
    forall c | 0 <= c < t.size ensures Bit(t.bits, c) <==> c < t.nmeta || c in t.owner {
      UnmarksApart(s.bits, b, c);
    }
    forall y | Ref(t, y) != 0 && !Dead(y, dip, ej) ensures Owns(t, Ref(t, y), y) {
      assert Ref(t, y) == Ref(s, y);
      assert Owns(s, Ref(s, y), y);
    }
  }

  /** itrunc after the first i addresses. */
  ghost predicate Trimmed(s0: Fs, s: Fs, ip: int, i: int)
    requires 0 <= ip < |s0.inodes|
  {
    && s.disk == s0.disk && |s.inodes| == |s0.inodes|
    && (forall q :: 0 <= q < |s0.inodes| && q != ip ==> s.inodes[q] == s0.inodes[q])
    && s.inodes[ip].size == s0.inodes[ip].size
    && (forall k {:trigger Addr(s, ip, k)} :: Addr(s, ip, k) == if 0 <= k < i then 0 else Addr(s0, ip, k))
  }

  lemma AddrRange(s: Fs, dip: int, dj: int, ip: int, k: int)
    requires Ok(s, {}, dip, dj) && 0 <= k <= NDIRECT && Addr(s, ip, k) != 0
    ensures Ref(s, Slot(ip, k)) == Addr(s, ip, k)
    ensures s.nmeta <= Addr(s, ip, k) < s.size && 0 <= Addr(s, ip, k) / 8 < |s.bits| && Bit(s.bits, Addr(s, ip, k))
  {
    assert Ref(s, Slot(ip, k)) == Addr(s, ip, k);
    assert Owns(s, Ref(s, Slot(ip, k)), Slot(ip, k));
  }

  lemma DirectDropped(s0: Fs, s: Fs, ip: int, i: int)
    requires 0 <= ip < |s0.inodes| && Trimmed(s0, s, ip, i) && 0 <= i < NDIRECT
    requires Ok(s, {}, 0, 0) && Addr(s, ip, i) != 0
    ensures 0 < Addr(s, ip, i) && Bit(s.bits, Addr(s, ip, i)) && 0 <= Addr(s, ip, i) / 8 < |s.bits|
    ensures |s.inodes[ip].addrs| == NDIRECT + 1
    ensures Ok(WithoutAddr(s, ip, i), {}, 0, 0) && Trimmed(s0, WithoutAddr(s, ip, i), ip, i + 1)
  {
    var x, b := Slot(ip, i), Addr(s, ip, i);
    AddrRange(s, 0, 0, ip, i);
    var t := WithoutAddr(s, ip, i);
    AddrDropped(s, t, ip, i);
    assert forall y :: !Dead(y, 0, 0);
    ShapeKept(s, t);
    RefDropped(s, t, 0, 0, 0, x, b);
  }

  lemma AddrDropped(s: Fs, t: Fs, ip: int, k: int)
    requires 0 <= ip < |s.inodes| && |s.inodes[ip].addrs| == NDIRECT + 1 && 0 <= k <= NDIRECT
    requires t.disk == s.disk && t.inodes == s.inodes[ip := s.inodes[ip].(addrs := s.inodes[ip].addrs[k := 0])]
    ensures forall q :: 0 <= q < |t.inodes| ==> |t.inodes[q].addrs| == |s.inodes[q].addrs|
    ensures forall q, j {:trigger Addr(t, q, j)} :: Addr(t, q, j) == if q == ip && j == k then 0 else Addr(s, q, j)
    ensures forall y :: Ref(t, y) == if y.ip == ip && (y.k == k || (k == NDIRECT && y.k > k)) then 0 else Ref(s, y)
  {
    forall y ensures Ref(t, y) == if y.ip == ip && (y.k == k || (k == NDIRECT && y.k > k)) then 0 else Ref(s, y) {
      assert Addr(t, y.ip, NDIRECT) == if y.ip == ip && k == NDIRECT then 0 else Addr(s, y.ip, NDIRECT);
    }
  }

  lemma NothingDropped(s0: Fs, s: Fs, ip: int, i: int)
    requires 0 <= ip < |s0.inodes| && Trimmed(s0, s, ip, i) && 0 <= i && Addr(s, ip, i) == 0
    ensures Trimmed(s0, s, ip, i + 1)
  {
  }

  lemma TrimmedSame(s0: Fs, s: Fs, t: Fs, ip: int)
    requires 0 <= ip < |s0.inodes| && Trimmed(s0, s, ip, NDIRECT) && t.inodes == s.inodes && t.disk == s.disk
    ensures Trimmed(s0, t, ip, NDIRECT)
  {
    assert forall k :: Addr(t, ip, k) == Addr(s, ip, k);
  }

  lemma ShapeKept(s: Fs, t: Fs)
    requires ShapeOk(s) && t.nmeta == s.nmeta && t.size == s.size && t.disk == s.disk && |t.bits| == |s.bits|
    requires forall q :: 0 <= q < |t.inodes| ==> |t.inodes[q].addrs| == NDIRECT + 1
    ensures ShapeOk(t)
  {
  }

  lemma SameInodesRefs(s: Fs, t: Fs)
    requires t.inodes == s.inodes && t.disk == s.disk
    ensures forall y :: Ref(t, y) == Ref(s, y)
  {
    forall y ensures Ref(t, y) == Ref(s, y) {
      assert Addr(t, y.ip, NDIRECT) == Addr(s, y.ip, NDIRECT);
      assert Addr(t, y.ip, y.k) == Addr(s, y.ip, y.k);
    }
  }

  lemma EntryRef(s: Fs, ip: int, j: int)
    requires Ok(s, {}, ip, j) && 0 <= j < NINDIRECT && Addr(s, ip, NDIRECT) != 0
    ensures var ib := Addr(s, ip, NDIRECT);
            ib in s.disk && |s.disk[ib]| == BSIZE && Ref(s, Slot(ip, NDIRECT + 1 + j)) == Word(s.disk[ib], j)
  {
    AddrRange(s, ip, j, ip, NDIRECT);
  }

  lemma EntryDropped(s: Fs, ip: int, j: int)
    requires Ok(s, {}, ip, j) && 0 <= j < NINDIRECT && Ref(s, Slot(ip, NDIRECT + 1 + j)) != 0
    ensures var b := Ref(s, Slot(ip, NDIRECT + 1 + j));
            0 < b && 0 <= b / 8 < |s.bits| && Bit(s.bits, b) && Ok(WithoutOwner(s, b), {}, ip, j + 1)
  {
    var x := Slot(ip, NDIRECT + 1 + j);
    var b := Ref(s, x);
    assert Owns(s, Ref(s, x), x);
    var t := WithoutOwner(s, b);
    SameInodesRefs(s, t);
    RefDropped(s, t, ip, j, j + 1, x, b);
  }

  lemma EntrySkipped(s: Fs, ip: int, j: int)
    requires Ok(s, {}, ip, j) && 0 <= j < NINDIRECT && Ref(s, Slot(ip, NDIRECT + 1 + j)) == 0
    ensures Ok(s, {}, ip, j + 1)
  {
    hide Ref;
    forall b | b in s.owner ensures !Dead(s.owner[b], ip, j + 1) {
      assert Ref(s, s.owner[b]) == b && b != 0;
    }
  }

  lemma IndirectDropped(s0: Fs, s: Fs, ip: int)
    requires Ok(s, {}, ip, NINDIRECT) && 0 <= ip < |s.inodes| && Addr(s, ip, NDIRECT) != 0
    requires 0 <= ip < |s0.inodes| && Trimmed(s0, s, ip, NDIRECT)
    ensures |s.inodes[ip].addrs| == NDIRECT + 1
    ensures var b := Addr(s, ip, NDIRECT);
            0 < b && 0 <= b / 8 < |s.bits| && Bit(s.bits, b) && Ok(WithoutAddr(s, ip, NDIRECT), {}, 0, 0) &&
            Trimmed(s0, WithoutAddr(s, ip, NDIRECT), ip, NDIRECT + 1)
  {
    AddrRange(s, ip, NINDIRECT, ip, NDIRECT);
    var t := WithoutAddr(s, ip, NDIRECT);
    AddrDropped(s, t, ip, NDIRECT);
    ShapeKept(s, t);
    RefDropped(s, t, ip, NINDIRECT, 0, Slot(ip, NDIRECT), Addr(s, ip, NDIRECT));
    NoneDead(t, ip);
  }

  /** The state that itrunc leaves. */
  lemma Truncated(s0: Fs, s: Fs, ip: int)
    requires Ok(s0, {}, 0, 0) && Ok(s, {}, 0, 0) && SizesOk(s0) && 0 <= ip < |s0.inodes|
    requires s.nmeta == s0.nmeta && s.size == s0.size && Trimmed(s0, s, ip, NDIRECT + 1)
    ensures var t := WithSize(s, ip, 0);
            SizesOk(t) && (forall k :: Ref(t, Slot(ip, k)) == 0) &&
            (forall q :: 0 <= q < |t.inodes| && q != ip ==> Content(t, q) == Content(s0, q)) &&
            (forall b :: 0 <= b < t.size ==>
              (Bit(t.bits, b) <==> Bit(s0.bits, b) && !(b in s0.owner && s0.owner[b].ip == ip)))
  {
    var t := WithSize(s, ip, 0);
    SizeSet(s, ip, 0);
    forall y ensures Ref(t, y) == if y.ip == ip then 0 else Ref(s0, y) {
      assert Addr(s, y.ip, NDIRECT) == if y.ip == ip then 0 else Addr(s0, y.ip, NDIRECT);
      assert Addr(s, y.ip, y.k) == if y.ip == ip then 0 else Addr(s0, y.ip, y.k);
    }
    TruncatedBits(s0, t, ip);
    TruncatedFiles(s0, t, ip);
  }

  lemma TruncatedBits(s0: Fs, t: Fs, ip: int)
    requires Ok(s0, {}, 0, 0) && Ok(t, {}, 0, 0) && t.nmeta == s0.nmeta && t.size == s0.size
    requires forall y :: Ref(t, y) == if y.ip == ip then 0 else Ref(s0, y)
    ensures forall b :: 0 <= b < t.size ==>
      (Bit(t.bits, b) <==> Bit(s0.bits, b) && !(b in s0.owner && s0.owner[b].ip == ip))
  {
    hide Ref, Bit;
    forall b | 0 <= b < t.size
      ensures Bit(t.bits, b) <==> Bit(s0.bits, b) && !(b in s0.owner && s0.owner[b].ip == ip)
    {
      if b in t.owner {
        assert Owns(s0, Ref(s0, t.owner[b]), t.owner[b]);
      }
      if b in s0.owner && s0.owner[b].ip != ip {
        assert Owns(t, Ref(t, s0.owner[b]), s0.owner[b]);
      }
    }
  }

  lemma TruncatedFiles(s0: Fs, t: Fs, ip: int)
    requires SizesOk(s0) && 0 <= ip < |s0.inodes| && t.disk == s0.disk && |t.inodes| == |s0.inodes|
    requires forall q :: 0 <= q < |s0.inodes| && q != ip ==> t.inodes[q] == s0.inodes[q]
    requires t.inodes[ip].size == 0
    requires forall y :: Ref(t, y) == if y.ip == ip then 0 else Ref(s0, y)
    ensures SizesOk(t)
    ensures forall q :: 0 <= q < |t.inodes| && q != ip ==> Content(t, q) == Content(s0, q)
  {
    hide Ref;
    forall q | 0 <= q < |t.inodes| && q != ip ensures Content(t, q) == Content(s0, q) {
      assert forall i: nat :: DataByte(t, q, i) == DataByte(s0, q, i);
    }
  }

  /** What the write of one part of a block does to the files. */
  lemma WritePart(s0: Fs, s: Fs, ip: int, c: seq<int>, off: nat, src: seq<int>, tot: nat, m: nat)
    requires SizesOk(s0) && SameSizes(s0, s) && OthersHave(s0, s, ip) && Ok(s, {}, 0, 0)
    requires off <= |c| && tot + m <= |src| && (off + tot) % BSIZE + m <= BSIZE
    requires forall i :: 0 <= i < |src| ==> 0 <= src[i] < 256
    requires Ref(s, DataSlot(ip, (off + tot) / BSIZE)) != 0 && FileHas(s, ip, Spliced(c, off, src[..tot]))
    ensures var b := Ref(s, DataSlot(ip, (off + tot) / BSIZE));
            b in s.disk && |s.disk[b]| == BSIZE &&
            var t := WithData(s, b, Patched(s.disk[b], (off + tot) % BSIZE, src[tot..tot + m]));
            Ok(t, {}, 0, 0) && SameSizes(s0, t) && OthersHave(s0, t, ip) && (forall x :: Ref(t, x) == Ref(s, x)) &&
            FileHas(t, ip, Spliced(c, off, src[..tot + m]))
  {
    hide Ok, Ref, FileHas, OthersHave, SizesOk;
    var at := off + tot;
    BlockOf(s, ip, at);
    var b := Ref(s, DataSlot(ip, at / BSIZE));
    var blk := Patched(s.disk[b], at % BSIZE, src[tot..tot + m]);
    OthersPatched(s0, s, ip, at, blk);
    FilePatched(s, ip, c, off, src, tot, m, blk);
    DataSet(s, b, blk);
  }

  lemma PieceOf(s: Fs, ip: int, c: seq<int>, at: nat, m: nat, b: int)
    requires Ok(s, {}, 0, 0) && FileHas(s, ip, c) && at < |c| && at + m <= |c| && at % BSIZE + m <= BSIZE
    requires b == Ref(s, DataSlot(ip, at / BSIZE))
    ensures b in s.disk && |s.disk[b]| == BSIZE && s.disk[b][at % BSIZE..at % BSIZE + m] == c[at..at + m]
  {
    hide Ref, Ok;
    BlockOf(s, ip, at);
    var piece := s.disk[b][at % BSIZE..at % BSIZE + m];
    forall k | 0 <= k < m ensures piece[k] == c[at + k] {
      InBlock(at, m, at + k);
      BlockOf(s, ip, at + k);
    }
  }

  lemma HasPrefix(s: Fs, ip: int, c: seq<int>, n: nat)
    requires FileHas(s, ip, c) && n <= |c|
    ensures FileHas(s, ip, c[..n])
  {
  }

  lemma HasBlock(s: Fs, ip: int, c: seq<int>, i: nat)
    requires FileHas(s, ip, c) && i < |c|
    ensures Ref(s, DataSlot(ip, i / BSIZE)) != 0
  {
  }

  lemma NextPiece(s: Fs, ip: int, c: seq<int>, off: nat, at: nat, m: nat, b: int)
    requires Ok(s, {}, 0, 0) && FileHas(s, ip, c) && off <= at < |c| && at + m <= |c| && at % BSIZE + m <= BSIZE
    requires b == Ref(s, DataSlot(ip, at / BSIZE))
    ensures b in s.disk && |s.disk[b]| == BSIZE
    ensures c[off..at] + s.disk[b][at % BSIZE..at % BSIZE + m] == c[off..at + m]
  {
    hide Ref, Ok, FileHas;
    PieceOf(s, ip, c, at, m, b);
  }

  lemma SizeBound(s: Fs, ip: int)
    requires SizesOk(s) && 0 <= ip < |s.inodes|
    ensures 0 <= s.inodes[ip].size <= MAXFILE * BSIZE
  {
  }

  lemma AllHave(s: Fs, ip: int)
    requires SizesOk(s) && 0 <= ip < |s.inodes|
    ensures OthersHave(s, s, ip) && FileHas(s, ip, Content(s, ip))
  {
    hide FileHas, Ref;
    forall q | 0 <= q < |s.inodes| ensures FileHas(s, q, Content(s, q)) {
      HasContent(s, q);
    }
  }

  lemma AfterBmap(s0: Fs, s: Fs, t: Fs, ip: int, bytes: seq<int>)
    requires SizesOk(s0) && Ok(s, {}, 0, 0) && Ok(t, {}, 0, 0) && GrowsOnly(s, t, ip)
    requires SameSizes(s0, s) && OthersHave(s0, s, ip) && FileHas(s, ip, bytes)
    ensures SameSizes(s0, t) && OthersHave(s0, t, ip) && FileHas(t, ip, bytes)
  {
    hide Ok, Ref, FileHas;
    GrowsHas(s, t, ip, ip, bytes);
    forall q | 0 <= q < |s0.inodes| && q != ip ensures FileHas(t, q, Content(s0, q)) {
      GrowsHas(s, t, ip, q, Content(s0, q));
    }
  }

  lemma OneDataRefAt(s: Fs, t: Fs, ip: int, bn: int, b: int)
    requires OneDataRef(s, t, ip, bn, b) && 0 <= bn
    ensures Ref(t, DataSlot(ip, bn)) == b
  {
  }

  lemma OthersPatched(s0: Fs, s: Fs, ip: int, off: nat, blk: Block)
    requires SizesOk(s0) && Ok(s, {}, 0, 0) && OthersHave(s0, s, ip)
    requires Ref(s, DataSlot(ip, off / BSIZE)) != 0 && IsBlock(blk)
    ensures OthersHave(s0, WithData(s, Ref(s, DataSlot(ip, off / BSIZE)), blk), ip)
  {
    hide Ok, Ref, FileHas;
    forall q | 0 <= q < |s0.inodes| && q != ip
      ensures FileHas(WithData(s, Ref(s, DataSlot(ip, off / BSIZE)), blk), q, Content(s0, q))
    {
      OtherFilePatched(s, ip, off, blk, q, Content(s0, q));
    }
  }

  /** The file whose blocks hold these bytes, once its size says so. */
  lemma Written(s0: Fs, s: Fs, t: Fs, ip: int, bytes: seq<int>)
    requires SizesOk(s0) && 0 <= ip < |s0.inodes| && SameSizes(s0, s) && |bytes| <= MAXFILE * BSIZE
    requires OthersHave(s0, s, ip) && FileHas(s, ip, bytes) && t == WithSize(s, ip, |bytes|)
    requires forall x :: Ref(t, x) == Ref(s, x)
    requires forall q, i: nat :: DataByte(t, q, i) == DataByte(s, q, i)
    ensures SizesOk(t) && Content(t, ip) == bytes
    ensures forall q :: 0 <= q < |t.inodes| && q != ip ==> Content(t, q) == Content(s0, q)
  {
    hide Ref, DataByte;
    forall q | 0 <= q < |t.inodes|
      ensures 0 <= t.inodes[q].size <= MAXFILE * BSIZE
      ensures forall n :: 0 <= n && n * BSIZE < t.inodes[q].size ==> Ref(t, DataSlot(q, n)) != 0
    {
      var has := if q == ip then bytes else Content(s0, q);
      assert FileHas(s, q, has) && |has| == t.inodes[q].size;
      forall n | 0 <= n && n * BSIZE < t.inodes[q].size ensures Ref(t, DataSlot(q, n)) != 0 {
        assert n * BSIZE / BSIZE == n;
      }
    }
    forall q | 0 <= q < |t.inodes| ensures Content(t, q) == if q == ip then bytes else Content(s0, q) {
      var has := if q == ip then bytes else Content(s0, q);
      assert FileHas(s, q, has) && |has| == t.inodes[q].size;
    }
  }

  lemma LooseIsNew(s: Fs, loose: set<int>, b: int)
    requires Ok(s, loose, 0, 0) && b in loose
    ensures b !in s.owner && 0 < b < s.size
  {
  }

  /** The only change in the block maps of files: index bn of ip is block b. */
  ghost predicate OneDataRef(s: Fs, t: Fs, ip: int, bn: int, b: int) {
    forall q, n :: 0 <= n ==> Ref(t, DataSlot(q, n)) == if q == ip && n == bn then b else Ref(s, DataSlot(q, n))
  }

  lemma OneRefIsData(s: Fs, t: Fs, ip: int, bn: int, b: int)
    requires OneRef(s, t, DataSlot(ip, bn), b) && 0 <= bn
    ensures OneDataRef(s, t, ip, bn, b)
  {
    hide Ref;
  }

  lemma OneRefNoData(s: Fs, t: Fs, ip: int, b: int)
    requires OneRef(s, t, Slot(ip, NDIRECT), b)
    ensures forall q, n :: 0 <= n ==> Ref(t, DataSlot(q, n)) == Ref(s, DataSlot(q, n))
  {
    hide Ref;
  }

  lemma AddrsThere(s: Fs, loose: set<int>, ip: int)
    requires Ok(s, loose, 0, 0) && 0 <= ip < |s.inodes|
    ensures |s.inodes[ip].addrs| == NDIRECT + 1
  {
  }

  lemma BitsCover(s: Fs, loose: set<int>)
    requires Ok(s, loose, 0, 0)
    ensures s.size <= 8 * |s.bits| && 0 < s.nmeta <= s.size
    ensures forall b :: 0 <= b < s.nmeta ==> Bit(s.bits, b)
  {
  }

  // ----------------------------------------------------------------- start, and laws

  /** A file system of empty files, with only the metadata marked, is in order. */
  lemma FreshOk(s: Fs)
    requires ShapeOk(s) && s.owner == map[]
    requires forall b :: 0 <= b < s.size ==> (Bit(s.bits, b) <==> b < s.nmeta)
    requires forall ip :: 0 <= ip < |s.inodes| ==> s.inodes[ip].size == 0
    requires forall ip, k :: 0 <= ip < |s.inodes| && 0 <= k <= NDIRECT ==> s.inodes[ip].addrs[k] == 0
    ensures Ok(s, {}, 0, 0) && SizesOk(s)
  {
    forall x ensures Ref(s, x) == 0 {
      assert Addr(s, x.ip, NDIRECT) == 0;
    }
  }

  /** In every reachable state the blocks that are not free are the metadata and the
      blocks that some slot refers to; and no block is referred to twice. */
  lemma MarkedIffReferenced(s: Fs)
    requires Ok(s, {}, 0, 0)
    ensures forall b :: 0 <= b < s.size ==> (Bit(s.bits, b) <==> b < s.nmeta || exists x :: Ref(s, x) == b)
    ensures forall x, y :: Ref(s, x) == Ref(s, y) && Ref(s, x) != 0 ==> x == y
    ensures forall x :: Ref(s, x) != 0 ==> s.nmeta <= Ref(s, x) < s.size
  {
    hide Ref, Bit;
    forall x | Ref(s, x) != 0 ensures Owns(s, Ref(s, x), x) && s.nmeta <= Ref(s, x) < s.size {
      assert !Dead(x, 0, 0);
    }
    forall b | 0 <= b < s.size ensures Bit(s.bits, b) <==> b < s.nmeta || exists x :: Ref(s, x) == b {
      if b in s.owner {
        assert Ref(s, s.owner[b]) == b;
      }
    }
  }

  /** A file of n blocks, each under a bitmap block of its own. */
  ghost predicate Scattered(s: Fs, ip: int, n: nat) {
    forall k :: 0 <= k < n ==> Ref(s, Slot(ip, k)) == (k + 1) * BPB
  }

  lemma {:induction false} ScatteredMaps(s: Fs, ip: int, n: nat)
    requires Scattered(s, ip, n)
    ensures |Maps(s, ip, 0, n)| == n && forall x :: x in Maps(s, ip, 0, n) ==> x.Bitmap? && x.k <= n
  {
    hide Ref, Maps;
    if n > 0 {
      ScatteredMaps(s, ip, n - 1);
      MapsNext(s, ip, 0, n - 1);
      assert Ref(s, Slot(ip, n - 1)) == n * BPB;
      assert Bitmap(n) !in Maps(s, ip, 0, n - 1);
    } else {
      MapsNext(s, ip, 0, 0);
    }
  }

  function ScatteredByte(i: int): bv8 {
    if i < 9 then 255 else if i % 1024 == 0 && 1 <= i / 1024 <= NDIRECT then 1 else 0
  }

  /** The file system of 200000 blocks (param.h) with one scattered file of NDIRECT blocks. */
  function ScatteredFs(): Fs {
    Fs(72, 200000, seq(25000, i => ScatteredByte(i)),
       map b {:trigger Data(b)} | 72 <= b < 200000 :: ZeroBlock(),
       [Inode(seq(NDIRECT + 1, k => if k < NDIRECT then (k + 1) * BPB else 0), NDIRECT * BSIZE)],
       map b | 72 <= b < 200000 && b % BPB == 0 && b / BPB <= NDIRECT :: Slot(0, b / BPB - 1))
  }

  lemma FewMasks(i: int)
    requires 0 <= i < 8
    ensures 255 & Mask(i) != 0 && 0 & Mask(i) == 0 && (1 & Mask(i) != 0 <==> i == 0)
  {
  }

  lemma ScatteredBits(b: int)
    requires 0 <= b < 200000
    ensures Bit(ScatteredFs().bits, b) <==> b < 72 || (b % BPB == 0 && 1 <= b / BPB <= NDIRECT)
  {
    hide Mask;
    FewMasks(b % 8);
    assert b % 8 == 0 && b / 8 % 1024 == 0 <==> b % BPB == 0;
    assert b / 8 / 1024 == b / BPB;
  }

  lemma ScatteredRefs(x: Slot)
    ensures Ref(ScatteredFs(), x) == if x.ip == 0 && 0 <= x.k < NDIRECT then (x.k + 1) * BPB else 0
  {
    assert Addr(ScatteredFs(), x.ip, NDIRECT) == 0;
  }

  lemma ScatteredShape()
    ensures ShapeOk(ScatteredFs())
  {
    var s := ScatteredFs();
    hide ScatteredByte;
    assert forall b {:trigger b in s.disk} :: s.nmeta <= b < s.size ==> b in s.disk && s.disk[b] == ZeroBlock();
  }

  /** It is in order, and its 12 blocks lie in 12 bitmap blocks. */
  lemma ScatteredOk()
    ensures Ok(ScatteredFs(), {}, 0, 0) && SizesOk(ScatteredFs())
    ensures |FileMaps(ScatteredFs(), 0)| == NDIRECT
  {
    var s := ScatteredFs();
    hide Ref, Bit, Mask, Maps, ShapeOk, ScatteredByte;
    ScatteredShape();
    forall x ensures Ref(s, x) == if x.ip == 0 && 0 <= x.k < NDIRECT then (x.k + 1) * BPB else 0 {
      ScatteredRefs(x);
    }
    forall b | 0 <= b < s.size ensures Bit(s.bits, b) <==> b < s.nmeta || b in s.owner {
      ScatteredBits(b);
    }
    forall x | Ref(s, x) != 0 ensures Owns(s, Ref(s, x), x) {
      assert (x.k + 1) * BPB / BPB == x.k + 1;
    }
    ScatteredMaps(s, 0, NDIRECT);
    MapsJoin(s, 0, 0, NDIRECT, MAXFILE + 1);
    NoMaps(s, 0, NDIRECT, MAXFILE + 1);
  }

  lemma NoMaps(s: Fs, ip: int, lo: int, hi: int)
    requires forall k :: lo <= k < hi ==> Ref(s, Slot(ip, k)) == 0
    ensures Maps(s, ip, lo, hi) == {}
  {
    hide Ref;
  }

  /** What writei reports as written is read back, whatever was there and wherever the
      blocks are. */
  method WriteThenRead(fs: FileSystem, ip: int, src: seq<int>, off: int, good: nat) returns (r: int, out: seq<int>)
    requires Ok(fs.S(), {}, 0, 0) && SizesOk(fs.S()) && 0 <= ip < |fs.inodes|
    requires 0 <= off <= fs.inodes[ip].size && off + |src| <= MAXFILE * BSIZE
    requires forall i :: 0 <= i < |src| ==> 0 <= src[i] < 256
    modifies fs
    ensures Ok(fs.S(), {}, 0, 0) && SizesOk(fs.S()) && ip < |fs.inodes|
    ensures 0 <= r <= |src| && out == src[..r] && (r < |src| ==> Full(fs.S()) || good < |src|)
    ensures off + r <= |Content(fs.S(), ip)| && out == Content(fs.S(), ip)[off..off + r]
  {
    SizeBound(fs.S(), ip);
    ghost var c := Content(fs.S(), ip);
    ghost var shown;
    var log;
    r, shown, log := fs.Writei(ip, src, off, good);
    ShowsReported(c, off, src, r, shown);
    SizeBound(fs.S(), ip);
    var tot;
    tot, out := fs.Readi(ip, off, r, r);
  }

  /** A file of one byte, and a write of two of which one can be read: the file has changed,
      though nothing is reported and its block is not logged. */
  method FailedCopy(fs: FileSystem, ip: int) returns (r: int, log: seq<Home>)
    requires Ok(fs.S(), {}, 0, 0) && SizesOk(fs.S()) && 0 <= ip < |fs.inodes|
    requires fs.inodes[ip].size == 1 && Content(fs.S(), ip) == [7]
    modifies fs
    ensures SizesOk(fs.S()) && ip < |fs.inodes| && 0 <= fs.inodes[ip].size
    ensures r == 0 && Content(fs.S(), ip) == [8]
    ensures Unlogged(old(fs.S()), fs.S(), Ref(old(fs.S()), DataSlot(ip, 0)), log)
  {
    hide Ok, SizesOk, Ref, Covers, Names, Full, FileHas;
    ghost var s := fs.S();
    ghost var shown;
    HasContent(s, ip);
    r, shown, log := fs.Writei(ip, [8, 9], 0, 1);
    SizeBound(fs.S(), ip);
    HasContent(fs.S(), ip);
    HasBlock(s, ip, [7], 0);
    HasBlock(fs.S(), ip, Content(fs.S(), ip), 0);
    assert Content(s, ip)[0] == DataByte(s, ip, 0);
  }
}
