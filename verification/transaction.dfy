// File operations as transactions (CLab/xv6/kernel/fs.c over log.c): the file system of
// fs.dfy laid out on the disk of log.dfy. What an operation logs is all that it changed,
// fits its share of the log, and reaches the disk whole or not at all.

module Transactions {
  import F = FileBlocks
  import W = WriteAheadLog

  // ------------------------------------------------------------------- layout

  /** Where mkfs puts things: log, inodes and bitmap, each after the other, then data. */
  datatype Layout = Layout(g: W.Geometry, inodestart: int, bmapstart: int)

  const FIELDS := 14 // what a dinode has here: the size, and addrs

  predicate LayoutOk(l: Layout, s: F.Fs) {
    && l.g.Valid() && l.g.start + l.g.size <= l.inodestart
    && l.inodestart + (|s.inodes| + F.IPB - 1) / F.IPB <= l.bmapstart
    && l.bmapstart + (s.size - 1) / F.BPB < s.nmeta && 0 < s.nmeta <= s.size <= l.g.nblocks
  }

  /** IBLOCK, BBLOCK. */
  function Place(l: Layout, x: F.Home): int {
    match x
    case Bitmap(k) => l.bmapstart + k
    case InodeOf(k) => l.inodestart + k
    case Data(b) => b
  }

  lemma PlaceHome(l: Layout, s: F.Fs, x: F.Home)
    requires LayoutOk(l, s) && F.InFs(s, x)
    ensures l.g.Home(Place(l, x)) && 0 <= Place(l, x) < l.g.nblocks
  {
    if x.InodeOf? {
      assert x.k < (|s.inodes| + F.IPB - 1) / F.IPB;
    }
  }

  lemma PlacesApart(l: Layout, s: F.Fs, x: F.Home, y: F.Home)
    requires LayoutOk(l, s) && F.InFs(s, x) && F.InFs(s, y) && Place(l, x) == Place(l, y)
    ensures x == y
  {
    if x.InodeOf? {
      assert x.k < (|s.inodes| + F.IPB - 1) / F.IPB;
    }
    if y.InodeOf? {
      assert y.k < (|s.inodes| + F.IPB - 1) / F.IPB;
    }
  }

  /** Field j of an inode on disk. */
  function Field(d: F.Inode, j: int): int {
    if j == 0 then d.size else if 1 <= j <= |d.addrs| then d.addrs[j - 1] else 0
  }

  function InodeField(s: F.Fs, k: int, i: int): int {
    var ip := k * F.IPB + i / FIELDS;
    if 0 <= ip < |s.inodes| then Field(s.inodes[ip], i % FIELDS) else 0
  }

  /** The contents of a block. */
  function Enc(s: F.Fs, x: F.Home): W.Block {
    match x
    case Bitmap(k) => seq(F.BPB, i requires 0 <= i < F.BPB => if F.Bit(s.bits, k * F.BPB + i) then 1 else 0)
    case InodeOf(k) => seq(F.IPB * FIELDS, i requires 0 <= i < F.IPB * FIELDS => InodeField(s, k, i))
    case Data(b) => if b in s.disk then s.disk[b] else []
  }

  ghost predicate HasAt(l: Layout, d: W.Disk, s: F.Fs, x: F.Home) {
    0 <= Place(l, x) < |d| && d[Place(l, x)] == Enc(s, x)
  }

  /** The disk holds the file system s. */
  ghost predicate Has(l: Layout, d: W.Disk, s: F.Fs) {
    forall x {:trigger HasAt(l, d, s, x)} :: F.InFs(s, x) ==> HasAt(l, d, s, x)
  }

  // ------------------------------------------------------ files read from a disk

  function InodeAt(l: Layout, d: W.Disk, ip: int, j: int): int {
    var b, i := l.inodestart + ip / F.IPB, ip % F.IPB * FIELDS + j;
    if 0 <= b < |d| && 0 <= i < |d[b]| then d[b][i] else 0
  }

  /** The block of a file's index n, as the disk says. */
  function BlockAt(l: Layout, d: W.Disk, ip: int, n: int): int {
    if n < F.NDIRECT then InodeAt(l, d, ip, 1 + n)
    else
      var ib := InodeAt(l, d, ip, 1 + F.NDIRECT);
      if 0 < ib < |d| && |d[ib]| == F.BSIZE && 0 <= n - F.NDIRECT < F.NINDIRECT then F.Word(d[ib], n - F.NDIRECT) else 0
  }

  function ByteAt(l: Layout, d: W.Disk, ip: int, i: nat): int {
    var b := BlockAt(l, d, ip, i / F.BSIZE);
    if 0 < b < |d| && |d[b]| == F.BSIZE then d[b][i % F.BSIZE] else 0
  }

  /** A file's bytes, from nothing but the blocks of a disk. */
  function FileAt(l: Layout, d: W.Disk, ip: int): seq<int> {
    var size := InodeAt(l, d, ip, 0);
    if size < 0 then [] else seq(size, i requires i >= 0 => ByteAt(l, d, ip, i))
  }

  lemma InodeRead(l: Layout, d: W.Disk, s: F.Fs, ip: int, j: int)
    requires LayoutOk(l, s) && Has(l, d, s) && 0 <= ip < |s.inodes| && 0 <= j < FIELDS
    ensures InodeAt(l, d, ip, j) == Field(s.inodes[ip], j)
  {
    var k, i := ip / F.IPB, ip % F.IPB * FIELDS + j;
    assert F.InFs(s, F.InodeOf(k)) && HasAt(l, d, s, F.InodeOf(k));
    assert i / FIELDS == ip % F.IPB && i % FIELDS == j;
  }

  lemma DataRead(l: Layout, d: W.Disk, s: F.Fs, b: int)
    requires LayoutOk(l, s) && Has(l, d, s) && F.Ok(s, {}, 0, 0) && s.nmeta <= b < s.size
    ensures 0 < b < |d| && b in s.disk && d[b] == s.disk[b] && |d[b]| == F.BSIZE
  {
    assert F.InFs(s, F.Data(b)) && HasAt(l, d, s, F.Data(b));
  }

  lemma BlockRead(l: Layout, d: W.Disk, s: F.Fs, ip: int, n: int)
    requires LayoutOk(l, s) && Has(l, d, s) && F.Ok(s, {}, 0, 0) && 0 <= ip < |s.inodes| && 0 <= n < F.MAXFILE
    ensures BlockAt(l, d, ip, n) == F.Ref(s, F.DataSlot(ip, n))
  {
    hide Has;
    assert |s.inodes[ip].addrs| == F.NDIRECT + 1;
    if n < F.NDIRECT {
      InodeRead(l, d, s, ip, 1 + n);
    } else {
      InodeRead(l, d, s, ip, 1 + F.NDIRECT);
      if F.Addr(s, ip, F.NDIRECT) != 0 {
        F.IndirectOwned(s, {}, ip);
        DataRead(l, d, s, F.Addr(s, ip, F.NDIRECT));
      }
    }
  }

  lemma ByteRead(l: Layout, d: W.Disk, s: F.Fs, ip: int, i: nat)
    requires LayoutOk(l, s) && Has(l, d, s) && F.Ok(s, {}, 0, 0) && 0 <= ip < |s.inodes| && i < F.MAXFILE * F.BSIZE
    requires F.Ref(s, F.DataSlot(ip, i / F.BSIZE)) != 0
    ensures ByteAt(l, d, ip, i) == F.DataByte(s, ip, i)
  {
    hide Has, LayoutOk, F.Ok, F.Ref;
    BlockRead(l, d, s, ip, i / F.BSIZE);
    F.BlockOf(s, ip, i);
    var b := F.Ref(s, F.DataSlot(ip, i / F.BSIZE));
    InUse(s, b);
    DataRead(l, d, s, b);
  }

  lemma InUse(s: F.Fs, b: int)
    requires F.Ok(s, {}, 0, 0) && b in s.owner
    ensures s.nmeta <= b < s.size
  {
  }

  /** A disk that holds s shows the files of s. */
  lemma FilesOnDisk(l: Layout, d: W.Disk, s: F.Fs, ip: int)
    requires LayoutOk(l, s) && Has(l, d, s) && F.Ok(s, {}, 0, 0) && F.SizesOk(s) && 0 <= ip < |s.inodes|
    ensures 0 <= s.inodes[ip].size && FileAt(l, d, ip) == F.Content(s, ip)
  {
    hide Has, LayoutOk, F.Ok, F.SizesOk, F.Ref, ByteAt, F.DataByte;
    F.SizeBound(s, ip);
    InodeRead(l, d, s, ip, 0);
    F.HasContent(s, ip);
    forall i: nat | i < s.inodes[ip].size ensures ByteAt(l, d, ip, i) == F.DataByte(s, ip, i) {
      F.HasBlock(s, ip, F.Content(s, ip), i);
      ByteRead(l, d, s, ip, i);
    }
  }

  lemma HasHome(l: Layout, d: W.Disk, e: W.Disk, s: F.Fs)
    requires LayoutOk(l, s) && W.SameHome(l.g, d, e) && Has(l, d, s)
    ensures Has(l, e, s)
  {
    forall x | F.InFs(s, x) ensures HasAt(l, e, s, x) {
      PlaceHome(l, s, x);
      assert HasAt(l, d, s, x);
    }
  }

  // -------------------------------------------------------------- what is logged

  function Places(l: Layout, names: seq<F.Home>): set<int> {
    set x | x in names :: Place(l, x)
  }

  /** e is d with the named blocks as they are in t. */
  ghost predicate Updated(l: Layout, d: W.Disk, e: W.Disk, t: F.Fs, names: seq<F.Home>) {
    && |e| == |d|
    && (forall x {:trigger HasAt(l, e, t, x)} :: x in names ==> HasAt(l, e, t, x))
    && (forall b {:trigger e[b]} :: 0 <= b < |d| && b !in Places(l, names) ==> e[b] == d[b])
  }

  lemma UpdatedNone(l: Layout, d: W.Disk, t: F.Fs)
    ensures Updated(l, d, d, t, [])
  {
  }

  lemma UpdatedOne(l: Layout, d: W.Disk, e: W.Disk, t: F.Fs, names: seq<F.Home>, x: F.Home)
    requires LayoutOk(l, t) && Updated(l, d, e, t, names) && |d| == l.g.nblocks
    requires F.InFs(t, x) && forall y :: y in names ==> F.InFs(t, y)
    ensures 0 <= Place(l, x) < |e| && Updated(l, d, e[Place(l, x) := Enc(t, x)], t, names + [x])
  {
    hide Enc, LayoutOk, Place;
    PlaceHome(l, t, x);
    var e' := e[Place(l, x) := Enc(t, x)];
    forall y | y in names + [x] ensures HasAt(l, e', t, y) {
      if Place(l, y) == Place(l, x) {
        PlacesApart(l, t, y, x);
      } else {
        assert HasAt(l, e, t, y);
      }
    }
    assert (names + [x])[|names|] == x;
    assert forall y :: y in names ==> y in names + [x];
  }

  lemma EncSame(s: F.Fs, t: F.Fs, names: seq<F.Home>, x: F.Home)
    requires F.Covers(s, t, names, -1) && F.InFs(t, x) && x !in names
    ensures F.InFs(s, x) && Enc(t, x) == Enc(s, x)
  {
    match x
    case Bitmap(k) =>
      forall b | k * F.BPB <= b < k * F.BPB + F.BPB ensures F.Bit(t.bits, b) <==> F.Bit(s.bits, b) {
        assert b / F.BPB == k;
      }
    case InodeOf(k) =>
      forall i | 0 <= i < F.IPB * FIELDS ensures InodeField(t, k, i) == InodeField(s, k, i) {
        SameInode(s, t, names, k, i);
      }
    case Data(b) =>
  }

  lemma SameInode(s: F.Fs, t: F.Fs, names: seq<F.Home>, k: int, i: int)
    requires F.Covers(s, t, names, -1) && F.InodeOf(k) !in names && 0 <= k && 0 <= i < F.IPB * FIELDS
    ensures InodeField(t, k, i) == InodeField(s, k, i)
  {
    var ip := k * F.IPB + i / FIELDS;
    assert ip / F.IPB == k;
  }

  /** Logging what covers a change brings the whole of it. */
  lemma UpdatedHas(l: Layout, d: W.Disk, e: W.Disk, s: F.Fs, t: F.Fs, names: seq<F.Home>)
    requires LayoutOk(l, t) && Has(l, d, s) && F.Covers(s, t, names, -1) && Updated(l, d, e, t, names)
    requires forall x :: x in names ==> F.InFs(t, x)
    ensures Has(l, e, t)
  {
    hide Enc, LayoutOk, Place, F.Covers;
    forall x | F.InFs(t, x) ensures HasAt(l, e, t, x) {
      if x !in names {
        EncSame(s, t, names, x);
        assert HasAt(l, d, s, x);
        forall y | y in names ensures Place(l, y) != Place(l, x) {
          if Place(l, y) == Place(l, x) {
            PlacesApart(l, t, y, x);
          }
        }
      }
    }
  }

  // ---------------------------------------------------------- the log's steps

  ghost function Seen(g: W.Geometry, init: W.Sys, acts: seq<W.Act>): W.Files {
    W.ObserveAll(g, W.Files(init.disk, init.mem), acts)
  }

  /** From step n on operations begin, log and end, and nothing is committed yet. */
  ghost predicate Logging(acts: seq<W.Act>, n: nat) {
    n <= |acts| && forall i :: n <= i < |acts| ==> acts[i].LogWrite? || acts[i].BeginOp? || acts[i].EndOp?
  }

  /** Until it is committed, what is logged makes nothing durable. */
  lemma {:induction false} LoggingStays(g: W.Geometry, init: W.Sys, acts: seq<W.Act>, n: nat)
    requires Logging(acts, n)
    ensures Seen(g, init, acts).durable == Seen(g, init, acts[..n]).durable
    decreases |acts|
  {
    if n < |acts| {
      LoggingStays(g, init, acts[..|acts| - 1], n);
      assert acts[..|acts| - 1][..n] == acts[..n];
    } else {
      assert acts[..n] == acts;
    }
  }

  /** From there on the durable files are what they were, or what is current. */
  lemma {:induction false} CommitEither(g: W.Geometry, init: W.Sys, acts: seq<W.Act>, n: nat)
    requires n <= |acts| && forall i :: n <= i < |acts| ==> !acts[i].LogWrite?
    ensures var f, b := Seen(g, init, acts), Seen(g, init, acts[..n]);
            (f.durable == b.durable || f.durable == b.current) && (f.current == b.durable || f.current == b.current)
    decreases |acts|
  {
    if n < |acts| {
      CommitEither(g, init, acts[..|acts| - 1], n);
      assert acts[..|acts| - 1][..n] == acts[..n];
    } else {
      assert acts[..n] == acts;
    }
  }

  lemma {:induction false} LegalPrefix(g: W.Geometry, init: W.Sys, acts: seq<W.Act>, k: nat)
    requires W.Inv(g, init) && W.Legal(g, init, acts) && k <= |acts|
    ensures W.Legal(g, init, acts[..k])
    decreases |acts|
  {
    if k < |acts| {
      LegalPrefix(g, init, acts[..|acts| - 1], k);
      assert acts[..|acts| - 1][..k] == acts[..k];
    } else {
      assert acts[..k] == acts;
    }
  }

  lemma {:induction false} StaysAt(g: W.Geometry, init: W.Sys, acts: seq<W.Act>, n: nat, b: int)
    requires Logging(acts, n) && forall i :: n <= i < |acts| && acts[i].LogWrite? ==> acts[i].b != b
    ensures var d, e := Seen(g, init, acts[..n]).current, Seen(g, init, acts).current;
            |e| == |d| && (0 <= b < |d| ==> e[b] == d[b])
    decreases |acts|
  {
    if n < |acts| {
      StaysAt(g, init, acts[..|acts| - 1], n, b);
      assert acts[..|acts| - 1][..n] == acts[..n];
    } else {
      assert acts[..n] == acts;
    }
  }

  lemma {:induction false} StaysSized(g: W.Geometry, init: W.Sys, acts: seq<W.Act>, n: nat)
    requires Logging(acts, n)
    ensures |Seen(g, init, acts).current| == |Seen(g, init, acts[..n]).current|
    decreases |acts|
  {
    if n < |acts| {
      StaysSized(g, init, acts[..|acts| - 1], n);
      assert acts[..|acts| - 1][..n] == acts[..n];
    } else {
      assert acts[..n] == acts;
    }
  }

  /** However the crash falls, the replayed disk shows the files that were durable. */
  lemma ReplayShows(l: Layout, init: W.Sys, acts: seq<W.Act>, s: F.Fs, ip: int)
    requires W.Fresh(l.g, init) && W.Legal(l.g, init, acts) && Has(l, Seen(l.g, init, acts).durable, s)
    requires LayoutOk(l, s) && F.Ok(s, {}, 0, 0) && F.SizesOk(s) && 0 <= ip < |s.inodes|
    ensures var d := W.Exec(l.g, init, acts).disk;
            && |d| == l.g.nblocks && W.ValidHeader(l.g, d[l.g.start]) && 0 <= s.inodes[ip].size
            && FileAt(l, W.Recovered(l.g, d), ip) == F.Content(s, ip)
  {
    hide F.Ok, F.SizesOk, Has, LayoutOk, FileAt, W.Recovered;
    W.CrashSafety(l.g, init, acts);
    var d := W.Exec(l.g, init, acts).disk;
    Swapped(l.g, Seen(l.g, init, acts).durable, W.Recovered(l.g, d));
    HasHome(l, Seen(l.g, init, acts).durable, W.Recovered(l.g, d), s);
    FilesOnDisk(l, W.Recovered(l.g, d), s, ip);
  }

  lemma Swapped(g: W.Geometry, d: W.Disk, e: W.Disk)
    requires W.SameHome(g, e, d)
    ensures W.SameHome(g, d, e)
  {
  }

  /** At any moment from n on the durable files are those of s or those of t. */
  ghost predicate OldOrNew(l: Layout, init: W.Sys, acts: seq<W.Act>, n: nat, t: F.Fs) {
    forall k {:trigger acts[..k]} :: n <= k <= |acts| ==>
      Seen(l.g, init, acts[..k]).durable == Seen(l.g, init, acts[..n]).durable ||
      Has(l, Seen(l.g, init, acts[..k]).durable, t)
  }

  /** A crash at any step k of the transaction, and recovery: every file is as before it,
      or every file is as after it. */
  lemma CrashAnywhere(l: Layout, init: W.Sys, acts: seq<W.Act>, n: nat, k: nat, s: F.Fs, t: F.Fs)
    requires W.Fresh(l.g, init) && W.Legal(l.g, init, acts) && n <= k <= |acts| && OldOrNew(l, init, acts, n, t)
    requires Has(l, Seen(l.g, init, acts[..n]).durable, s)
    requires LayoutOk(l, s) && F.Ok(s, {}, 0, 0) && F.SizesOk(s)
    requires LayoutOk(l, t) && F.Ok(t, {}, 0, 0) && F.SizesOk(t)
    ensures W.Legal(l.g, init, acts[..k])
    ensures var d := W.Exec(l.g, init, acts[..k]).disk;
            |d| == l.g.nblocks && W.ValidHeader(l.g, d[l.g.start]) &&
            (Shows(l, W.Recovered(l.g, d), s) || Shows(l, W.Recovered(l.g, d), t))
  {
    LegalPrefix(l.g, init, acts, k);
    hide F.Ok, F.SizesOk, Has, LayoutOk, FileAt, W.Recovered, W.Inv, W.Exec, W.Legal, Seen;
    var u := if Has(l, Seen(l.g, init, acts[..k]).durable, t) then t else s;
    W.CrashSafety(l.g, init, acts[..k]);
    forall ip | 0 <= ip < |u.inodes| ensures ShowsOne(l, W.Recovered(l.g, W.Exec(l.g, init, acts[..k]).disk), u, ip) {
      ReplayShows(l, init, acts[..k], u, ip);
    }
  }

  /** Every file of s can be read from the disk. */
  ghost predicate Shows(l: Layout, d: W.Disk, s: F.Fs) {
    forall ip {:trigger ShowsOne(l, d, s, ip)} :: 0 <= ip < |s.inodes| ==> ShowsOne(l, d, s, ip)
  }

  ghost predicate ShowsOne(l: Layout, d: W.Disk, s: F.Fs, ip: int)
    requires 0 <= ip < |s.inodes|
  {
    0 <= s.inodes[ip].size && FileAt(l, d, ip) == F.Content(s, ip)
  }

  // ------------------------------------------------------- groups of operations

  /** Among the steps from n on the last log_write of block x leaves in it what it is in t. */
  ghost predicate LastLogged(l: Layout, acts: seq<W.Act>, n: nat, t: F.Fs, x: F.Home) {
    exists i :: LastAt(l, acts, n, t, x, i)
  }

  ghost predicate LastAt(l: Layout, acts: seq<W.Act>, n: nat, t: F.Fs, x: F.Home, i: int) {
    && n <= i < |acts| && acts[i].LogWrite? && acts[i].b == Place(l, x) && acts[i].data == Enc(t, x)
    && forall j :: i < j < |acts| && acts[j].LogWrite? ==> acts[j].b != Place(l, x)
  }

  /** The log_writes of any number of operations, in any order: they are of the named
      blocks, and the last one of each leaves it as it is in t. */
  ghost predicate Group(l: Layout, acts: seq<W.Act>, n: nat, t: F.Fs, names: seq<F.Home>) {
    && Logging(acts, n)
    && (forall i :: n <= i < |acts| && acts[i].LogWrite? ==> acts[i].b in Places(l, names))
    && (forall x {:trigger x in names} {:trigger LastLogged(l, acts, n, t, x)} :: x in names ==>
          LastLogged(l, acts, n, t, x))
  }

  lemma GroupAt(l: Layout, init: W.Sys, acts: seq<W.Act>, n: nat, t: F.Fs, x: F.Home)
    requires Logging(acts, n) && LastLogged(l, acts, n, t, x)
    requires 0 <= Place(l, x) < |Seen(l.g, init, acts[..n]).current|
    ensures HasAt(l, Seen(l.g, init, acts).current, t, x)
  {
    hide Place, Enc;
    var i :| LastAt(l, acts, n, t, x, i);
    StaysAt(l.g, init, acts, i + 1, Place(l, x));
    var upto := acts[..i + 1];
    assert upto[..i] == acts[..i] && upto[i] == acts[i] && acts[..i][..n] == acts[..n];
    StaysSized(l.g, init, acts[..i], n);
    assert Seen(l.g, init, upto) == W.Observe(l.g, Seen(l.g, init, acts[..i]), acts[i]);
  }

  /** Whatever the order, they bring what is current from s to t. */
  lemma GroupHas(l: Layout, init: W.Sys, acts: seq<W.Act>, n: nat, s: F.Fs, t: F.Fs, names: seq<F.Home>)
    requires Group(l, acts, n, t, names) && Has(l, Seen(l.g, init, acts[..n]).current, s)
    requires |Seen(l.g, init, acts[..n]).current| == l.g.nblocks
    requires LayoutOk(l, t) && F.Covers(s, t, names, -1) && forall x :: x in names ==> F.InFs(t, x)
    ensures Has(l, Seen(l.g, init, acts).current, t)
  {
    hide Place, Enc, LayoutOk, Has, F.Covers, F.InFs, LastLogged, Seen, HasAt;
    var d, e := Seen(l.g, init, acts[..n]).current, Seen(l.g, init, acts).current;
    StaysSized(l.g, init, acts, n);
    forall x | x in names ensures HasAt(l, e, t, x) {
      PlaceHome(l, t, x);
      GroupAt(l, init, acts, n, t, x);
    }
    forall b | 0 <= b < |d| && b !in Places(l, names) ensures e[b] == d[b] {
      StaysAt(l.g, init, acts, n, b);
    }
    UpdatedHas(l, d, e, s, t, names);
  }

  /** So a group of operations, their changes and log_writes in any order up to step m,
      becomes durable as a whole or not at all. */
  lemma GroupOldOrNew(l: Layout, init: W.Sys, acts: seq<W.Act>, n: nat, m: nat, s: F.Fs, t: F.Fs,
                      names: seq<F.Home>)
    requires W.Fresh(l.g, init) && W.Legal(l.g, init, acts) && n <= m <= |acts|
    requires Group(l, acts[..m], n, t, names) && forall i :: m <= i < |acts| ==> !acts[i].LogWrite?
    requires Has(l, Seen(l.g, init, acts[..n]).current, s) && LayoutOk(l, t)
    requires F.Covers(s, t, names, -1) && forall x :: x in names ==> F.InFs(t, x)
    ensures Has(l, Seen(l.g, init, acts[..m]).current, t) && OldOrNew(l, init, acts, n, t)
  {
    hide Has, LayoutOk, F.Covers, F.InFs, Seen, OldOrNew, Places, LastLogged;
    LegalPrefix(l.g, init, acts, n);
    SeenSize(l.g, init, acts[..n]);
    assert acts[..m][..n] == acts[..n];
    GroupHas(l, init, acts[..m], n, s, t, names);
    Together(l, init, acts[..m], acts, n, t);
  }

  lemma SeenSize(g: W.Geometry, init: W.Sys, acts: seq<W.Act>)
    requires W.Fresh(g, init) && W.Legal(g, init, acts)
    ensures |Seen(g, init, acts).current| == |Seen(g, init, acts).durable| == g.nblocks
  {
    W.CrashSafety(g, init, acts);
  }

  /** One more log_write. */
  lemma LastNext(l: Layout, acts: seq<W.Act>, a: W.Act, n: nat, t: F.Fs, x: F.Home, y: F.Home)
    requires LayoutOk(l, t) && F.InFs(t, x) && F.InFs(t, y) && n <= |acts|
    requires a.LogWrite? && a.b == Place(l, y) && a.data == Enc(t, y)
    requires x == y || LastLogged(l, acts, n, t, x)
    ensures LastLogged(l, acts + [a], n, t, x)
  {
    hide Place, Enc, LayoutOk;
    if x == y {
      assert LastAt(l, acts + [a], n, t, x, |acts|);
    } else {
      if Place(l, x) == Place(l, y) {
        PlacesApart(l, t, x, y);
      }
      var i :| LastAt(l, acts, n, t, x, i);
      assert LastAt(l, acts + [a], n, t, x, i);
    }
  }

  /** What another operation then does elsewhere leaves it so. */
  lemma LastElsewhere(l: Layout, acts: seq<W.Act>, n: nat, s: F.Fs, t: F.Fs, names: seq<F.Home>, x: F.Home)
    requires LastLogged(l, acts, n, s, x) && F.Covers(s, t, names, -1) && F.InFs(t, x) && x !in names
    ensures LastLogged(l, acts, n, t, x)
  {
    hide Place, Enc, F.Covers;
    EncSame(s, t, names, x);
    var i :| LastAt(l, acts, n, s, x, i);
    assert LastAt(l, acts, n, t, x, i);
  }

  // ------------------------------------------------------------------- the share

  const MAXWRITE := (W.MAXOPBLOCKS - 1 - 1 - 2) / 2 * F.BSIZE

  /** filewrite's chunks fit what an operation may log: with the inode, which comes last,
      at most MAXOPBLOCKS blocks, wherever the chunk starts and whatever is allocated. */
  lemma ChunkFits(off: nat, n: nat)
    requires n <= MAXWRITE
    ensures F.LogBound(off, n) < W.MAXOPBLOCKS
  {
    if n > 0 {
      assert (off + n - 1) / F.BSIZE <= (off + MAXWRITE - 1) / F.BSIZE;
      assert off % F.BSIZE == 0 ==> (off + MAXWRITE - 1) / F.BSIZE == off / F.BSIZE + 2;
    }
  }

  lemma OneMore(l: Layout, names: seq<F.Home>, x: F.Home)
    ensures F.Names(names + [x]) == F.Names(names) + {x} && Places(l, names + [x]) == Places(l, names) + {Place(l, x)}
    ensures x in names ==> Place(l, x) in Places(l, names)
  {
    assert (names + [x])[|names|] == x;
    assert forall y :: y in names + [x] <==> y in names || y == x;
  }

  lemma {:induction false} FewPlaces(l: Layout, names: seq<F.Home>)
    ensures |Places(l, names)| <= |F.Names(names)|
  {
    hide Place;
    if names != [] {
      var before, x := names[..|names| - 1], names[|names| - 1];
      FewPlaces(l, before);
      assert names == before + [x];
      OneMore(l, before, x);
      hide Places, F.Names;
      NamesIn(before, x);
    }
  }

  lemma NamesIn(names: seq<F.Home>, x: F.Home)
    ensures x in F.Names(names) <==> x in names
  {
  }

  /** What was logged before the last block is at most what was logged in all but it. */
  lemma PrefixFewer(names: seq<F.Home>, i: nat)
    requires i < |names|
    ensures |F.Names(names[..i])| <= |F.Names(names[..|names| - 1])|
  {
    F.Fewer(F.Names(names[..i]), F.Names(names[..|names| - 1]));
  }

  lemma FewBitmaps(size: int, names: set<F.Home>)
    requires 0 < size && forall x :: x in names ==> F.IsBitmap(x, size)
    ensures |names| <= (size - 1) / F.BPB + 1
  {
    var n := (size - 1) / F.BPB + 1;
    var all := set k | 0 <= k < n :: F.Bitmap(k);
    CountBitmaps(n);
    forall x | x in names ensures x in all {
      assert x == F.Bitmap(x.k);
    }
    F.Fewer(names, all);
  }

  lemma {:induction false} CountBitmaps(n: nat)
    ensures |set k | 0 <= k < n :: F.Bitmap(k)| == n
  {
    if n > 0 {
      CountBitmaps(n - 1);
      assert (set k | 0 <= k < n :: F.Bitmap(k)) == (set k | 0 <= k < n - 1 :: F.Bitmap(k)) + {F.Bitmap(n - 1)};
    } else {
      assert (set k | 0 <= k < n :: F.Bitmap(k)) == {};
    }
  }

  lemma NoPanic(g: W.Geometry, s: W.Sys, op: nat)
    requires W.Inv(g, s) && g.size > W.LOGSIZE && op < |s.ops| && |s.ops[op]| < W.MAXOPBLOCKS
    ensures !W.Panics(g, s)
  {
    W.BudgetBounds(s.ops, op);
  }

  lemma ViewSize(log: W.LogDevice)
    requires log.Valid()
    ensures |log.View().current| == |log.View().durable| == log.g.nblocks
    ensures log.g.Valid() && W.Fresh(log.g, log.init) && W.Legal(log.g, log.init, log.acts)
  {
    W.CrashSafety(log.g, log.init, log.acts);
  }

  // ------------------------------------------------------------------ operations

  /** The last log_write is the first to take the operation's last share. */
  ghost predicate Bounded(names: seq<F.Home>) {
    names != [] ==> |F.Names(names[..|names| - 1])| < W.MAXOPBLOCKS
  }

  /** One log_write of an operation that has logged the first i of its blocks. */
  method LogOne(log: W.LogDevice, ghost op: nat, l: Layout, t: F.Fs, names: seq<F.Home>, i: nat)
    requires log.Valid() && log.g == l.g && l.g.size > W.LOGSIZE && LayoutOk(l, t)
    requires i < |names| && F.InFs(t, names[i]) && Bounded(names)
    requires op < |log.sys.ops| && log.sys.ops[op] == Places(l, names[..i])
    modifies log`mem, log`n, log`acts, log`sys, log.block
    ensures log.Valid() && log.acts == old(log.acts) + [W.Act.LogWrite(op, Place(l, names[i]), Enc(t, names[i]))]
    ensures log.sys.ops == old(log.sys.ops)[op := Places(l, names[..i + 1])]
    ensures log.View() == W.Observe(l.g, old(log.View()), log.acts[|log.acts| - 1])
  {
    hide Enc, LayoutOk, Place, F.InFs, Places, W.Inv, W.Reaches, W.Panics;
    FewPlaces(l, names[..i]);
    PrefixFewer(names, i);
    NoPanic(l.g, log.sys, op);
    PlaceHome(l, t, names[i]);
    OnePlace(l, names, i);
    log.LogWrite(op, Place(l, names[i]), Enc(t, names[i]));
  }

  /** The log_writes of an operation; its state when they are done is what is logged. */
  method LogAll(log: W.LogDevice, ghost op: nat, l: Layout, t: F.Fs, names: seq<F.Home>)
    requires log.Valid() && log.g == l.g && l.g.size > W.LOGSIZE
    requires op < |log.sys.ops| && log.sys.ops[op] == {} && LayoutOk(l, t)
    requires forall x :: x in names ==> F.InFs(t, x)
    requires Bounded(names)
    modifies log`mem, log`n, log`acts, log`sys, log.block
    ensures log.Valid() && log.sys.ops == old(log.sys.ops)[op := Places(l, names)]
    ensures Updated(l, old(log.View()).current, log.View().current, t, names)
    ensures old(log.acts) <= log.acts && forall i :: |old(log.acts)| <= i < |log.acts| ==> log.acts[i].LogWrite?
  {
    hide Enc, LayoutOk, Place, Updated, F.InFs, Places, W.Inv, W.Reaches, W.Panics;
    ghost var d := log.View().current;
    ViewSize(log);
    UpdatedNone(l, d, t);
    assert Places(l, []) == {} by { NoPlaces(l); }
    for i := 0 to |names|
      invariant log.Valid() && log.sys.ops == old(log.sys.ops)[op := Places(l, names[..i])]
      invariant Updated(l, d, log.View().current, t, names[..i])
      invariant old(log.acts) <= log.acts && forall i :: |old(log.acts)| <= i < |log.acts| ==> log.acts[i].LogWrite?
    {
      ViewSize(log);
      PlaceHome(l, t, names[i]);
      UpdatedOne(l, d, log.View().current, t, names[..i], names[i]);
      assert names[..i + 1] == names[..i] + [names[i]];
      LogOne(log, op, l, t, names, i);
    }
    assert names[..|names|] == names;
  }

  lemma NoPlaces(l: Layout)
    ensures Places(l, []) == {}
  {
  }

  lemma OnePlace(l: Layout, names: seq<F.Home>, i: nat)
    requires i < |names|
    ensures Places(l, names[..i + 1]) == Places(l, names[..i]) + {Place(l, names[i])}
  {
    assert names[..i + 1] == names[..i] + [names[i]];
  }

  /** The parts of a file system that its blocks hold. */
  function Plain(s: F.Fs): F.Fs {
    s.(owner := map[])
  }

  lemma PlainSame(l: Layout, d: W.Disk, s: F.Fs)
    ensures Has(l, d, Plain(s)) <==> Has(l, d, s)
    ensures LayoutOk(l, Plain(s)) <==> LayoutOk(l, s)
  {
    forall x ensures HasAt(l, d, Plain(s), x) <==> HasAt(l, d, s, x) {
      PlainEnc(s, x);
    }
    if Has(l, d, s) {
      forall x | F.InFs(Plain(s), x) ensures HasAt(l, d, Plain(s), x) {
        assert HasAt(l, d, s, x);
      }
    }
    if Has(l, d, Plain(s)) {
      forall x | F.InFs(s, x) ensures HasAt(l, d, s, x) {
        assert HasAt(l, d, Plain(s), x);
      }
    }
  }

  lemma PlainEnc(s: F.Fs, x: F.Home)
    ensures Enc(Plain(s), x) == Enc(s, x)
  {
    if x.InodeOf? {
      assert forall i :: InodeField(Plain(s), x.k, i) == InodeField(s, x.k, i);
    }
  }

  lemma PlainCovers(s: F.Fs, t: F.Fs, names: seq<F.Home>)
    requires F.Covers(s, t, names, -1)
    ensures F.Covers(s, Plain(t), names, -1)
  {
  }

  /** end_op: if it is the last operation its group is committed, and what is current
      becomes durable. */
  method End(log: W.LogDevice, ghost op: nat, l: Layout, ghost t: F.Fs)
    requires log.Valid() && log.g == l.g && op < |log.sys.ops| && LayoutOk(l, t)
    modifies log`disk, log`mem, log`n, log`outstanding, log`committing, log`acts, log`sys
    ensures log.Valid() && W.NoWrites(old(log.acts), log.acts)
    ensures log.sys.ops == old(log.sys.ops)[..op] + old(log.sys.ops)[op + 1..]
    ensures Has(l, log.View().current, t) <==> Has(l, old(log.View()).current, t)
    ensures log.sys.ops == [] ==> (Has(l, log.View().durable, t) <==> Has(l, old(log.View()).current, t))
  {
    hide Has, LayoutOk, W.Inv, W.Reaches;
    ghost var f := log.View();
    log.EndOp(op);
    if log.sys.ops == [] {
      SameHas(l, f.current, log.View().current, t);
      SameHas(l, f.current, log.View().durable, t);
    }
  }

  lemma SameHas(l: Layout, d: W.Disk, e: W.Disk, s: F.Fs)
    requires LayoutOk(l, s) && W.SameHome(l.g, e, d)
    ensures Has(l, e, s) <==> Has(l, d, s)
  {
    hide Has, LayoutOk;
    Swapped(l.g, d, e);
    if Has(l, d, s) {
      HasHome(l, d, e, s);
    }
    if Has(l, e, s) {
      HasHome(l, e, d, s);
    }
  }

  lemma Together(l: Layout, init: W.Sys, before: seq<W.Act>, acts: seq<W.Act>, n: nat, t: F.Fs)
    requires n <= |before| && W.NoWrites(before, acts) && Has(l, Seen(l.g, init, before).current, t)
    requires Logging(before, n)
    ensures OldOrNew(l, init, acts, n, t)
  {
    hide Has;
    forall k | n <= k <= |acts|
      ensures Seen(l.g, init, acts[..k]).durable == Seen(l.g, init, acts[..n]).durable ||
              Has(l, Seen(l.g, init, acts[..k]).durable, t)
    {
      var m := |before|;
      assert acts[..m] == before && before[..n] == acts[..n];
      LoggingStays(l.g, init, before, n);
      if k <= m {
        assert acts[..k][..n] == acts[..n] && acts[..k] == before[..k];
        LoggingStays(l.g, init, acts[..k], n);
      } else {
        assert acts[..k][..m] == before;
        CommitEither(l.g, init, acts[..k], m);
      }
    }
  }

  /** All of an operation after the file system's part: its log_writes, and end_op. */
  method Conclude(log: W.LogDevice, ghost op: nat, l: Layout, ghost n: nat, ghost s: F.Fs, fs: F.FileSystem,
                  names: seq<F.Home>, ghost whole: bool)
    requires log.Valid() && log.g == l.g && l.g.size > W.LOGSIZE && op < |log.sys.ops| && log.sys.ops[op] == {}
    requires LayoutOk(l, fs.S()) && Has(l, log.View().current, s) && (whole ==> F.Covers(s, fs.S(), names, -1))
    requires (forall x :: x in names ==> F.InFs(fs.S(), x)) && Bounded(names)
    requires Logging(log.acts, n)
    modifies log, log.block
    ensures log.Valid() && old(log.acts) <= log.acts
    ensures log.sys.ops == old(log.sys.ops)[..op] + old(log.sys.ops)[op + 1..]
    ensures whole ==> Has(l, log.View().current, fs.S()) && OldOrNew(l, log.init, log.acts, n, fs.S())
    ensures whole && log.sys.ops == [] ==> Has(l, log.View().durable, fs.S())
    ensures forall x :: Behind(l, old(log.View()).current, fs.S(), names, x) ==>
              !Has(l, log.View().current, fs.S()) && (log.sys.ops == [] ==> !Has(l, log.View().durable, fs.S()))
  {
    hide Has, LayoutOk, W.Inv, W.Reaches, F.Covers, F.InFs, Updated, OldOrNew, F.Names, Behind;
    ghost var d := log.View().current;
    var t := F.Fs(fs.nmeta, fs.size, fs.bits, fs.disk, fs.inodes, map[]);
    assert t == Plain(fs.S());
    PlainSame(l, d, fs.S());
    PlainIn(fs.S(), names);
    LogAll(log, op, l, t, names);
    ghost var e := log.View().current;
    forall x | Behind(l, d, fs.S(), names, x) ensures !Has(l, e, fs.S()) {
      StaysBehind(l, d, e, fs.S(), names, x);
    }
    if whole {
      PlainCovers(s, fs.S(), names);
      UpdatedHas(l, d, log.View().current, s, t, names);
      PlainSame(l, log.View().current, fs.S());
    }
    ghost var before := log.acts;
    End(log, op, l, fs.S());
    if whole {
      Together(l, log.init, before, log.acts, n, fs.S());
    }
  }

  /** Block x has changed and is not among those logged. */
  ghost predicate Behind(l: Layout, d: W.Disk, s: F.Fs, names: seq<F.Home>, x: F.Home) {
    F.InFs(s, x) && x !in names && !HasAt(l, d, s, x)
  }

  lemma StaysBehind(l: Layout, d: W.Disk, e: W.Disk, s: F.Fs, names: seq<F.Home>, x: F.Home)
    requires LayoutOk(l, s) && Behind(l, d, s, names, x) && Updated(l, d, e, Plain(s), names)
    requires forall y :: y in names ==> F.InFs(s, y)
    ensures !Has(l, e, s)
  {
    hide Enc, LayoutOk, Place;
    PlaceHome(l, s, x);
    forall y | y in names ensures Place(l, y) != Place(l, x) {
      if Place(l, y) == Place(l, x) {
        PlacesApart(l, s, y, x);
      }
    }
    assert !HasAt(l, e, s, x);
  }

  /** begin_op's two guards. */
  predicate Admits(committing: bool, n: int, outstanding: int) {
    !committing && n + (outstanding + 1) * W.MAXOPBLOCKS <= W.LOGSIZE
  }

  /** All files but ip are the same. */
  ghost predicate OthersStay(s: F.Fs, t: F.Fs, ip: int) {
    && |t.inodes| == |s.inodes|
    && forall q {:trigger s.inodes[q]} {:trigger t.inodes[q]} :: 0 <= q < |s.inodes| && q != ip ==>
         0 <= s.inodes[q].size && 0 <= t.inodes[q].size && F.Content(t, q) == F.Content(s, q)
  }

  lemma AllSized(s: F.Fs, ip: int)
    requires F.SizesOk(s)
    ensures forall q :: 0 <= q < |s.inodes| ==> 0 <= s.inodes[q].size
    ensures OthersStay(s, s, ip)
  {
    hide F.SizesOk;
    forall q | 0 <= q < |s.inodes| ensures 0 <= s.inodes[q].size {
      F.SizeBound(s, q);
    }
  }

  lemma OthersStayed(s: F.Fs, t: F.Fs, ip: int)
    requires F.SizesOk(s) && F.SizesOk(t) && |t.inodes| == |s.inodes|
    requires (forall q :: 0 <= q < |s.inodes| ==> 0 <= s.inodes[q].size) &&
             (forall q :: 0 <= q < |t.inodes| ==> 0 <= t.inodes[q].size) &&
             forall q :: 0 <= q < |t.inodes| && q != ip ==> F.Content(t, q) == F.Content(s, q)
    ensures OthersStay(s, t, ip)
  {
    hide F.SizesOk, F.Content;
  }

  /** After a write the log has all that changed. */
  ghost predicate Kept(s: F.Fs, ip: int, src: seq<int>, off: nat, r: int, shown: nat) {
    r == -1 || (0 <= r <= shown <= |src| && F.AllLogged(s, ip, off, src, r, shown))
  }

  /** One chunk of filewrite: begin_op, writei and end_op. No log_write panics. What is
      current shows the new file system exactly if the log has all that changed, as it has
      unless the copy from the user fails inside a block that was there before; and then at
      every step the durable files are all old or all new. */
  method WriteChunk(log: W.LogDevice, fs: F.FileSystem, l: Layout, ip: int, src: seq<int>, off: int, good: nat)
    returns (admitted: bool, r: int, ghost shown: nat)
    requires log.Valid() && log.sys.Up() && log.g == l.g && l.g.size > W.LOGSIZE
    requires F.Ok(fs.S(), {}, 0, 0) && F.SizesOk(fs.S()) && 0 <= ip < |fs.inodes| && 0 <= off < F.UINT
    requires |src| <= MAXWRITE && forall i :: 0 <= i < |src| ==> 0 <= src[i] < 256
    requires LayoutOk(l, fs.S()) && Has(l, log.View().current, fs.S())
    modifies log, log.block, fs
    ensures log.Valid() && F.Ok(fs.S(), {}, 0, 0) && F.SizesOk(fs.S()) && LayoutOk(l, fs.S())
    ensures admitted <==> Admits(old(log.committing), old(log.n), old(log.outstanding))
    ensures old(log.acts) <= log.acts && (!admitted ==> log.acts == old(log.acts) && fs.S() == old(fs.S()))
    ensures log.sys.ops == old(log.sys.ops)
    ensures |fs.inodes| == |old(fs.inodes)| && 0 <= old(fs.inodes[ip].size) && 0 <= fs.inodes[ip].size
    ensures OthersStay(old(fs.S()), fs.S(), ip)
    ensures admitted ==> (r == -1 <==> off > old(fs.inodes[ip].size) || off + |src| > F.MAXFILE * F.BSIZE)
    ensures admitted && r == -1 ==> fs.S() == old(fs.S())
    ensures admitted && r != -1 ==>
              F.Stopped(fs.S(), ip, off, |src|, good, r, shown) && off <= old(fs.inodes[ip].size) &&
              0 <= r <= shown <= |src| && (r < |src| ==> F.Full(fs.S()) || good < |src|) &&
              F.Content(fs.S(), ip) == F.Shown(old(F.Content(fs.S(), ip)), off, src, r, shown)
    ensures admitted && r != -1 && (good >= |src| || good == 0 || (off + good) % F.BSIZE == 0) ==> shown == r
    ensures admitted && F.Harmless(old(fs.S()), ip, off, src, good) ==> Kept(old(fs.S()), ip, src, off, r, shown)
    ensures admitted && r != -1 && Kept(old(fs.S()), ip, src, off, r, shown) ==>
              F.Content(fs.S(), ip) == F.Spliced(old(F.Content(fs.S(), ip)), off, src[..r])
    ensures admitted ==> (Has(l, log.View().current, fs.S()) <==> Kept(old(fs.S()), ip, src, off, r, shown))
    ensures admitted && log.sys.ops == [] ==>
              (Has(l, log.View().durable, fs.S()) <==> Kept(old(fs.S()), ip, src, off, r, shown))
    ensures admitted && Kept(old(fs.S()), ip, src, off, r, shown) ==>
              OldOrNew(l, log.init, log.acts, |old(log.acts)|, fs.S())
  {
    hide Has, LayoutOk, W.Inv, W.Reaches, F.Ok, F.SizesOk, F.Covers, F.InFs, F.Names, OldOrNew, F.Full, F.Stopped,
         F.AllLogged, F.Harmless, F.Unlogged, Behind, Admits, OthersStay, F.Shown, F.Spliced, F.Ref, F.DataSlot,
         F.DataByte, F.Content, W.LogDevice.Valid, W.LogDevice.View;
    r, shown := 0, 0;
    AllSized(fs.S(), ip);
    admitted := Begin(log);
    if !admitted {
      return;
    }
    ghost var s, op := fs.S(), |log.sys.ops| - 1;
    var names;
    r, shown, names := fs.Writei(ip, src, off, good);
    AllSized(fs.S(), ip);
    OthersStayed(s, fs.S(), ip);
    ShapeKept(l, s, fs.S());
    ChunkFits(off, |src|);
    ghost var kept := Kept(s, ip, src, off, r, shown);
    if r == -1 {
      F.CoversRefl(s, -1);
    } else {
      F.HarmlessLogged(s, fs.S(), ip, off, src, good, r, shown);
      if kept {
        F.LoggedShows(s, ip, off, src, r, shown);
      } else {
        UnloggedBehind(l, log.View().current, s, fs.S(), F.Ref(s, F.DataSlot(ip, (off + r) / F.BSIZE)), names);
      }
    }
    Conclude(log, op, l, |old(log.acts)|, s, fs, names, kept);
  }

  /** begin_op, by begin_op's guards as they were. */
  method Begin(log: W.LogDevice) returns (admitted: bool)
    requires log.Valid() && log.sys.Up()
    modifies log`outstanding, log`acts, log`sys
    ensures log.Valid() && log.View() == old(log.View())
    ensures admitted <==> Admits(old(log.committing), old(log.n), old(log.outstanding))
    ensures if admitted then log.sys.ops == old(log.sys.ops) + [{}] else log.sys.ops == old(log.sys.ops)
    ensures log.acts == if admitted then old(log.acts) + [W.Act.BeginOp] else old(log.acts)
    ensures admitted ==> log.sys.Up() && log.outstanding == old(log.outstanding) + 1
  {
    hide W.Inv, W.Reaches;
    admitted := log.BeginOp();
  }

  datatype Job = Job(ip: int, src: seq<int>, off: int, good: nat)

  /** The copy fails, if at all, between blocks. */
  predicate Clean(j: Job) {
    j.good >= |j.src| || j.good == 0 || (j.off + j.good) % F.BSIZE == 0
  }

  ghost predicate JobOk(j: Job, s: F.Fs) {
    && 0 <= j.ip < |s.inodes| && 0 <= j.off < F.UINT && |j.src| <= MAXWRITE
    && forall i :: 0 <= i < |j.src| ==> 0 <= j.src[i] < 256
  }

  /** writei of a job, and what it will log. */
  method Change(fs: F.FileSystem, l: Layout, j: Job) returns (r: int, names: seq<F.Home>)
    requires F.Ok(fs.S(), {}, 0, 0) && F.SizesOk(fs.S()) && LayoutOk(l, fs.S()) && JobOk(j, fs.S())
    modifies fs
    ensures F.Ok(fs.S(), {}, 0, 0) && F.SizesOk(fs.S()) && LayoutOk(l, fs.S())
    ensures fs.S().nmeta == old(fs.S()).nmeta && fs.S().size == old(fs.S()).size
    ensures |fs.inodes| == |old(fs.inodes)|
    ensures OthersStay(old(fs.S()), fs.S(), j.ip) && WroteJob(old(fs.S()), fs.S(), j, r)
    ensures Clean(j) ==> F.Covers(old(fs.S()), fs.S(), names, -1)
    ensures Bounded(names) && forall x :: x in names ==> F.InFs(fs.S(), x)
  {
    hide LayoutOk, F.Ok, F.SizesOk, F.Covers, F.InFs, F.Names, F.Full, F.Stopped, F.AllLogged, F.Harmless, F.Unlogged,
         OthersStay, F.Ref, F.DataSlot, F.DataByte, F.Content, F.Shown, F.Spliced;
    ghost var s := fs.S();
    AllSized(s, j.ip);
    F.CoversRefl(s, -1);
    ghost var shown;
    r, shown, names := fs.Writei(j.ip, j.src, j.off, j.good);
    AllSized(fs.S(), j.ip);
    OthersStayed(s, fs.S(), j.ip);
    ShapeKept(l, s, fs.S());
    ChunkFits(j.off, |j.src|);
    if r != -1 {
      F.HarmlessLogged(s, fs.S(), j.ip, j.off, j.src, j.good, r, shown);
      if F.AllLogged(s, j.ip, j.off, j.src, r, shown) {
        F.LoggedShows(s, j.ip, j.off, j.src, r, shown);
      }
    }
  }

  /** What a job has done to its file, if the copy did not fail within a block. */
  ghost predicate WroteJob(s: F.Fs, t: F.Fs, j: Job, r: int) {
    && |t.inodes| == |s.inodes| && 0 <= j.ip < |s.inodes| && 0 <= j.off
    && 0 <= s.inodes[j.ip].size && 0 <= t.inodes[j.ip].size
    && (r == -1 <==> j.off > s.inodes[j.ip].size || j.off + |j.src| > F.MAXFILE * F.BSIZE)
    && (r == -1 ==> t == s)
    && (r != -1 ==> 0 <= r <= |j.src| && (r < |j.src| ==> F.Full(t) || j.good < |j.src|))
    && (r != -1 && (!F.Full(t) || j.off + |j.src| <= s.inodes[j.ip].size) ==> r == F.Whole(j.off, |j.src|, j.good))
    && (r != -1 && Clean(j) ==> F.Content(t, j.ip) == F.Spliced(F.Content(s, j.ip), j.off, j.src[..r]))
  }

  /** Two operations have logged the first i blocks of na and the first j of nb. What is
      in na and not in nb by then is as in t. */
  ghost predicate Progress(l: Layout, acts: seq<W.Act>, n: nat, t: F.Fs, na: seq<F.Home>, i: nat, nb: seq<F.Home>,
                           j: nat)
    requires i <= |na| && j <= |nb|
  {
    && Logging(acts, n)
    && (forall q :: n <= q < |acts| && acts[q].LogWrite? ==> acts[q].b in Places(l, na + nb))
    && (forall x {:trigger LastLogged(l, acts, n, t, x)} ::
          (x in na[..i] && x !in nb) || x in nb[..j] ==> LastLogged(l, acts, n, t, x))
  }

  lemma ProgressStart(l: Layout, acts: seq<W.Act>, n: nat, t: F.Fs, na: seq<F.Home>, nb: seq<F.Home>)
    requires n <= |acts| && forall q :: n <= q < |acts| ==> acts[q].BeginOp?
    ensures Progress(l, acts, n, t, na, 0, nb, 0)
  {
  }

  lemma ProgressNext(l: Layout, acts: seq<W.Act>, a: W.Act, n: nat, t: F.Fs, na: seq<F.Home>, i: nat,
                     nb: seq<F.Home>, j: nat, first: bool)
    requires i <= |na| && j <= |nb| && Progress(l, acts, n, t, na, i, nb, j) && LayoutOk(l, t)
    requires if first then i < |na| else j < |nb|
    requires forall x :: x in na || x in nb ==> F.InFs(t, x)
    requires a.LogWrite? && var y := if first then na[i] else nb[j]; a.b == Place(l, y) && a.data == Enc(t, y)
    ensures if first then Progress(l, acts + [a], n, t, na, i + 1, nb, j)
            else Progress(l, acts + [a], n, t, na, i, nb, j + 1)
  {
    hide Place, Enc, LayoutOk, F.InFs, LastLogged;
    var y := if first then na[i] else nb[j];
    forall x | x == y || (x in na[..i] && x !in nb) || x in nb[..j] ensures LastLogged(l, acts + [a], n, t, x) {
      assert x in na || x in nb;
      LastNext(l, acts, a, n, t, x, y);
    }
    assert y in na + nb;
    if first {
      assert na[..i + 1] == na[..i] + [y];
    } else {
      assert nb[..j + 1] == nb[..j] + [y];
    }
  }

  /** The second operation's change comes when the first has logged i of its blocks. */
  lemma ProgressOn(l: Layout, acts: seq<W.Act>, n: nat, s: F.Fs, t: F.Fs, na: seq<F.Home>, i: nat, nb: seq<F.Home>)
    requires i <= |na| && Progress(l, acts, n, s, na, i, [], 0) && F.Covers(s, t, nb, -1)
    requires forall x :: x in na ==> F.InFs(t, x)
    ensures Progress(l, acts, n, t, na, i, nb, 0)
  {
    hide F.Covers, F.InFs, LastLogged, Place;
    forall x | x in na[..i] && x !in nb ensures LastLogged(l, acts, n, t, x) {
      assert x in na;
      LastElsewhere(l, acts, n, s, t, nb, x);
    }
    forall q | n <= q < |acts| && acts[q].LogWrite? ensures acts[q].b in Places(l, na + nb) {
      assert na + [] == na;
      assert forall x :: x in na ==> x in na + nb;
    }
  }

  lemma ProgressDone(l: Layout, acts: seq<W.Act>, n: nat, t: F.Fs, na: seq<F.Home>, nb: seq<F.Home>)
    requires Progress(l, acts, n, t, na, |na|, nb, |nb|)
    ensures Group(l, acts, n, t, na + nb)
  {
    hide LastLogged, Places;
    assert na[..|na|] == na && nb[..|nb|] == nb;
  }

  /** log_writes of two operations in any order: those of na from i to upto, all of nb. */
  method LogTurns(log: W.LogDevice, ghost op: nat, l: Layout, ghost n: nat, t: F.Fs, na: seq<F.Home>, from: nat,
                  upto: nat, nb: seq<F.Home>, order: seq<bool>, ghost whole: bool)
    requires log.Valid() && log.g == l.g && l.g.size > W.LOGSIZE && LayoutOk(l, t) && from <= upto <= |na|
    requires (forall x :: x in na || x in nb ==> F.InFs(t, x)) && Bounded(na) && Bounded(nb)
    requires op + 1 < |log.sys.ops| && log.sys.ops[op] == Places(l, na[..from]) && log.sys.ops[op + 1] == {}
    requires whole ==> Progress(l, log.acts, n, t, na, from, nb, 0)
    modifies log`mem, log`n, log`acts, log`sys, log.block
    ensures log.Valid() && old(log.acts) <= log.acts && (whole ==> Progress(l, log.acts, n, t, na, upto, nb, |nb|))
    ensures |log.sys.ops| == |old(log.sys.ops)| && log.sys.ops[op] == Places(l, na[..upto])
    ensures log.sys.ops[op + 1] == Places(l, nb)
    ensures log.sys.ops[..op] == old(log.sys.ops[..op]) && log.sys.ops[op + 2..] == old(log.sys.ops[op + 2..])
  {
    hide Enc, LayoutOk, Place, F.InFs, Places, W.Inv, W.Reaches, Progress, Bounded, LastLogged;
    var i, j, k := from, 0, 0;
    NoPlaces(l);
    while i < upto || j < |nb|
      invariant log.Valid() && old(log.acts) <= log.acts && from <= i <= upto && 0 <= j <= |nb| && 0 <= k
      invariant whole ==> Progress(l, log.acts, n, t, na, i, nb, j)
      invariant |log.sys.ops| == |old(log.sys.ops)| && log.sys.ops[op] == Places(l, na[..i])
      invariant log.sys.ops[op + 1] == Places(l, nb[..j])
      invariant log.sys.ops[..op] == old(log.sys.ops[..op]) && log.sys.ops[op + 2..] == old(log.sys.ops[op + 2..])
      decreases upto - i + |nb| - j
    {
      ghost var before := log.acts;
      if i < upto && (j == |nb| || (k < |order| && order[k])) {
        LogOne(log, op, l, t, na, i);
        if whole {
          ProgressNext(l, before, log.acts[|before|], n, t, na, i, nb, j, true);
        }
        i := i + 1;
      } else {
        LogOne(log, op + 1, l, t, nb, j);
        if whole {
          ProgressNext(l, before, log.acts[|before|], n, t, na, i, nb, j, false);
        }
        j := j + 1;
      }
      k := k + 1;
    }
    assert nb[..|nb|] == nb;
  }

  /** What two jobs on different files have done: the second is told from u, the state in
      between. */
  ghost predicate WroteBoth(s: F.Fs, u: F.Fs, t: F.Fs, a: Job, b: Job, ra: int, rb: int) {
    WroteJob(s, u, a, ra) && OthersStay(s, u, a.ip) && WroteJob(u, t, b, rb) && OthersStay(u, t, b.ip)
  }

  /** In terms of the first and last state alone: each file is as its job wrote it, and all
      others are as they were. */
  ghost predicate BothWritten(s: F.Fs, t: F.Fs, a: Job, b: Job, ra: int, rb: int) {
    && FileWritten(s, t, a, ra) && FileWritten(s, t, b, rb) && |t.inodes| == |s.inodes|
    && forall q {:trigger s.inodes[q]} {:trigger t.inodes[q]} :: 0 <= q < |s.inodes| && q != a.ip && q != b.ip ==>
         0 <= s.inodes[q].size && 0 <= t.inodes[q].size && F.Content(t, q) == F.Content(s, q)
  }

  ghost predicate FileWritten(s: F.Fs, t: F.Fs, j: Job, r: int) {
    && 0 <= j.ip < |s.inodes| && j.ip < |t.inodes| && 0 <= j.off
    && 0 <= s.inodes[j.ip].size && 0 <= t.inodes[j.ip].size
    && (r == -1 <==> j.off > s.inodes[j.ip].size || j.off + |j.src| > F.MAXFILE * F.BSIZE)
    && (r == -1 ==> F.Content(t, j.ip) == F.Content(s, j.ip))
    && (r != -1 && Clean(j) ==>
          0 <= r <= |j.src| && F.Content(t, j.ip) == F.Spliced(F.Content(s, j.ip), j.off, j.src[..r]))
  }

  lemma BothFiles(s: F.Fs, u: F.Fs, t: F.Fs, a: Job, b: Job, ra: int, rb: int)
    requires WroteBoth(s, u, t, a, b, ra, rb) && a.ip != b.ip
    ensures BothWritten(s, t, a, b, ra, rb)
  {
    hide F.DataByte, F.Full, F.Spliced;
    assert u.inodes[a.ip].size == |F.Content(u, a.ip)| && s.inodes[b.ip].size == |F.Content(s, b.ip)|;
    assert u.inodes[b.ip].size == |F.Content(u, b.ip)|;
    forall q | 0 <= q < |s.inodes| && q != a.ip && q != b.ip
      ensures 0 <= s.inodes[q].size && 0 <= t.inodes[q].size && F.Content(t, q) == F.Content(s, q)
    {
      assert 0 <= u.inodes[q].size;
    }
  }

  lemma PlainCovers2(s: F.Fs, t: F.Fs, names: seq<F.Home>)
    requires F.Covers(s, t, names, -1)
    ensures F.Covers(Plain(s), Plain(t), names, -1)
  {
  }

  lemma JobStays(j: Job, s: F.Fs, t: F.Fs)
    requires JobOk(j, s) && |t.inodes| == |s.inodes|
    ensures JobOk(j, t)
  {
  }

  lemma NoneBounded()
    ensures Bounded([])
  {
  }

  /** The rest of the log_writes, after the second change, and what is current then. */
  method LogRest(log: W.LogDevice, ghost op: nat, l: Layout, ghost n: nat, ghost s: F.Fs, ghost u: F.Fs,
                 fs: F.FileSystem, na: seq<F.Home>, k: nat, nb: seq<F.Home>, order: seq<bool>, ghost whole: bool)
    requires log.Valid() && log.g == l.g && l.g.size > W.LOGSIZE && LayoutOk(l, fs.S()) && k <= |na|
    requires (forall x :: x in na || x in nb ==> F.InFs(fs.S(), x)) && Bounded(na) && Bounded(nb)
    requires op + 1 < |log.sys.ops| && log.sys.ops[op] == Places(l, na[..k]) && log.sys.ops[op + 1] == {}
    requires n <= |log.acts| && Has(l, Seen(l.g, log.init, log.acts[..n]).current, s)
    requires whole ==> F.Covers(s, u, na, -1) && F.Covers(u, fs.S(), nb, -1)
    requires whole ==> Progress(l, log.acts, n, Plain(u), na, k, [], 0)
    modifies log`mem, log`n, log`acts, log`sys, log.block
    ensures log.Valid() && old(log.acts) <= log.acts && |log.sys.ops| == |old(log.sys.ops)|
    ensures log.sys.ops[..op] == old(log.sys.ops[..op])
    ensures whole ==> Has(l, log.View().current, fs.S()) && Logging(log.acts, n)
  {
    hide Has, LayoutOk, W.Inv, W.Reaches, F.Covers, F.InFs, Progress, Places, Bounded, Group, Logging, Enc, Seen,
         LastLogged;
    var t := F.Fs(fs.nmeta, fs.size, fs.bits, fs.disk, fs.inodes, map[]);
    assert t == Plain(fs.S());
    PlainSame(l, log.View().current, fs.S());
    PlainIn(fs.S(), na);
    PlainIn(fs.S(), nb);
    if whole {
      PlainCovers2(u, fs.S(), nb);
      ProgressOn(l, log.acts, n, Plain(u), t, na, k, nb);
    }
    ghost var before := log.acts;
    LogTurns(log, op, l, n, t, na, k, |na|, nb, order, whole);
    if whole {
      F.CoversTrans(s, u, fs.S(), na, nb, -1);
      PlainCovers(s, fs.S(), na + nb);
      ProgressDone(l, log.acts, n, t, na, nb);
      assert log.acts[..n] == before[..n];
      ViewSize(log);
      LegalPrefix(l.g, log.init, log.acts, n);
      SeenSize(l.g, log.init, log.acts[..n]);
      GroupHas(l, log.init, log.acts, n, s, t, na + nb);
      GroupLogs(l, log.acts, n, t, na + nb);
      SeenNow(log);
      PlainSame(l, log.View().current, fs.S());
    }
  }

  lemma GroupLogs(l: Layout, acts: seq<W.Act>, n: nat, t: F.Fs, names: seq<F.Home>)
    requires Group(l, acts, n, t, names)
    ensures Logging(acts, n)
  {
  }

  lemma SeenNow(log: W.LogDevice)
    ensures Seen(log.g, log.init, log.acts) == log.View()
  {
  }

  /** begin_op, twice. */
  method BeginTwo(log: W.LogDevice, ghost l: Layout)
    requires log.Valid() && log.sys.Up() && Admits(log.committing, log.n, log.outstanding + 1)
    modifies log`outstanding, log`acts, log`sys
    ensures log.Valid() && log.View() == old(log.View())
    ensures log.sys.ops == old(log.sys.ops) + [{}, {}] && log.acts == old(log.acts) + [W.Act.BeginOp, W.Act.BeginOp]
    ensures Places(l, []) == {}
  {
    hide W.Inv, W.Reaches, Places, W.LogDevice.Valid, W.LogDevice.View;
    NoPlaces(l);
    var ok := Begin(log);
    ok := Begin(log);
  }

  /** end_op of both, in either order. */
  method EndTwo(log: W.LogDevice, ghost op: nat, l: Layout, ghost n: nat, ghost t: F.Fs, ghost lastIn: bool,
                ghost whole: bool)
    requires log.Valid() && log.g == l.g && op + 2 == |log.sys.ops| && LayoutOk(l, t)
    requires whole ==> Has(l, log.View().current, t) && Logging(log.acts, n)
    modifies log`disk, log`mem, log`n, log`outstanding, log`committing, log`acts, log`sys
    ensures log.Valid() && old(log.acts) <= log.acts && log.sys.ops == old(log.sys.ops)[..op]
    ensures whole ==>
              Has(l, log.View().current, t) && OldOrNew(l, log.init, log.acts, n, t) &&
              (log.sys.ops == [] ==> Has(l, log.View().durable, t))
  {
    hide Has, LayoutOk, W.Inv, W.Reaches, OldOrNew, Logging, W.LogDevice.Valid;
    End(log, if lastIn then op + 1 else op, l, t);
    End(log, op, l, t);
    if whole {
      LoggingUpto(old(log.acts), n);
      Together(l, log.init, old(log.acts), log.acts, n, t);
    }
  }

  lemma LoggingUpto(acts: seq<W.Act>, n: nat)
    requires Logging(acts, n)
    ensures n <= |acts|
  {
  }

  /** Two chunks on different files in one commit group: the first has logged `early` of its
      blocks when the second changes the file system, and from then on their log_writes
      come in the given order; either may end first. Both files are as written, all others
      as before, and at every step what is durable is the old file system or that with both
      writes. */
  method WriteBoth(log: W.LogDevice, fs: F.FileSystem, l: Layout, a: Job, b: Job, early: nat, order: seq<bool>,
                   lastIn: bool) returns (ra: int, rb: int, ghost u: F.Fs)
    requires log.Valid() && log.sys.Up() && log.g == l.g && l.g.size > W.LOGSIZE
    requires Admits(log.committing, log.n, log.outstanding + 1)
    requires F.Ok(fs.S(), {}, 0, 0) && F.SizesOk(fs.S()) && JobOk(a, fs.S()) && JobOk(b, fs.S()) && a.ip != b.ip
    requires LayoutOk(l, fs.S()) && Has(l, log.View().current, fs.S())
    modifies log, log.block, fs
    ensures log.Valid() && old(log.acts) <= log.acts && log.sys.ops == old(log.sys.ops)
    ensures F.Ok(fs.S(), {}, 0, 0) && F.SizesOk(fs.S()) && LayoutOk(l, fs.S())
    ensures BothWritten(old(fs.S()), fs.S(), a, b, ra, rb)
    ensures WroteBoth(old(fs.S()), u, fs.S(), a, b, ra, rb)
    ensures Clean(a) && Clean(b) ==>
              Has(l, log.View().current, fs.S()) && OldOrNew(l, log.init, log.acts, |old(log.acts)|, fs.S()) &&
              (log.sys.ops == [] ==> Has(l, log.View().durable, fs.S()))
  {
    hide Has, LayoutOk, W.Inv, W.Reaches, F.Ok, F.SizesOk, F.Covers, F.InFs, F.Names, OldOrNew, OthersStay, WroteJob,
         Progress, Places, Bounded, Group, F.Full, JobOk, Clean, Logging,
         BothWritten;
    ghost var s, n := fs.S(), |log.acts|;
    ViewSize(log);
    BeginTwo(log, l);
    ghost var op, whole := |log.sys.ops| - 2, Clean(a) && Clean(b);
    var na, nb;
    ra, na := Change(fs, l, a);
    u := fs.S();
    var t := F.Fs(fs.nmeta, fs.size, fs.bits, fs.disk, fs.inodes, map[]);
    assert t == Plain(u);
    PlainSame(l, log.View().current, u);
    PlainIn(u, na);
    NoneBounded();
    ProgressStart(l, log.acts, n, t, na, []);
    var k := if early < |na| then early else |na|;
    LogTurns(log, op, l, n, t, na, 0, k, [], [], true);
    JobStays(b, s, u);
    rb, nb := Change(fs, l, b);
    BothFiles(s, u, fs.S(), a, b, ra, rb);
    F.StillIn(u, fs.S(), na);
    assert log.acts[..n] == old(log.acts);
    LogRest(log, op, l, n, s, u, fs, na, k, nb, order, whole);
    EndTwo(log, op, l, n, fs.S(), lastIn, whole);
  }

  lemma UnloggedBehind(l: Layout, d: W.Disk, s: F.Fs, t: F.Fs, b: int, names: seq<F.Home>)
    requires Has(l, d, s) && F.Unlogged(s, t, b, names) && t.nmeta == s.nmeta && t.size == s.size
    ensures Behind(l, d, t, names, F.Data(b))
  {
    assert HasAt(l, d, s, F.Data(b));
  }

  /** itrunc as a transaction. It fits its share exactly if the file's blocks lie under
      fewer than MAXOPBLOCKS bitmap blocks (TruncFitsIff). */
  method Truncate(log: W.LogDevice, fs: F.FileSystem, l: Layout, ip: int) returns (admitted: bool)
    requires log.Valid() && log.sys.Up() && log.g == l.g && l.g.size > W.LOGSIZE
    requires F.Ok(fs.S(), {}, 0, 0) && F.SizesOk(fs.S()) && 0 <= ip < |fs.inodes|
    requires LayoutOk(l, fs.S()) && Has(l, log.View().current, fs.S())
    requires |F.FileMaps(fs.S(), ip)| < W.MAXOPBLOCKS
    modifies log, log.block, fs
    ensures log.Valid() && F.Ok(fs.S(), {}, 0, 0) && F.SizesOk(fs.S()) && LayoutOk(l, fs.S())
    ensures admitted <==> Admits(old(log.committing), old(log.n), old(log.outstanding))
    ensures old(log.acts) <= log.acts && (!admitted ==> log.acts == old(log.acts) && fs.S() == old(fs.S()))
    ensures log.sys.ops == old(log.sys.ops)
    ensures |fs.inodes| == |old(fs.inodes)| && OthersStay(old(fs.S()), fs.S(), ip)
    ensures admitted ==> F.Content(fs.S(), ip) == []
    ensures admitted ==> Has(l, log.View().current, fs.S())
    ensures admitted ==> OldOrNew(l, log.init, log.acts, |old(log.acts)|, fs.S())
    ensures admitted && log.sys.ops == [] ==> Has(l, log.View().durable, fs.S())
  {
    hide Has, LayoutOk, W.Inv, W.Reaches, F.Ok, F.SizesOk, F.Covers, F.Names, F.InFs, OldOrNew, F.FileMaps, Behind,
         Admits, OthersStay, F.Bit, F.Ref, F.DataByte, F.Content, F.IsBitmap, W.LogDevice.Valid, W.LogDevice.View;
    AllSized(fs.S(), ip);
    admitted := Begin(log);
    if !admitted {
      return;
    }
    ghost var s, op := fs.S(), |log.sys.ops| - 1;
    var names := fs.Itrunc(ip);
    AllSized(fs.S(), ip);
    OthersStayed(s, fs.S(), ip);
    ShapeKept(l, s, fs.S());
    TruncIn(fs.S(), ip, names);
    Conclude(log, op, l, |old(log.acts)|, s, fs, names, true);
  }

  /** No file is too scattered if there are fewer than MAXOPBLOCKS bitmap blocks at all. */
  lemma TruncFits(s: F.Fs, ip: int)
    requires F.Ok(s, {}, 0, 0) && (s.size - 1) / F.BPB + 1 < W.MAXOPBLOCKS
    ensures |F.FileMaps(s, ip)| < W.MAXOPBLOCKS
  {
    hide F.Ref;
    forall x | x in F.FileMaps(s, ip) ensures F.IsBitmap(x, s.size) {
      var k :| 0 <= k < F.MAXFILE + 1 && F.Ref(s, F.Slot(ip, k)) != 0 &&
               x == F.Bitmap(F.Ref(s, F.Slot(ip, k)) / F.BPB);
      assert F.Owns(s, F.Ref(s, F.Slot(ip, k)), F.Slot(ip, k));
    }
    assert 0 < s.size;
    FewBitmaps(s.size, F.FileMaps(s, ip));
  }

  /** On a disk as large as param.h allows one can be: its truncation logs more blocks than
      begin_op has kept for it. */
  lemma TruncCanExceed()
    ensures var s := F.ScatteredFs();
            F.Ok(s, {}, 0, 0) && F.SizesOk(s) && s.size == 200000 && |s.inodes| == 1 &&
            |F.FileMaps(s, 0)| >= W.MAXOPBLOCKS
  {
    F.ScatteredOk();
  }

  lemma TruncIn(s: F.Fs, ip: int, names: seq<F.Home>)
    requires names != [] && names[|names| - 1] == F.InodeOf(ip / F.IPB) && F.InFs(s, F.InodeOf(ip / F.IPB))
    requires forall x :: x in names[..|names| - 1] ==> F.IsBitmap(x, s.size)
    ensures forall x :: x in names ==> F.InFs(s, x)
  {
    forall x | x in names ensures F.InFs(s, x) {
      var i :| 0 <= i < |names| && names[i] == x;
      if i < |names| - 1 {
        var rest := names[..|names| - 1];
        assert rest[i] == x;
        assert x in rest && F.IsBitmap(x, s.size);
      }
    }
  }

  lemma ShapeKept(l: Layout, s: F.Fs, t: F.Fs)
    requires LayoutOk(l, s) && t.nmeta == s.nmeta && t.size == s.size && |t.inodes| == |s.inodes|
    ensures LayoutOk(l, t)
  {
  }

  lemma PlainIn(s: F.Fs, names: seq<F.Home>)
    requires forall x :: x in names ==> F.InFs(s, x)
    ensures forall x :: x in names ==> F.InFs(Plain(s), x)
  {
  }
}
