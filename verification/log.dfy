// The xv6 write-ahead log (CLab/xv6/kernel/log.c) over a disk whose single-block
// writes are atomic.
//
// Part 1 is a state machine: any number of file-system operations, the
// commit one block write at a time, a crash between any two steps, and recovery.
// Part 2 is the code: a class whose methods run the loops of log.c and leave
// behind the steps of the machine they took.

module WriteAheadLog {
  const MAXOPBLOCKS := 10
  const LOGSIZE := 3 * MAXOPBLOCKS
  const WORDS := 256 // BSIZE / sizeof(int)

  type Block = seq<int>
  type Disk = seq<Block>

  /** Where the log lies: the header at `start`, slots in the rest of the region. */
  datatype Geometry = Geometry(nblocks: nat, start: nat, size: nat) {
    predicate Valid() {
      1 <= size && start + size <= nblocks
    }

    /** A block outside the log region. */
    predicate Home(b: int) {
      0 <= b < nblocks && !(start <= b < start + size)
    }

    function Slot(i: nat): nat {
      start + 1 + i
    }
  }

  predicate Distinct(bs: seq<int>) {
    forall i, j :: 0 <= i < j < |bs| ==> bs[i] != bs[j]
  }

  /** A list of block numbers that the header block can hold. */
  predicate ValidList(g: Geometry, bs: seq<int>) {
    && |bs| <= LOGSIZE && |bs| <= g.size - 1
    && Distinct(bs)
    && forall i :: 0 <= i < |bs| ==> g.Home(bs[i])
  }

  predicate ValidHeader(g: Geometry, h: Block) {
    |h| == WORDS && 0 <= h[0] <= LOGSIZE && ValidList(g, h[1..1 + h[0]])
  }

  function HeadList(h: Block): seq<int>
    requires |h| == WORDS && 0 <= h[0] <= LOGSIZE
  {
    h[1..1 + h[0]]
  }

  /** The header block after write_head: words past the list keep their old values. */
  function WithHead(h: Block, bs: seq<int>): (r: Block)
    requires |h| == WORDS && |bs| <= LOGSIZE
    ensures |r| == WORDS && r[0] == |bs| && HeadList(r) == bs
  {
    [|bs|] + bs + h[1 + |bs|..]
  }

  /** The position of b in bs, or -1. */
  function Index(bs: seq<int>, b: int): (i: int)
    ensures -1 <= i < |bs|
    ensures i >= 0 ==> bs[i] == b
    ensures i < 0 ==> b !in bs
  {
    if bs == [] then -1
    else if bs[|bs| - 1] == b then |bs| - 1
    else Index(bs[..|bs| - 1], b)
  }

  predicate SameHome(g: Geometry, d: Disk, e: Disk) {
    && |d| == |e| == g.nblocks
    && forall b :: 0 <= b < g.nblocks && g.Home(b) ==> d[b] == e[b]
  }

  /** What the disk means: the home blocks once the log has been replayed. */
  function Recovered(g: Geometry, d: Disk): (r: Disk)
    requires g.Valid() && |d| == g.nblocks && ValidHeader(g, d[g.start])
    ensures |r| == g.nblocks
  {
    seq(g.nblocks, b requires 0 <= b < g.nblocks =>
      var i := Index(HeadList(d[g.start]), b);
      if i >= 0 then d[g.Slot(i)] else d[b])
  }

  // ---------------------------------------------------------------- state machine

  /** Where the one thread that may commit or recover stands. */
  datatype Phase =
    | Booting
    | Running
    | Logging(tail: nat)
    | Installing(tail: nat, recovering: bool)
    | Unlocking

  /** disk: what survives a crash. mem: what bread returns. lh: the in-memory header.
      ops: for each operation in progress, the distinct blocks it has logged. */
  datatype Sys = Sys(disk: Disk, mem: Disk, lh: seq<int>, ops: seq<set<int>>,
                     committing: bool, phase: Phase)
  {
    predicate Up() {
      phase != Booting && !(phase.Installing? && phase.recovering)
    }
  }

  datatype Act =
    | BeginOp
    | LogWrite(op: nat, b: int, data: Block)
    | EndOp(op: nat)
    | LogBlock
    | WriteHead
    | InstallBlock
    | ClearHead
    | Unlock
    | Crash
    | ReadHead

  predicate Panics(g: Geometry, s: Sys) {
    |s.lh| >= LOGSIZE || |s.lh| >= g.size - 1
  }

  predicate Enabled(g: Geometry, s: Sys, a: Act)
    requires Inv(g, s)
  {
    match a
    case BeginOp =>
      s.phase.Running? && !s.committing && |s.lh| + (|s.ops| + 1) * MAXOPBLOCKS <= LOGSIZE
    case LogWrite(op, b, _) =>
      && s.phase.Running? && op < |s.ops| && g.Home(b)
      && (b in s.ops[op] || |s.ops[op]| < MAXOPBLOCKS)
      && !Panics(g, s)
    case EndOp(op) => s.phase.Running? && op < |s.ops|
    case LogBlock => s.phase.Logging? && s.phase.tail < |s.lh|
    case WriteHead => s.phase.Logging? && s.phase.tail == |s.lh|
    case InstallBlock => s.phase.Installing? && s.phase.tail < |s.lh|
    case ClearHead => s.phase.Installing? && s.phase.tail == |s.lh|
    case Unlock => s.phase.Unlocking?
    case Crash => true
    case ReadHead => s.phase.Booting?
  }

  /** bwrite of contents x to block b: memory and disk then agree on it. */
  function Bwrite(s: Sys, b: nat, x: Block): Sys
    requires b < |s.disk| && b < |s.mem|
  {
    s.(disk := s.disk[b := x], mem := s.mem[b := x])
  }

  function Apply(g: Geometry, s: Sys, a: Act): Sys
    requires Inv(g, s) && Enabled(g, s, a)
  {
    match a
    case BeginOp => s.(ops := s.ops + [{}])
    case LogWrite(op, b, data) =>
      s.(mem := s.mem[b := data],
         lh := if b in s.lh then s.lh else s.lh + [b],
         ops := s.ops[op := s.ops[op] + {b}])
    case EndOp(op) =>
      var rest := s.ops[..op] + s.ops[op + 1..];
      if rest != [] then s.(ops := rest)
      else s.(ops := [], committing := true,
              phase := if |s.lh| > 0 then Logging(0) else Unlocking)
    case LogBlock =>
      Bwrite(s, g.Slot(s.phase.tail), s.mem[s.lh[s.phase.tail]]).(phase := Logging(s.phase.tail + 1))
    case WriteHead =>
      Bwrite(s, g.start, WithHead(s.mem[g.start], s.lh)).(phase := Installing(0, false))
    case InstallBlock =>
      Bwrite(s, s.lh[s.phase.tail], s.mem[g.Slot(s.phase.tail)]).(
        phase := Installing(s.phase.tail + 1, s.phase.recovering))
    case ClearHead =>
      Bwrite(s, g.start, WithHead(s.mem[g.start], [])).(
        lh := [], phase := if s.phase.recovering then Running else Unlocking)
    case Unlock => s.(committing := false, phase := Running)
    case Crash => Sys(s.disk, s.disk, [], [], false, Booting)
    case ReadHead => s.(lh := HeadList(s.mem[g.start]), phase := Installing(0, true))
  }

  /** Blocks that the active operations may still log. */
  function Budget(ops: seq<set<int>>): int {
    if ops == [] then 0 else MAXOPBLOCKS - |ops[0]| + Budget(ops[1..])
  }

  /** Slots [0, k) of the log hold the contents that list entries [0, k) have in memory. */
  predicate Logged(g: Geometry, s: Sys, k: nat) {
    && k <= |s.lh| < g.size && |s.disk| == |s.mem| == g.nblocks && g.Valid()
    && (forall i :: 0 <= i < |s.lh| ==> g.Home(s.lh[i]))
    && forall i :: 0 <= i < k ==> s.disk[g.Slot(i)] == s.mem[s.lh[i]]
  }

  /** List entries [0, k) already have their slot's contents at home. */
  predicate Installed(g: Geometry, s: Sys, k: nat) {
    && k <= |s.lh| < g.size && |s.disk| == |s.mem| == g.nblocks && g.Valid()
    && (forall i :: 0 <= i < |s.lh| ==> g.Home(s.lh[i]))
    && forall i :: 0 <= i < k ==> s.disk[s.lh[i]] == s.mem[s.lh[i]] == s.disk[g.Slot(i)]
  }

  predicate Inv(g: Geometry, s: Sys) {
    && g.Valid() && |s.disk| == |s.mem| == g.nblocks
    && ValidList(g, s.lh)
    && ValidHeader(g, s.disk[g.start])
    // operations run only while nothing commits, within their budgets
    && (s.ops != [] ==> s.phase.Running?)
    && (forall i :: 0 <= i < |s.ops| ==>
          |s.ops[i]| <= MAXOPBLOCKS && forall b :: b in s.ops[i] ==> b in s.lh)
    && |s.lh| + Budget(s.ops) <= LOGSIZE
    && (s.committing <==> s.phase.Logging? || s.phase.Unlocking?
                          || (s.phase.Installing? && !s.phase.recovering))
    // memory differs from disk only on logged blocks
    && (forall b {:trigger s.mem[b]} :: 0 <= b < g.nblocks && b !in s.lh ==> s.mem[b] == s.disk[b])
    // what the header on disk says in each phase
    && (s.phase.Running? || s.phase.Logging? || s.phase.Unlocking? ==> s.disk[g.start][0] == 0)
    && (s.phase.Running? && s.ops == [] ==> s.lh == [])
    && (s.phase.Booting? || s.phase.Unlocking? ==> s.lh == [])
    && (s.phase.Logging? ==> Logged(g, s, s.phase.tail))
    && (s.phase.Installing? ==>
          && HeadList(s.disk[g.start]) == s.lh
          && Installed(g, s, s.phase.tail)
          && (if s.phase.recovering then s.mem == s.disk else Logged(g, s, |s.lh|)))
  }

  /** A freshly made file system: the log is empty and nothing is in progress. */
  predicate Fresh(g: Geometry, s: Sys) {
    && Inv(g, s) && s.phase.Running? && s.ops == [] && s.lh == []
  }

  // ------------------------------------------------------------------- budgets

  lemma {:induction false} BudgetUpdate(ops: seq<set<int>>, i: nat, s: set<int>)
    requires i < |ops|
    ensures Budget(ops[i := s]) == Budget(ops) + |ops[i]| - |s|
  {
    if i > 0 {
      BudgetUpdate(ops[1..], i - 1, s);
      assert ops[i := s][1..] == ops[1..][i - 1 := s];
    } else {
      assert ops[i := s][1..] == ops[1..];
    }
  }

  lemma {:induction false} BudgetRemove(ops: seq<set<int>>, i: nat)
    requires i < |ops|
    ensures Budget(ops[..i] + ops[i + 1..]) == Budget(ops) + |ops[i]| - MAXOPBLOCKS
  {
    var rest := ops[..i] + ops[i + 1..];
    if i > 0 {
      BudgetRemove(ops[1..], i - 1);
      assert rest[1..] == ops[1..][..i - 1] + ops[1..][i..];
    } else {
      assert rest == ops[1..];
    }
  }

  lemma {:induction false} BudgetAppend(ops: seq<set<int>>)
    ensures Budget(ops + [{}]) == Budget(ops) + MAXOPBLOCKS
  {
    if ops != [] {
      BudgetAppend(ops[1..]);
      assert (ops + [{}])[1..] == ops[1..] + [{}];
    }
  }

  lemma {:induction false} BudgetBounds(ops: seq<set<int>>, i: nat)
    requires forall k :: 0 <= k < |ops| ==> |ops[k]| <= MAXOPBLOCKS
    ensures 0 <= Budget(ops) <= |ops| * MAXOPBLOCKS
    ensures i < |ops| ==> MAXOPBLOCKS - |ops[i]| <= Budget(ops)
  {
    if ops != [] {
      BudgetBounds(ops[1..], if i > 0 then i - 1 else 0);
    }
  }

  // ------------------------------------------------------------ every step keeps Inv

  lemma BeginOpInv(g: Geometry, s: Sys)
    requires Inv(g, s) && Enabled(g, s, BeginOp)
    ensures Inv(g, Apply(g, s, BeginOp))
  {
    BudgetAppend(s.ops);
    BudgetBounds(s.ops, 0);
  }

  lemma LogWriteInv(g: Geometry, s: Sys, op: nat, b: int, data: Block)
    requires Inv(g, s) && Enabled(g, s, LogWrite(op, b, data))
    ensures Inv(g, Apply(g, s, LogWrite(op, b, data)))
  {
    hide ValidHeader;
    BudgetUpdate(s.ops, op, s.ops[op] + {b});
    BudgetBounds(s.ops, op);
    if b in s.ops[op] {
      assert s.ops[op] + {b} == s.ops[op];
    } else {
      assert |s.ops[op] + {b}| == |s.ops[op]| + 1;
    }
  }

  lemma LeavingKeepsLogged(ops: seq<set<int>>, lh: seq<int>, op: nat)
    requires op < |ops|
    requires forall i :: 0 <= i < |ops| ==> |ops[i]| <= MAXOPBLOCKS && forall b :: b in ops[i] ==> b in lh
    ensures var rest := ops[..op] + ops[op + 1..];
      forall i :: 0 <= i < |rest| ==> |rest[i]| <= MAXOPBLOCKS && forall b :: b in rest[i] ==> b in lh
  {
    var rest := ops[..op] + ops[op + 1..];
    assert forall i :: 0 <= i < |rest| ==> rest[i] == if i < op then ops[i] else ops[i + 1];
  }

  lemma EndOpInv(g: Geometry, s: Sys, op: nat)
    requires Inv(g, s) && Enabled(g, s, EndOp(op)) && |s.ops| > 1
    ensures Inv(g, Apply(g, s, EndOp(op)))
  {
    BudgetRemove(s.ops, op);
    BudgetBounds(s.ops, op);
    LeavingKeepsLogged(s.ops, s.lh, op);
  }

  lemma EndLastOpInv(g: Geometry, s: Sys)
    requires Inv(g, s) && Enabled(g, s, EndOp(0)) && |s.ops| == 1
    ensures Inv(g, Apply(g, s, EndOp(0)))
  {
    assert s.ops[..0] + s.ops[1..] == [];
  }

  lemma LogBlockInv(g: Geometry, s: Sys)
    requires Inv(g, s) && Enabled(g, s, LogBlock)
    ensures Inv(g, Apply(g, s, LogBlock))
  {
  }

  lemma WriteHeadInv(g: Geometry, s: Sys)
    requires Inv(g, s) && Enabled(g, s, WriteHead)
    ensures Inv(g, Apply(g, s, WriteHead))
  {
  }

  lemma InstallBlockInv(g: Geometry, s: Sys)
    requires Inv(g, s) && Enabled(g, s, InstallBlock)
    ensures Inv(g, Apply(g, s, InstallBlock))
  {
    hide ValidHeader;
    var s' := Apply(g, s, InstallBlock);
    assert s'.disk[g.start] == s.disk[g.start];
    assert forall i :: 0 <= i < |s.lh| ==> s'.disk[g.Slot(i)] == s.disk[g.Slot(i)];
  }

  lemma ClearHeadInv(g: Geometry, s: Sys)
    requires Inv(g, s) && Enabled(g, s, ClearHead)
    ensures Inv(g, Apply(g, s, ClearHead))
  {
  }

  lemma StepInv(g: Geometry, s: Sys, a: Act)
    requires Inv(g, s) && Enabled(g, s, a)
    ensures Inv(g, Apply(g, s, a))
  {
    match a
    case LogBlock => LogBlockInv(g, s);
    case WriteHead => WriteHeadInv(g, s);
    case InstallBlock => InstallBlockInv(g, s);
    case ClearHead => ClearHeadInv(g, s);
    case BeginOp => BeginOpInv(g, s);
    case LogWrite(op, b, data) => LogWriteInv(g, s, op, b, data);
    case EndOp(op) => if |s.ops| == 1 { EndLastOpInv(g, s); } else { EndOpInv(g, s, op); }
    case _ =>
  }

  // ------------------------------------------------------------------------- runs

  ghost predicate Legal(g: Geometry, s: Sys, acts: seq<Act>)
    requires Inv(g, s)
    decreases |acts|, 0
  {
    acts == [] ||
    var before := acts[..|acts| - 1];
    Legal(g, s, before) && Enabled(g, Exec(g, s, before), acts[|acts| - 1])
  }

  /** The state after a run. That it satisfies Inv is the safety of every run. */
  ghost function Exec(g: Geometry, s: Sys, acts: seq<Act>): (r: Sys)
    requires Inv(g, s) && Legal(g, s, acts)
    ensures Inv(g, r)
    decreases |acts|, 1
  {
    if acts == [] then s
    else
      var last := Exec(g, s, acts[..|acts| - 1]);
      StepInv(g, last, acts[|acts| - 1]);
      Apply(g, last, acts[|acts| - 1])
  }

  lemma ExecSnoc(g: Geometry, s: Sys, acts: seq<Act>, a: Act)
    requires Inv(g, s) && Legal(g, s, acts) && Enabled(g, Exec(g, s, acts), a)
    ensures Legal(g, s, acts + [a])
    ensures Exec(g, s, acts + [a]) == Apply(g, Exec(g, s, acts), a)
  {
    assert (acts + [a])[..|acts + [a]| - 1] == acts;
  }

  /** What users of the file system see: what they have written so far, and
      what a crash would leave. */
  datatype Files = Files(durable: Disk, current: Disk)

  /** A commit makes everything written so far durable, in one step; a crash
      drops everything written since. */
  function Observe(g: Geometry, f: Files, a: Act): Files {
    match a
    case LogWrite(_, b, data) => if 0 <= b < |f.current| then f.(current := f.current[b := data]) else f
    case WriteHead => f.(durable := f.current)
    case Crash => f.(current := f.durable)
    case _ => f
  }

  function ObserveAll(g: Geometry, f: Files, acts: seq<Act>): Files {
    if acts == [] then f
    else Observe(g, ObserveAll(g, f, acts[..|acts| - 1]), acts[|acts| - 1])
  }

  predicate SameFiles(g: Geometry, e: Files, f: Files) {
    SameHome(g, e.durable, f.durable) && SameHome(g, e.current, f.current)
  }

  predicate Refines(g: Geometry, s: Sys, f: Files) {
    && Inv(g, s)
    && SameHome(g, Recovered(g, s.disk), f.durable)
    && SameHome(g, if s.Up() then s.mem else f.durable, f.current)
  }

  lemma LogBlockRefines(g: Geometry, s: Sys, f: Files)
    requires Refines(g, s, f) && Enabled(g, s, LogBlock) && Inv(g, Apply(g, s, LogBlock))
    ensures Refines(g, Apply(g, s, LogBlock), f)
  {
  }

  lemma WriteHeadRefines(g: Geometry, s: Sys, f: Files)
    requires Refines(g, s, f) && Enabled(g, s, WriteHead) && Inv(g, Apply(g, s, WriteHead))
    ensures Refines(g, Apply(g, s, WriteHead), Observe(g, f, WriteHead))
  {
    var s' := Apply(g, s, WriteHead);
    forall b | 0 <= b < g.nblocks && g.Home(b)
      ensures Recovered(g, s'.disk)[b] == s.mem[b]
    {
      var i := Index(s.lh, b);
      assert i >= 0 ==> s'.disk[g.Slot(i)] == s.mem[s.lh[i]];
    }
  }

  /** Copying a slot home changes nothing in the replayed disk: the slot is replayed anyway. */
  lemma SlotCopied(g: Geometry, d: Disk, lh: seq<int>, k: nat, b: nat)
    requires g.Valid() && |d| == g.nblocks && ValidHeader(g, d[g.start]) && HeadList(d[g.start]) == lh
    requires k < |lh| && b < g.nblocks && g.Home(b)
    ensures g.Home(lh[k]) && g.Slot(k) < g.nblocks && lh[k] >= 0
    ensures var e := d[lh[k] := d[g.Slot(k)]];
      ValidHeader(g, e[g.start]) && Recovered(g, e)[b] == Recovered(g, d)[b]
  {
    var i := Index(lh, b);
    assert i < 0 ==> b != lh[k];
    assert d[lh[k] := d[g.Slot(k)]][g.start] == d[g.start];
  }

  lemma InstallFacts(g: Geometry, s: Sys)
    requires Inv(g, s) && Enabled(g, s, InstallBlock)
    ensures s.phase.Installing? && s.phase.tail < |s.lh|
    ensures g.Valid() && |s.disk| == |s.mem| == g.nblocks && ValidHeader(g, s.disk[g.start])
    ensures var i, t := s.phase.tail, Apply(g, s, InstallBlock);
      && g.Home(s.lh[i]) && 0 <= s.lh[i] < g.nblocks && g.Slot(i) < g.nblocks
      && t.disk == s.disk[s.lh[i] := s.disk[g.Slot(i)]] && t.mem == s.mem[s.lh[i] := s.disk[g.Slot(i)]]
      && (t.Up() <==> s.Up()) && (s.Up() ==> s.mem[s.lh[i]] == s.disk[g.Slot(i)])
      && HeadList(s.disk[g.start]) == s.lh
  {
  }

  lemma InstallBlockRefines(g: Geometry, s: Sys, f: Files)
    requires Refines(g, s, f) && Enabled(g, s, InstallBlock) && Inv(g, Apply(g, s, InstallBlock))
    ensures Refines(g, Apply(g, s, InstallBlock), f)
  {
    hide Inv, Apply, Enabled, ValidHeader, Recovered;
    InstallFacts(g, s);
    forall b | 0 <= b < g.nblocks && g.Home(b)
      ensures Recovered(g, Apply(g, s, InstallBlock).disk)[b] == Recovered(g, s.disk)[b]
    {
      SlotCopied(g, s.disk, s.lh, s.phase.tail, b);
    }
  }

  lemma ClearHeadRefines(g: Geometry, s: Sys, f: Files)
    requires Refines(g, s, f) && Enabled(g, s, ClearHead) && Inv(g, Apply(g, s, ClearHead))
    ensures Refines(g, Apply(g, s, ClearHead), f)
  {
  }

  /** One step of the log is one step of the files it implements. */
  lemma StepRefines(g: Geometry, s: Sys, a: Act, f: Files)
    requires Refines(g, s, f) && Enabled(g, s, a)
    ensures Refines(g, Apply(g, s, a), Observe(g, f, a))
  {
    StepInv(g, s, a);
    match a
    case LogBlock => LogBlockRefines(g, s, f);
    case WriteHead => WriteHeadRefines(g, s, f);
    case InstallBlock => InstallBlockRefines(g, s, f);
    case ClearHead => ClearHeadRefines(g, s, f);
    case _ =>
  }

  /** Crash safety of every run, with any number of crashes anywhere, recovery
      included: replaying the log yields exactly what the last commit made
      durable, and while the system is up memory holds everything written. */
  lemma {:induction false} CrashSafety(g: Geometry, s: Sys, acts: seq<Act>)
    requires Fresh(g, s) && Legal(g, s, acts)
    ensures Refines(g, Exec(g, s, acts), ObserveAll(g, Files(s.disk, s.mem), acts))
  {
    if acts != [] {
      var before := acts[..|acts| - 1];
      CrashSafety(g, s, before);
      StepRefines(g, Exec(g, s, before), acts[|acts| - 1],
                  ObserveAll(g, Files(s.disk, s.mem), before));
    }
  }

  /** Commit happens only between operations: none is active, none can begin, and
      once it is over every completed operation is on disk. */
  lemma CommitIsQuiescent(g: Geometry, s: Sys)
    requires Inv(g, s)
    ensures s.committing ==> s.ops == [] && !Enabled(g, s, BeginOp)
    ensures s.committing ==> forall op, b, data :: !Enabled(g, s, LogWrite(op, b, data))
    ensures s.Up() && s.lh == [] ==> s.mem == s.disk && SameHome(g, Recovered(g, s.disk), s.mem)
  {
  }

  // ------------------------------------------------- "too big a transaction"

  ghost predicate Reachable(g: Geometry, s: Sys) {
    exists s0, acts :: Reaches(g, s0, acts, s)
  }

  ghost predicate Reaches(g: Geometry, s0: Sys, acts: seq<Act>, s: Sys) {
    Fresh(g, s0) && Legal(g, s0, acts) && Exec(g, s0, acts) == s
  }

  /** No operation that has budget left can make log_write panic. */
  ghost predicate NeverPanics(g: Geometry) {
    forall s, op :: Reachable(g, s) && 0 <= op < |s.ops| && |s.ops[op]| < MAXOPBLOCKS
                    ==> !Panics(g, s)
  }

  function ZeroBlock(): Block {
    seq(WORDS, _ => 0)
  }

  /** The i-th home block. */
  function HomeAt(g: Geometry, i: nat): nat {
    if i < g.start then i else i + g.size
  }

  function Clamp(x: int): int {
    if x < 0 then 0 else if x > MAXOPBLOCKS then MAXOPBLOCKS else x
  }

  /** Three operations, of which the first k log_writes each added a new block. */
  predicate Filled(g: Geometry, s: Sys, k: nat) {
    && Inv(g, s) && s.phase.Running? && |s.ops| == 3 && |s.lh| == k
    && (forall i :: 0 <= i < k ==> s.lh[i] == HomeAt(g, i))
    && (forall j :: 0 <= j < 3 ==> |s.ops[j]| == Clamp(k - j * MAXOPBLOCKS))
  }

  lemma BeginThree(g: Geometry) returns (s0: Sys, acts: seq<Act>, s: Sys)
    requires g.Valid()
    ensures Reaches(g, s0, acts, s) && Filled(g, s, 0)
  {
    var d := seq(g.nblocks, _ => ZeroBlock());
    s0 := Sys(d, d, [], [], false, Running);
    acts, s := [], s0;
    for j := 0 to 3
      invariant Reaches(g, s0, acts, s)
      invariant s.lh == [] && s.phase.Running? && |s.ops| == j && !s.committing
      invariant forall i :: 0 <= i < j ==> s.ops[i] == {}
    {
      ExecSnoc(g, s0, acts, BeginOp);
      acts, s := acts + [BeginOp], Apply(g, s, BeginOp);
    }
  }

  /** The log_write that takes Filled(k) to Filled(k + 1). */
  function NextFill(g: Geometry, k: nat): Act {
    LogWrite(k / MAXOPBLOCKS, HomeAt(g, k), ZeroBlock())
  }

  lemma FillStep(g: Geometry, s: Sys, k: nat)
    requires Filled(g, s, k) && g.nblocks >= g.size + LOGSIZE && k < LOGSIZE && k < g.size - 1
    ensures Enabled(g, s, NextFill(g, k)) && Filled(g, Apply(g, s, NextFill(g, k)), k + 1)
  {
    var op, b := k / MAXOPBLOCKS, HomeAt(g, k);
    assert b !in s.lh;
    assert b !in s.ops[op] && |s.ops[op] + {b}| == |s.ops[op]| + 1;
    StepInv(g, s, NextFill(g, k));
  }

  lemma {:induction false} Fill(g: Geometry, k: nat) returns (s0: Sys, acts: seq<Act>, s: Sys)
    requires g.Valid() && g.nblocks >= g.size + LOGSIZE && k <= LOGSIZE && k <= g.size - 1
    ensures Reaches(g, s0, acts, s) && Filled(g, s, k)
  {
    if k == 0 {
      s0, acts, s := BeginThree(g);
    } else {
      s0, acts, s := Fill(g, k - 1);
      FillStep(g, s, k - 1);
      ExecSnoc(g, s0, acts, NextFill(g, k - 1));
      acts, s := acts + [NextFill(g, k - 1)], Apply(g, s, NextFill(g, k - 1));
    }
  }

  /** The panic is out of reach exactly when the log region holds more than LOGSIZE
      blocks. mkfs makes one of LOGSIZE blocks, header included. */
  lemma NeverPanicsIff(g: Geometry)
    requires g.Valid() && g.nblocks >= g.size + LOGSIZE
    ensures NeverPanics(g) <==> g.size > LOGSIZE
  {
    if g.size > LOGSIZE {
      forall s, op | Reachable(g, s) && 0 <= op < |s.ops| && |s.ops[op]| < MAXOPBLOCKS
        ensures !Panics(g, s)
      {
        BudgetBounds(s.ops, op);
      }
    } else {
      var s0, acts, s := Fill(g, g.size - 1);
      var op := (g.size - 1) / MAXOPBLOCKS;
      assert Reachable(g, s) && |s.ops[op]| < MAXOPBLOCKS && Panics(g, s);
    }
  }

  /** Exactly when a log_write panics, within its budget or not: the list is as long as
      it can get, and then every active operation has spent its budget. */
  lemma PanicsIff(g: Geometry, s: Sys)
    requires Reachable(g, s)
    ensures Panics(g, s) <==> |s.lh| == if g.size > LOGSIZE then LOGSIZE else g.size - 1
    ensures Panics(g, s) && g.size > LOGSIZE ==> forall op :: 0 <= op < |s.ops| ==> |s.ops[op]| == MAXOPBLOCKS
  {
    forall op | 0 <= op < |s.ops| ensures MAXOPBLOCKS - |s.ops[op]| <= LOGSIZE - |s.lh| && |s.ops[op]| <= MAXOPBLOCKS {
      BudgetBounds(s.ops, op);
    }
  }

  lemma AnElement(s: set<int>) returns (b: int)
    requires s != {}
    ensures b in s
  {
    assert !(forall x :: x !in s) by {
      assert (forall x :: x !in s) ==> s == {};
    }
    b :| b in s;
  }

  /** So however large the region, an operation that has spent its budget panics when
      it logs one of its own blocks again while the log is full: the check comes
      before absorption. */
  lemma RelogCanPanic(g: Geometry) returns (s: Sys, op: nat, b: int)
    requires g.Valid() && g.nblocks >= g.size + LOGSIZE && g.size > LOGSIZE
    ensures Reachable(g, s) && op < |s.ops| && b in s.ops[op] && b in s.lh && Panics(g, s)
  {
    var s0, acts;
    s0, acts, s := Fill(g, LOGSIZE);
    op := 0;
    assert |s.ops[0]| == MAXOPBLOCKS;
    b := AnElement(s.ops[0]);
  }

  // --------------------------------------------------------------- the code

  lemma Quiet(g: Geometry, s: Sys)
    requires Inv(g, s) && s.ops != []
    ensures s.phase.Running? && !s.committing
  {
  }

  lemma ListBounds(g: Geometry, s: Sys, i: nat)
    requires Inv(g, s) && i < |s.lh|
    ensures g.Home(s.lh[i]) && g.start < g.Slot(i) < g.start + g.size
  {
  }

  lemma CrashReaches(g: Geometry, s0: Sys, acts: seq<Act>, s: Sys)
    requires Reaches(g, s0, acts, s)
    ensures Reaches(g, s0, acts + [Crash], Sys(s.disk, s.disk, [], [], false, Booting))
    ensures Inv(g, Sys(s.disk, s.disk, [], [], false, Booting))
    ensures g.Valid() && |s.disk| == g.nblocks && |s.disk[g.start]| == WORDS
  {
    ExecSnoc(g, s0, acts, Crash);
  }

  /** More steps were taken, none of them a log_write. */
  ghost predicate NoWrites(before: seq<Act>, after: seq<Act>) {
    before <= after && forall i :: |before| <= i < |after| ==> !after[i].LogWrite?
  }

  /** struct log, the block cache and the disk under them. Every method leaves in
      `acts` the atomic steps it took, so CrashSafety speaks of a crash at any point
      inside it. */
  class LogDevice {
    const g: Geometry
    var disk: Disk
    var mem: Disk
    const block: array<int>
    var n: int
    var outstanding: int
    var committing: bool
    ghost const init: Sys
    ghost var acts: seq<Act>
    ghost var sys: Sys

    ghost predicate Shape()
      reads this, block
    {
      && g.Valid() && |disk| == |mem| == g.nblocks && |mem[g.start]| == WORDS
      && block.Length == LOGSIZE && 0 <= n <= LOGSIZE
    }

    /** The fields hold the machine state s. */
    ghost predicate Holds(s: Sys)
      reads this, block
    {
      && Shape() && disk == s.disk && mem == s.mem && block[..n] == s.lh
      && outstanding == |s.ops| && committing == s.committing
    }

    ghost predicate Valid()
      reads this, block
    {
      Holds(sys) && Inv(g, sys) && Reaches(g, init, acts, sys)
    }

    /** The contents this log implements. */
    ghost function View(): Files
      reads this
    {
      ObserveAll(g, Files(init.disk, init.mem), acts)
    }

    /** A machine restarted after a crash: only the disk is left of the run so far. */
    constructor Restart(g: Geometry, ghost init: Sys, ghost acts: seq<Act>, ghost was: Sys, disk: Disk)
      requires Reaches(g, init, acts, was) && disk == was.disk
      ensures Valid() && fresh(block)
      ensures this.g == g && this.init == init && this.acts == acts + [Crash]
      ensures sys == Sys(disk, disk, [], [], false, Booting)
    {
      hide Reaches, Inv;
      CrashReaches(g, init, acts, was);
      this.g, this.init, this.acts := g, init, acts + [Crash];
      this.disk, this.mem := disk, disk;
      block, n := new int[LOGSIZE], 0;
      outstanding, committing := 0, false;
      sys := Sys(disk, disk, [], [], false, Booting);
    }

    /** bread(b), change the contents to x, bwrite(b). */
    method Bwrite(b: nat, x: Block)
      requires Shape() && b < g.nblocks
      modifies this`disk, this`mem
      ensures disk == old(disk)[b := x] && mem == old(mem)[b := x]
    {
      mem := mem[b := x];
      disk := disk[b := mem[b]];
    }

    method ReadHead()
      requires Shape() && 0 <= mem[g.start][0] <= LOGSIZE
      modifies this`n, block
      ensures Shape() && block[..n] == HeadList(mem[g.start])
    {
      var buf := mem[g.start];
      n := buf[0];
      for i := 0 to n
        invariant Shape() && n == buf[0]
        invariant forall k :: 0 <= k < i ==> block[k] == buf[1 + k]
      {
        block[i] := buf[1 + i];
      }
    }

    method WriteHead()
      requires Shape()
      modifies this`disk, this`mem
      ensures disk == old(disk)[g.start := WithHead(old(mem)[g.start], block[..n])]
      ensures mem == old(mem)[g.start := WithHead(old(mem)[g.start], block[..n])]
    {
      var was := mem[g.start];
      var hb: Block := was[0 := n];
      for i := 0 to n
        invariant |hb| == WORDS && hb[0] == n
        invariant forall k :: 0 <= k < i ==> hb[1 + k] == block[k]
        invariant forall k :: 1 + i <= k < WORDS ==> hb[k] == was[k]
      {
        hb := hb[1 + i := block[i]];
      }
      assert hb == WithHead(was, block[..n]);
      Bwrite(g.start, hb);
    }

    /** Records that the fields have just taken step a of the machine. */
    ghost method Took(a: Act)
      requires Inv(g, sys) && Reaches(g, init, acts, sys)
      requires Enabled(g, sys, a) && Holds(Apply(g, sys, a))
      modifies this`acts, this`sys
      ensures Valid() && acts == old(acts) + [a] && sys == Apply(g, old(sys), a)
      ensures View() == Observe(g, old(View()), a)
    {
      ExecSnoc(g, init, acts, a);
      assert (acts + [a])[..|acts|] == acts;
      acts, sys := acts + [a], Apply(g, sys, a);
    }

    /** One test of begin_op's loop: false means the caller sleeps and tests again. */
    method BeginOp() returns (admitted: bool)
      requires Valid() && sys.Up()
      modifies this`outstanding, this`acts, this`sys
      ensures Valid() && View() == old(View())
      ensures admitted <==> !committing && n + (old(outstanding) + 1) * MAXOPBLOCKS <= LOGSIZE
      ensures if admitted then sys.ops == old(sys.ops) + [{}] else sys.ops == old(sys.ops)
      ensures acts == if admitted then old(acts) + [Act.BeginOp] else old(acts)
      ensures admitted ==> sys.phase.Running?
    {
      if committing {
        return false;
      } else if n + (outstanding + 1) * MAXOPBLOCKS > LOGSIZE {
        return false;
      } else {
        outstanding := outstanding + 1;
        Took(Act.BeginOp);
        return true;
      }
    }

    /** The loop of log_write: absorb block b, or add it to the list. */
    method Absorb(b: nat)
      requires Shape() && n < LOGSIZE
      modifies this`n, block
      ensures Shape()
      ensures block[..n] == if b in old(block[..n]) then old(block[..n]) else old(block[..n]) + [b]
    {
      var i := 0;
      while i < n
        invariant 0 <= i <= n && b !in block[..i]
      {
        if block[i] == b {
          break;
        }
        i := i + 1;
      }
      block[i] := b;
      if i == n {
        n := n + 1;
      } else {
        assert old(block[..n])[i] == b;
      }
    }

    /** log_write of block b, whose buffer the caller has just filled with data;
        op is the caller's place among the operations in progress. */
    method LogWrite(ghost op: nat, b: nat, data: Block)
      requires Valid() && op < |sys.ops| && g.Home(b)
      requires b in sys.ops[op] || |sys.ops[op]| < MAXOPBLOCKS
      requires !Panics(g, sys)
      modifies this`mem, this`n, this`acts, this`sys, block
      ensures Valid() && acts == old(acts) + [Act.LogWrite(op, b, data)]
      ensures sys.ops == old(sys.ops)[op := old(sys.ops)[op] + {b}]
      ensures View() == Observe(g, old(View()), Act.LogWrite(op, b, data))
      ensures mem == old(mem)[b := data]
    {
      Quiet(g, sys);
      hide Inv;
      mem := mem[b := data];
      Absorb(b);
      assert block[..n] == if b in sys.lh then sys.lh else sys.lh + [b];
      Took(Act.LogWrite(op, b, data));
    }

    /** The first half of end_op, under the lock. */
    method LeaveOp(ghost op: nat) returns (doCommit: bool)
      requires Valid() && op < |sys.ops|
      modifies this`outstanding, this`committing, this`acts, this`sys
      ensures Valid() && View() == old(View())
      ensures sys.ops == old(sys.ops)[..op] + old(sys.ops)[op + 1..]
      ensures doCommit <==> sys.ops == []
      ensures doCommit ==> sys.phase == if n > 0 then Logging(0) else Unlocking
      ensures !doCommit ==> sys.phase == old(sys.phase) && committing == old(committing)
      ensures NoWrites(old(acts), acts)
    {
      Quiet(g, sys);
      hide Inv;
      outstanding := outstanding - 1;
      doCommit := outstanding == 0;
      if doCommit {
        committing := true;
      }
      Took(Act.EndOp(op));
    }

    /** The second half of end_op: commit without the lock, then clear `committing`. */
    method CommitGroup()
      requires Valid() && sys.phase == if n > 0 then Logging(0) else Unlocking
      modifies this`disk, this`mem, this`n, this`committing, this`acts, this`sys
      ensures Valid() && !committing && sys.phase.Running? && n == 0
      ensures SameHome(g, disk, old(View()).current)
      ensures SameFiles(g, View(), Files(old(View()).current, old(View()).current)) && NoWrites(old(acts), acts)
    {
      hide Inv, Reaches, SameHome;
      Commit();
      committing := false;
      Took(Unlock);
    }

    /** end_op: the last operation out commits for the whole group. */
    method EndOp(ghost op: nat)
      requires Valid() && op < |sys.ops|
      modifies this`disk, this`mem, this`n, this`outstanding, this`committing,
               this`acts, this`sys
      ensures Valid() && !committing && sys.phase.Running?
      ensures sys.ops == old(sys.ops)[..op] + old(sys.ops)[op + 1..]
      ensures sys.ops != [] ==> View() == old(View())
      ensures sys.ops == [] ==> n == 0 && SameHome(g, disk, old(View()).current)
      ensures sys.ops == [] ==>
                SameFiles(g, View(), Files(old(View()).current, old(View()).current))
      ensures NoWrites(old(acts), acts)
    {
      hide Inv, Reaches;
      Quiet(g, sys);
      var doCommit := LeaveOp(op);
      if doCommit {
        CommitGroup();
      }
    }

    /** One turn of the loop of write_log: copy a modified block to its log slot. */
    method LogBlock(tail: nat)
      requires Valid() && sys.phase == Logging(tail) && tail < n
      modifies this`disk, this`mem, this`acts, this`sys
      ensures Valid() && sys.phase == Logging(tail + 1)
      ensures acts == old(acts) + [Act.LogBlock] && View() == old(View())
    {
      ListBounds(g, sys, tail);
      hide Inv;
      Bwrite(g.Slot(tail), mem[block[tail]]);
      Took(Act.LogBlock);
    }

    /** write_log: copy the modified blocks from the cache to the log. */
    method WriteLog()
      requires Valid() && sys.phase == Logging(0)
      modifies this`disk, this`mem, this`acts, this`sys
      ensures Valid() && sys.phase == Logging(n) && View() == old(View()) && NoWrites(old(acts), acts)
    {
      hide Inv, Reaches;
      for tail := 0 to n
        invariant Valid() && sys.phase == Logging(tail) && View() == old(View()) && NoWrites(old(acts), acts)
      {
        LogBlock(tail);
      }
    }

    /** write_head in commit: the true commit point. */
    method CommitHead()
      requires Valid() && sys.phase == Logging(n)
      modifies this`disk, this`mem, this`acts, this`sys
      ensures Valid() && sys.phase == Installing(0, false)
      ensures View() == Files(old(View()).current, old(View()).current) && NoWrites(old(acts), acts)
    {
      WriteHead();
      Took(Act.WriteHead);
    }

    /** One turn of the loop of install_trans. */
    method InstallBlock(tail: nat)
      requires Valid() && sys.phase.Installing? && sys.phase.tail == tail < n
      modifies this`disk, this`mem, this`acts, this`sys
      ensures Valid() && sys.phase == Installing(tail + 1, old(sys.phase).recovering)
      ensures acts == old(acts) + [Act.InstallBlock] && View() == old(View())
    {
      ListBounds(g, sys, tail);
      hide Inv;
      assert block[tail] == sys.lh[tail];
      Bwrite(block[tail], mem[g.Slot(tail)]);
      assert block[..n] == sys.lh;
      Took(Act.InstallBlock);
    }

    /** install_trans: copy the logged blocks to their homes. */
    method InstallTrans(recovering: bool)
      requires Valid() && sys.phase == Installing(0, recovering)
      modifies this`disk, this`mem, this`acts, this`sys
      ensures Valid() && sys.phase == Installing(n, recovering) && View() == old(View()) && NoWrites(old(acts), acts)
    {
      hide Inv;
      for tail := 0 to n
        invariant Valid() && sys.phase == Installing(tail, recovering) && View() == old(View()) &&
                  NoWrites(old(acts), acts)
      {
        InstallBlock(tail);
      }
    }

    /** n = 0 and write_head: erase the transaction from the log. */
    method ClearHead()
      requires Valid() && sys.phase.Installing? && sys.phase.tail == n
      modifies this`disk, this`mem, this`n, this`acts, this`sys
      ensures Valid() && n == 0 && View() == old(View()) && NoWrites(old(acts), acts)
      ensures sys.phase == if old(sys.phase).recovering then Running else Unlocking
    {
      hide Inv;
      n := 0;
      assert block[..n] == [];
      WriteHead();
      Took(Act.ClearHead);
    }

    /** commit: everything written so far becomes durable, and is on disk at home. */
    method Commit()
      requires Valid() && sys.phase == if n > 0 then Logging(0) else Unlocking
      modifies this`disk, this`mem, this`n, this`acts, this`sys
      ensures Valid() && n == 0 && sys.phase == Unlocking
      ensures SameFiles(g, View(), Files(old(View()).current, old(View()).current))
      ensures SameHome(g, disk, old(View()).current) && NoWrites(old(acts), acts)
    {
      if n > 0 {
        WriteLog();
        CommitHead();
        InstallTrans(false);
        ClearHead();
      }
      Settled();
    }

    /** recover_from_log: the home blocks end up holding what was durable at the crash. */
    method RecoverFromLog()
      requires Valid() && sys.phase.Booting?
      modifies this, block
      ensures Valid() && sys.phase.Running? && sys.ops == [] && n == 0
      ensures View() == old(View())
      ensures SameHome(g, disk, old(View()).durable) && mem == disk
    {
      ReadHead();
      Took(Act.ReadHead);
      InstallTrans(true);
      ClearHead();
      Settled();
    }

    lemma Settled()
      requires Valid() && n == 0 && (sys.phase.Running? || sys.phase.Unlocking?)
      ensures SameHome(g, disk, View().durable) && SameHome(g, disk, View().current)
      ensures mem == disk
    {
      CrashSafety(g, init, acts);
      CommitIsQuiescent(g, sys);
    }
  }
}
