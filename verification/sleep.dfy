// Sleep and wakeup in xv6 (CLab/xv6/kernel/proc.c): processes, scheduler loops on
// several processors and wakers take one shared-memory step at a time, in any order.
//
// p->lock is taken by sleep(), handed through swtch() to the scheduler, and released
// there. The processes are fixed here; family.dfy has fork, exit and wait.

module SleepWakeup {
  /** Who runs code: a process, or a processor's scheduler thread (and, between two
      processes, an interrupt handler there). */
  datatype Who = Proc(p: int) | Cpu(c: int)

  datatype Lock = Free | By(who: Who)

  datatype St = RUNNING | RUNNABLE | SLEEPING

  /** Where a process goes on after swtch() comes back to it. */
  datatype Kont = AfterSleep(chan: int, lk: int) | AfterYield(back: Pc)

  /** The loops of wakeup(chan) and kill(pid) over the process table. */
  datatype What = Wake(chan: int) | Kill(pid: int)

  datatype Stage = Before | Held | Tested

  /** The next step of a process. */
  datatype Pc =
    | Run                              // elsewhere in the kernel, or in user space
    | SleepLock(chan: int, lk: int)    // acquire(&p->lock)
    | GiveUp(chan: int, lk: int)       // release(lk)
    | SetChan(chan: int, lk: int)      // p->chan = chan
    | SetSleeping(chan: int, lk: int)  // p->state = SLEEPING
    | YieldLock(back: Pc)              // acquire(&p->lock), called from back
    | SetRunnable(back: Pc)            // p->state = RUNNABLE
    | Sched(k: Kont)                   // swtch to the scheduler
    | Out(k: Kont)                     // switched out
    | Tidy(lk: int)                    // p->chan = 0
    | Unlock(lk: int)                  // release(&p->lock), in sleep
    | Retake(lk: int)                  // acquire(lk)
    | YieldUnlock(back: Pc)            // release(&p->lock), in yield
    | Scan(what: What, at: int, stage: Stage)

  /** The next step of a processor's scheduler. */
  datatype CpuPc =
    | Next(at: int)        // acquire(&p->lock)
    | Look(at: int)        // p->state == RUNNABLE?
    | Switch(at: int)      // swtch to p
    | Running(at: int)     // p runs
    | Done(at: int)        // release(&p->lock)
    | Handler(what: What, at: int, stage: Stage, back: int)

  /** gone[p] counts the times that p gave up its lock in sleep(). */
  datatype Sys = Sys(st: seq<St>, chan: seq<int>, lock: seq<Lock>, pc: seq<Pc>, on: seq<int>, gone: seq<int>,
                     pid: seq<int>, lks: seq<Lock>, cpu: seq<CpuPc>)

  datatype Act =
    | Acquire(who: Who, lk: int)
    | Release(who: Who, lk: int)
    | CallSleep(p: int, chan: int, lk: int)
    | CallYield(p: int)
    | Step(p: int)
    | SchedStep(c: int)
    | CallScan(who: Who, what: What)
    | ScanStep(who: Who)
    | ScanReturn(who: Who)

  // ------------------------------------------------------------------- steps

  predicate IsProc(s: Sys, p: int) {
    0 <= p < |s.pc|
  }

  predicate IsCpu(s: Sys, c: int) {
    0 <= c < |s.cpu|
  }

  predicate Exists(s: Sys, w: Who) {
    match w
    case Proc(p) => IsProc(s, p)
    case Cpu(c) => IsCpu(s, c)
  }

  predicate Shape(s: Sys) {
    && |s.st| == |s.chan| == |s.lock| == |s.pc| == |s.on| == |s.gone| == |s.pid|
  }

  /** Not in the middle of any function modelled here. */
  predicate Idle(s: Sys, w: Who)
    requires Exists(s, w)
  {
    match w
    case Proc(p) => s.pc[p].Run?
    case Cpu(c) => s.cpu[c].Next?
  }

  datatype Loop = Loop(what: What, at: int, stage: Stage) | NoLoop

  function LoopOf(s: Sys, w: Who): Loop
    requires Exists(s, w)
  {
    match w
    case Proc(p) => if s.pc[p].Scan? then Loop(s.pc[p].what, s.pc[p].at, s.pc[p].stage) else NoLoop
    case Cpu(c) => if s.cpu[c].Handler? then Loop(s.cpu[c].what, s.cpu[c].at, s.cpu[c].stage) else NoLoop
  }

  function WithLoop(s: Sys, w: Who, what: What, at: int, stage: Stage): Sys
    requires Exists(s, w)
  {
    match w
    case Proc(p) => s.(pc := s.pc[p := Scan(what, at, stage)])
    case Cpu(c) =>
      var back := if s.cpu[c].Handler? then s.cpu[c].back else if s.cpu[c].Next? then s.cpu[c].at else 0;
      s.(cpu := s.cpu[c := Handler(what, at, stage, back)])
  }

  function WithoutLoop(s: Sys, w: Who): Sys
    requires Exists(s, w)
  {
    match w
    case Proc(p) => s.(pc := s.pc[p := Run])
    case Cpu(c) => s.(cpu := s.cpu[c := Next(if s.cpu[c].Handler? then s.cpu[c].back else 0)])
  }

  function WithPc(s: Sys, p: int, pc: Pc): Sys
    requires IsProc(s, p)
  {
    s.(pc := s.pc[p := pc])
  }

  function WithCpu(s: Sys, c: int, pc: CpuPc): Sys
    requires IsCpu(s, c)
  {
    s.(cpu := s.cpu[c := pc])
  }

  function WithLock(s: Sys, p: int, l: Lock): Sys
    requires 0 <= p < |s.lock|
  {
    s.(lock := s.lock[p := l])
  }

  function WithSt(s: Sys, p: int, st: St): Sys
    requires 0 <= p < |s.st|
  {
    s.(st := s.st[p := st])
  }

  predicate HoldsOnly(s: Sys, p: int, lk: int) {
    forall l :: 0 <= l < |s.lks| ==> (s.lks[l] == By(Proc(p)) <==> l == lk)
  }

  predicate HoldsNone(s: Sys, p: int) {
    forall l :: 0 <= l < |s.lks| ==> s.lks[l] != By(Proc(p))
  }

  predicate StepEnabled(s: Sys, p: int)
    requires Shape(s) && IsProc(s, p)
  {
    match s.pc[p]
    case SleepLock(_, _) => s.lock[p].Free?
    case YieldLock(_) => s.lock[p].Free?
    case Retake(lk) => 0 <= lk < |s.lks| && s.lks[lk].Free?
    case GiveUp(_, lk) => 0 <= lk < |s.lks|
    case Sched(_) => IsCpu(s, s.on[p])
    case Run => false
    case Out(_) => false
    case Scan(_, _, _) => false
    case _ => true
  }

  /** One step of sleep(), yield() or sched() by process p. */
  function StepOf(s: Sys, p: int): Sys
    requires Shape(s) && IsProc(s, p) && StepEnabled(s, p)
  {
    match s.pc[p]
    case SleepLock(chan, lk) => WithPc(WithLock(s, p, By(Proc(p))), p, GiveUp(chan, lk))
    case GiveUp(chan, lk) =>
      WithPc(s.(lks := s.lks[lk := Free], gone := s.gone[p := s.gone[p] + 1]), p, SetChan(chan, lk))
    case SetChan(chan, lk) => WithPc(s.(chan := s.chan[p := chan]), p, SetSleeping(chan, lk))
    case SetSleeping(chan, lk) => WithPc(WithSt(s, p, SLEEPING), p, Sched(AfterSleep(chan, lk)))
    case YieldLock(back) => WithPc(WithLock(s, p, By(Proc(p))), p, SetRunnable(back))
    case SetRunnable(back) => WithPc(WithSt(s, p, RUNNABLE), p, Sched(AfterYield(back)))
    case Sched(k) => WithCpu(WithPc(WithLock(s, p, By(Cpu(s.on[p]))), p, Out(k)), s.on[p], Done(p))
    case Tidy(lk) => WithPc(s.(chan := s.chan[p := 0]), p, Unlock(lk))
    case Unlock(lk) => WithPc(WithLock(s, p, Free), p, Retake(lk))
    case Retake(lk) => WithPc(s.(lks := s.lks[lk := By(Proc(p))]), p, Run)
    case YieldUnlock(back) => WithPc(WithLock(s, p, Free), p, back)
    case _ => s
  }

  predicate SchedEnabled(s: Sys, c: int)
    requires Shape(s) && IsCpu(s, c)
  {
    match s.cpu[c]
    case Next(p) => IsProc(s, p) && s.lock[p].Free?
    case Look(p) => IsProc(s, p)
    case Switch(p) => IsProc(s, p) && s.pc[p].Out?
    case Done(p) => IsProc(s, p)
    case Running(_) => false
    case Handler(_, _, _, _) => false
  }

  /** One step of scheduler() on processor c. */
  function SchedOf(s: Sys, c: int): Sys
    requires Shape(s) && IsCpu(s, c) && SchedEnabled(s, c)
  {
    match s.cpu[c]
    case Next(p) => WithCpu(WithLock(s, p, By(Cpu(c))), c, Look(p))
    case Look(p) =>
      if s.st[p] == RUNNABLE then WithCpu(WithSt(s, p, RUNNING), c, Switch(p)) else WithCpu(s, c, Done(p))
    case Switch(p) =>
      var pc := match s.pc[p].k case AfterSleep(_, lk) => Tidy(lk) case AfterYield(back) => YieldUnlock(back);
      WithCpu(WithPc(WithLock(s.(on := s.on[p := c]), p, By(Proc(p))), p, pc), c, Running(p))
    case Done(p) => WithCpu(WithLock(s, p, Free), c, Next(if p + 1 < |s.pc| then p + 1 else 0))
    case _ => s
  }

  predicate ScanEnabled(s: Sys, w: Who)
    requires Shape(s) && Exists(s, w)
  {
    var l := LoopOf(s, w);
    && l.Loop? && IsProc(s, l.at)
    && (l.stage == Before && !(l.what.Wake? && w == Proc(l.at)) ==> s.lock[l.at].Free?)
  }

  /** One step of the loop of wakeup() or kill(). */
  function ScanOf(s: Sys, w: Who): Sys
    requires Shape(s) && Exists(s, w) && ScanEnabled(s, w)
  {
    var l := LoopOf(s, w);
    var q := l.at;
    match l.stage
    case Before =>
      if l.what.Wake? && w == Proc(q) then WithLoop(s, w, l.what, q + 1, Before)
      else WithLoop(WithLock(s, q, By(w)), w, l.what, q, Held)
    case Held =>
      var hit := s.st[q] == SLEEPING &&
                 match l.what case Wake(chan) => s.chan[q] == chan case Kill(pid) => s.pid[q] == pid;
      WithLoop(if hit then WithSt(s, q, RUNNABLE) else s, w, l.what, q, Tested)
    case Tested =>
      if l.what.Kill? && s.pid[q] == l.what.pid then WithoutLoop(WithLock(s, q, Free), w)
      else WithLoop(WithLock(s, q, Free), w, l.what, q + 1, Before)
  }

  /** Where a timer interrupt can make a process yield: elsewhere, between two entries of
      a loop over the table, and before sleep() takes lk again. */
  predicate Preemptible(pc: Pc) {
    pc.Run? || (pc.Scan? && pc.stage == Before) || pc.Retake?
  }

  /** Acts that the kernel can take in state s. Callers of sleep() hold lk and no other
      spinlock, callers of yield() none: else sched() would panic. */
  predicate Enabled(s: Sys, a: Act)
    requires Shape(s)
  {
    match a
    case Acquire(w, l) => Exists(s, w) && Idle(s, w) && 0 <= l < |s.lks| && s.lks[l].Free?
    case Release(w, l) => Exists(s, w) && Idle(s, w) && 0 <= l < |s.lks| && s.lks[l] == By(w)
    case CallSleep(p, chan, lk) => IsProc(s, p) && s.pc[p].Run? && 0 <= lk < |s.lks| && HoldsOnly(s, p, lk)
    case CallYield(p) => IsProc(s, p) && Preemptible(s.pc[p]) && HoldsNone(s, p)
    case Step(p) => IsProc(s, p) && StepEnabled(s, p)
    case SchedStep(c) => IsCpu(s, c) && SchedEnabled(s, c)
    case CallScan(w, what) => Exists(s, w) && Idle(s, w)
    case ScanStep(w) => Exists(s, w) && ScanEnabled(s, w)
    case ScanReturn(w) => Exists(s, w) && LoopOf(s, w).Loop? && LoopOf(s, w).at == |s.pc|
  }

  function Apply(s: Sys, a: Act): Sys
    requires Shape(s) && Enabled(s, a)
  {
    match a
    case Acquire(w, l) => s.(lks := s.lks[l := By(w)])
    case Release(w, l) => s.(lks := s.lks[l := Free])
    case CallSleep(p, chan, lk) => WithPc(s, p, SleepLock(chan, lk))
    case CallYield(p) => WithPc(s, p, YieldLock(s.pc[p]))
    case Step(p) => StepOf(s, p)
    case SchedStep(c) => SchedOf(s, c)
    case CallScan(w, what) => WithLoop(s, w, what, 0, Before)
    case ScanStep(w) => ScanOf(s, w)
    case ScanReturn(w) => WithoutLoop(s, w)
  }

  // --------------------------------------------------------------- invariants

  /** The code position of w says that it holds process q's lock. */
  predicate Holds(s: Sys, w: Who, q: int)
    requires Exists(s, w)
  {
    match w
    case Proc(p) =>
      var pc := s.pc[p];
      || (q == p && (pc.GiveUp? || pc.SetChan? || pc.SetSleeping? || pc.SetRunnable? || pc.Sched? || pc.Tidy? ||
         pc.Unlock?
                     || pc.YieldUnlock?))
      || (pc.Scan? && pc.stage != Before && pc.at == q)
    case Cpu(c) =>
      var pc := s.cpu[c];
      || ((pc.Look? || pc.Switch? || pc.Done?) && pc.at == q)
      || (pc.Handler? && pc.stage != Before && pc.at == q)
  }

  ghost predicate LocksOk(s: Sys)
    requires Shape(s)
  {
    forall w, q {:trigger Holds(s, w, q)} :: Exists(s, w) && IsProc(s, q) ==> (Holds(s, w, q) <==> s.lock[q] == By(w))
  }

  /** Where a yield may lead back to. */
  predicate Resumable(s: Sys, pc: Pc) {
    Preemptible(pc) && (pc.Scan? ==> 0 <= pc.at <= |s.pc|)
  }

  /** A process's state agrees with its code position. */
  predicate StateOk(s: Sys, p: int)
    requires Shape(s) && IsProc(s, p)
  {
    match s.pc[p]
    case Out(k) =>
      (k.AfterYield? ==> Resumable(s, k.back)) &&
      match s.st[p] {
        case RUNNABLE => true
        case SLEEPING => k.AfterSleep? && s.chan[p] == k.chan
        case RUNNING => s.lock[p].By? && s.lock[p].who.Cpu? && IsCpu(s, s.lock[p].who.c) &&
             s.cpu[s.lock[p].who.c] == Switch(p)
      }
    case Sched(AfterSleep(chan, lk)) => s.st[p] == SLEEPING && s.chan[p] == chan
    case Sched(AfterYield(back)) => s.st[p] == RUNNABLE && Resumable(s, back)
    case YieldLock(back) => s.st[p] == RUNNING && Resumable(s, back)
    case SetRunnable(back) => s.st[p] == RUNNING && Resumable(s, back)
    case YieldUnlock(back) => s.st[p] == RUNNING && Resumable(s, back)
    case SetSleeping(chan, lk) => s.st[p] == RUNNING && s.chan[p] == chan
    case Scan(_, at, stage) => s.st[p] == RUNNING && 0 <= at <= |s.pc| && (stage != Before ==> at < |s.pc|)
    case _ => s.st[p] == RUNNING
  }

  /** A process that is not switched out runs on one processor, which knows it. */
  predicate OnOk(s: Sys, p: int)
    requires Shape(s) && IsProc(s, p)
  {
    !s.pc[p].Out? ==> IsCpu(s, s.on[p]) && s.cpu[s.on[p]] == Running(p)
  }

  predicate CpuOk(s: Sys, c: int)
    requires Shape(s) && IsCpu(s, c)
  {
    match s.cpu[c]
    case Running(p) => IsProc(s, p) && !s.pc[p].Out? && s.on[p] == c
    case Switch(p) => IsProc(s, p) && s.pc[p].Out? && s.st[p] == RUNNING
    case Next(p) => IsProc(s, p)
    case Look(p) => IsProc(s, p)
    case Done(p) => IsProc(s, p)
    case Handler(_, at, stage, back) => 0 <= at <= |s.pc| && (stage != Before ==> at < |s.pc|) && IsProc(s, back)
  }

  /** The spinlocks that a process holds on its way through sleep() and yield(). */
  ghost predicate LksOk(s: Sys, p: int)
    requires Shape(s) && IsProc(s, p)
  {
    match s.pc[p]
    case Run => true
    case Scan(_, _, _) => true
    case SleepLock(_, lk) => 0 <= lk < |s.lks| && HoldsOnly(s, p, lk)
    case GiveUp(_, lk) => 0 <= lk < |s.lks| && HoldsOnly(s, p, lk)
    case _ => HoldsNone(s, p)
  }

  ghost predicate Inv(s: Sys) {
    && Shape(s)
    && LocksOk(s)
    && (forall p {:trigger StateOk(s, p)} :: IsProc(s, p) ==> StateOk(s, p))
    && (forall p {:trigger OnOk(s, p)} :: IsProc(s, p) ==> OnOk(s, p))
    && (forall p {:trigger LksOk(s, p)} :: IsProc(s, p) ==> LksOk(s, p))
    && (forall c {:trigger CpuOk(s, c)} :: IsCpu(s, c) ==> CpuOk(s, c))
  }

  lemma StepKeepsLocks(s: Sys, p: int)
    requires Inv(s) && IsProc(s, p) && StepEnabled(s, p)
    ensures Shape(StepOf(s, p)) && LocksOk(StepOf(s, p))
  {
    var t := StepOf(s, p);
    assert OnOk(s, p) && StateOk(s, p);
    assert Holds(s, Proc(p), p) <==> s.lock[p] == By(Proc(p));
    forall v, q | Exists(t, v) && IsProc(t, q) ensures Holds(t, v, q) <==> t.lock[q] == By(v) {
      assert Holds(s, v, q) <==> s.lock[q] == By(v);
    }
  }

  lemma StepKeepsStates(s: Sys, p: int)
    requires Inv(s) && IsProc(s, p) && StepEnabled(s, p)
    ensures var t := StepOf(s, p); Shape(t) && forall q :: IsProc(t, q) ==> StateOk(t, q)
  {
    var t := StepOf(s, p);
    assert OnOk(s, p) && StateOk(s, p);
    hide StepOf, LocksOk, StateOk, OnOk, StepEnabled;
    StepMovesOwn(s, p);
    forall q | IsProc(s, q) ensures IsProc(t, q) && StateOk(t, q) {
      if q != p {
        StepLeavesOthers(s, p, q);
      }
    }
    StepSize(s, p);
  }

  lemma StepSize(s: Sys, p: int)
    requires Shape(s) && IsProc(s, p) && StepEnabled(s, p)
    ensures Shape(StepOf(s, p)) && |StepOf(s, p).pc| == |s.pc|
  {
  }

  /** From s to t process q has not moved, nor has its lock, nor a processor that is
      about to switch to it. */
  ghost predicate Unmoved(s: Sys, t: Sys, q: int)
    requires Shape(s) && IsProc(s, q)
  {
    && Shape(t) && |t.pc| == |s.pc| && |t.cpu| == |s.cpu|
    && t.pc[q] == s.pc[q] && t.st[q] == s.st[q] && t.chan[q] == s.chan[q] && t.lock[q] == s.lock[q]
    && (forall c :: IsCpu(s, c) && s.cpu[c] == Switch(q) ==> t.cpu[c] == s.cpu[c])
  }

  lemma UnmovedState(s: Sys, t: Sys, q: int)
    requires Shape(s) && IsProc(s, q) && Unmoved(s, t, q) && StateOk(s, q)
    ensures StateOk(t, q)
  {
  }

  lemma StepUnmoved(s: Sys, p: int, q: int)
    requires Shape(s) && IsProc(s, p) && StepEnabled(s, p) && IsProc(s, q) && q != p && OnOk(s, p)
    requires !s.pc[p].Out?
    ensures Unmoved(s, StepOf(s, p), q)
  {
  }

  lemma StepLeavesOthers(s: Sys, p: int, q: int)
    requires Shape(s) && IsProc(s, p) && StepEnabled(s, p) && IsProc(s, q) && q != p && OnOk(s, p) && StateOk(s, q)
    ensures Shape(StepOf(s, p)) && IsProc(StepOf(s, p), q) && StateOk(StepOf(s, p), q)
  {
    hide StepOf, StateOk, OnOk;
    StepUnmoved(s, p, q);
    UnmovedState(s, StepOf(s, p), q);
  }

  lemma StepMovesOwn(s: Sys, p: int)
    requires Shape(s) && IsProc(s, p) && StepEnabled(s, p) && OnOk(s, p) && StateOk(s, p)
    ensures Shape(StepOf(s, p)) && IsProc(StepOf(s, p), p) && StateOk(StepOf(s, p), p)
  {
  }

  lemma StepKeepsOn(s: Sys, p: int)
    requires Inv(s) && IsProc(s, p) && StepEnabled(s, p)
    ensures var t := StepOf(s, p); Shape(t) && forall q :: IsProc(t, q) ==> OnOk(t, q)
  {
    var t := StepOf(s, p);
    assert OnOk(s, p) && StateOk(s, p);
    assert Holds(s, Proc(p), p) <==> s.lock[p] == By(Proc(p));
    forall q | IsProc(t, q) ensures OnOk(t, q) {
      assert OnOk(s, q);
    }
  }

  lemma StepLks(s: Sys, p: int, q: int)
    requires Shape(s) && IsProc(s, p) && StepEnabled(s, p) && IsProc(s, q) && StateOk(s, p) && LksOk(s, p) &&
             LksOk(s, q)
    ensures Shape(StepOf(s, p)) && IsProc(StepOf(s, p), q) && LksOk(StepOf(s, p), q)
  {
    var t := StepOf(s, p);
    if t.lks == s.lks {
      assert HoldsNone(s, q) ==> HoldsNone(t, q);
    } else {
      OneLockChanged(s, t, p, s.pc[p].lk, q);
    }
  }

  lemma StepKeepsLks(s: Sys, p: int)
    requires Inv(s) && IsProc(s, p) && StepEnabled(s, p)
    ensures var t := StepOf(s, p); Shape(t) && forall q :: IsProc(t, q) ==> LksOk(t, q)
  {
    hide StepOf, LksOk, StateOk, LocksOk;
    assert StateOk(s, p) && LksOk(s, p);
    StepSize(s, p);
    forall q | IsProc(s, q) ensures IsProc(StepOf(s, p), q) && LksOk(StepOf(s, p), q) {
      assert LksOk(s, q);
      StepLks(s, p, q);
    }
  }

  lemma SameLks(s: Sys, t: Sys, q: int)
    requires Shape(s) && Shape(t) && IsProc(s, q) && IsProc(t, q) && t.lks == s.lks && LksOk(s, q)
    requires t.pc[q] == s.pc[q] || t.pc[q].Run? || t.pc[q].Scan?
    ensures LksOk(t, q)
  {
    assert HoldsNone(s, q) ==> HoldsNone(t, q);
    assert forall l :: HoldsOnly(s, q, l) ==> HoldsOnly(t, q, l);
  }

  lemma OneLockChanged(s: Sys, t: Sys, p: int, lk: int, q: int)
    requires 0 <= lk < |s.lks| && (s.lks[lk] == By(Proc(p)) || s.lks[lk].Free?)
    requires t.lks == s.lks[lk := Free] || t.lks == s.lks[lk := By(Proc(p))]
    ensures q != p && HoldsNone(s, q) ==> HoldsNone(t, q)
    ensures q != p ==> forall l :: HoldsOnly(s, q, l) ==> HoldsOnly(t, q, l)
    ensures HoldsOnly(s, p, lk) && t.lks == s.lks[lk := Free] ==> HoldsNone(t, p)
  {
  }

  lemma StepKeepsCpus(s: Sys, p: int)
    requires Inv(s) && IsProc(s, p) && StepEnabled(s, p)
    ensures var t := StepOf(s, p); Shape(t) && forall d :: IsCpu(t, d) ==> CpuOk(t, d)
  {
    var t := StepOf(s, p);
    assert StateOk(s, p);
    forall d | IsCpu(t, d) ensures CpuOk(t, d) {
      assert CpuOk(s, d);
    }
  }

  lemma SchedKeepsLocks(s: Sys, c: int)
    requires Inv(s) && IsCpu(s, c) && SchedEnabled(s, c)
    ensures Shape(SchedOf(s, c)) && LocksOk(SchedOf(s, c))
  {
    var t := SchedOf(s, c);
    assert CpuOk(s, c);
    var k := s.cpu[c].at;
    assert Holds(s, Cpu(c), k) <==> s.lock[k] == By(Cpu(c));
    assert Holds(s, Proc(k), k) <==> s.lock[k] == By(Proc(k));
    assert StateOk(s, k);
    forall v, q | Exists(t, v) && IsProc(t, q) ensures Holds(t, v, q) <==> t.lock[q] == By(v) {
      assert Holds(s, v, q) <==> s.lock[q] == By(v);
    }
  }

  /** What w's code position says about q's lock is so. */
  predicate LockOk(s: Sys, w: Who, q: int)
    requires Shape(s) && Exists(s, w) && IsProc(s, q)
  {
    Holds(s, w, q) <==> s.lock[q] == By(w)
  }

  lemma SchedState(s: Sys, c: int, q: int)
    requires Shape(s) && IsCpu(s, c) && SchedEnabled(s, c) && IsProc(s, q) && CpuOk(s, c) && StateOk(s, q)
    requires var k := s.cpu[c].at; IsProc(s, k) && LockOk(s, Cpu(c), k) && LockOk(s, Proc(k), k) && StateOk(s, k)
    ensures Shape(SchedOf(s, c)) && IsProc(SchedOf(s, c), q) && StateOk(SchedOf(s, c), q)
  {
  }

  lemma SchedSize(s: Sys, c: int)
    requires Shape(s) && IsCpu(s, c) && SchedEnabled(s, c)
    ensures Shape(SchedOf(s, c)) && |SchedOf(s, c).pc| == |s.pc|
  {
  }

  lemma SchedKeepsStates(s: Sys, c: int)
    requires Inv(s) && IsCpu(s, c) && SchedEnabled(s, c)
    ensures var t := SchedOf(s, c); Shape(t) && forall q :: IsProc(t, q) ==> StateOk(t, q)
  {
    hide SchedOf, StateOk;
    var k := s.cpu[c].at;
    assert CpuOk(s, c);
    assert LockOk(s, Cpu(c), k) && LockOk(s, Proc(k), k) && StateOk(s, k);
    SchedSize(s, c);
    forall q | IsProc(s, q) ensures IsProc(SchedOf(s, c), q) && StateOk(SchedOf(s, c), q) {
      assert StateOk(s, q);
      SchedState(s, c, q);
    }
  }

  lemma SchedKeepsOn(s: Sys, c: int)
    requires Inv(s) && IsCpu(s, c) && SchedEnabled(s, c)
    ensures var t := SchedOf(s, c); Shape(t) && forall q :: IsProc(t, q) ==> OnOk(t, q)
  {
    var t := SchedOf(s, c);
    forall q | IsProc(t, q) ensures OnOk(t, q) {
      assert OnOk(s, q);
    }
  }

  lemma SchedKeepsLks(s: Sys, c: int)
    requires Inv(s) && IsCpu(s, c) && SchedEnabled(s, c)
    ensures var t := SchedOf(s, c); Shape(t) && forall q :: IsProc(t, q) ==> LksOk(t, q)
  {
    var t := SchedOf(s, c);
    forall q | IsProc(t, q) ensures LksOk(t, q) {
      assert LksOk(s, q);
    }
  }

  lemma SchedKeepsCpus(s: Sys, c: int)
    requires Inv(s) && IsCpu(s, c) && SchedEnabled(s, c)
    ensures var t := SchedOf(s, c); Shape(t) && forall d :: IsCpu(t, d) ==> CpuOk(t, d)
  {
    var t := SchedOf(s, c);
    assert CpuOk(s, c);
    var k := s.cpu[c].at;
    assert Holds(s, Cpu(c), k) <==> s.lock[k] == By(Cpu(c));
    assert Holds(s, Proc(k), k) <==> s.lock[k] == By(Proc(k));
    assert StateOk(s, k);
    forall d | IsCpu(t, d) ensures CpuOk(t, d) {
      assert d != c && s.cpu[d].Switch? && s.cpu[d].at == k ==> Holds(s, Cpu(d), k);
      assert CpuOk(s, d);
    }
  }

  lemma BeforeKeepsLocks(s: Sys, w: Who)
    requires Inv(s) && Exists(s, w) && ScanEnabled(s, w) && LoopOf(s, w).stage == Before
    ensures Shape(ScanOf(s, w)) && LocksOk(ScanOf(s, w))
  {
    var t := ScanOf(s, w);
    var k := LoopOf(s, w).at;
    assert Holds(s, w, k) <==> s.lock[k] == By(w);
    assert Holds(s, Proc(k), k) <==> s.lock[k] == By(Proc(k));
    assert StateOk(s, k);
    forall v, q | Exists(t, v) && IsProc(t, q) ensures Holds(t, v, q) <==> t.lock[q] == By(v) {
      assert Holds(s, v, q) <==> s.lock[q] == By(v);
    }
  }

  lemma HeldKeepsLocks(s: Sys, w: Who)
    requires Inv(s) && Exists(s, w) && ScanEnabled(s, w) && LoopOf(s, w).stage == Held
    ensures Shape(ScanOf(s, w)) && LocksOk(ScanOf(s, w))
  {
    var t := ScanOf(s, w);
    var k := LoopOf(s, w).at;
    assert Holds(s, w, k) <==> s.lock[k] == By(w);
    assert Holds(s, Proc(k), k) <==> s.lock[k] == By(Proc(k));
    assert StateOk(s, k);
    forall v, q | Exists(t, v) && IsProc(t, q) ensures Holds(t, v, q) <==> t.lock[q] == By(v) {
      assert Holds(s, v, q) <==> s.lock[q] == By(v);
    }
  }

  lemma TestedKeepsLocks(s: Sys, w: Who)
    requires Inv(s) && Exists(s, w) && ScanEnabled(s, w) && LoopOf(s, w).stage == Tested
    ensures Shape(ScanOf(s, w)) && LocksOk(ScanOf(s, w))
  {
    var t := ScanOf(s, w);
    var k := LoopOf(s, w).at;
    assert Holds(s, w, k) <==> s.lock[k] == By(w);
    assert Holds(s, Proc(k), k) <==> s.lock[k] == By(Proc(k));
    assert StateOk(s, k);
    forall v, q | Exists(t, v) && IsProc(t, q) ensures Holds(t, v, q) <==> t.lock[q] == By(v) {
      assert Holds(s, v, q) <==> s.lock[q] == By(v);
    }
  }

  lemma ScanSize(s: Sys, w: Who)
    requires Shape(s) && Exists(s, w) && ScanEnabled(s, w)
    ensures Shape(ScanOf(s, w)) && |ScanOf(s, w).pc| == |s.pc|
  {
  }

  lemma ScanUnmoved(s: Sys, w: Who, q: int)
    requires Shape(s) && Exists(s, w) && ScanEnabled(s, w) && IsProc(s, q) && LoopOf(s, w).at != q && w != Proc(q)
    ensures Unmoved(s, ScanOf(s, w), q)
  {
  }

  lemma BeforeState(s: Sys, w: Who, q: int)
    requires Shape(s) && Exists(s, w) && ScanEnabled(s, w) && LoopOf(s, w).stage == Before && IsProc(s, q) &&
             StateOk(s, q)
    requires LoopOf(s, w).at == q || w == Proc(q)
    requires var k := LoopOf(s, w).at; LockOk(s, w, k) && LockOk(s, Proc(k), k) && StateOk(s, k)
    ensures Shape(ScanOf(s, w)) && IsProc(ScanOf(s, w), q) && StateOk(ScanOf(s, w), q)
  {
  }

  lemma HeldState(s: Sys, w: Who, q: int)
    requires Shape(s) && Exists(s, w) && ScanEnabled(s, w) && LoopOf(s, w).stage == Held && IsProc(s, q) &&
             StateOk(s, q)
    requires LoopOf(s, w).at == q || w == Proc(q)
    requires var k := LoopOf(s, w).at; LockOk(s, w, k) && LockOk(s, Proc(k), k) && StateOk(s, k)
    ensures Shape(ScanOf(s, w)) && IsProc(ScanOf(s, w), q) && StateOk(ScanOf(s, w), q)
  {
  }

  lemma TestedState(s: Sys, w: Who, q: int)
    requires Shape(s) && Exists(s, w) && ScanEnabled(s, w) && LoopOf(s, w).stage == Tested && IsProc(s, q) &&
             StateOk(s, q)
    requires LoopOf(s, w).at == q || w == Proc(q)
    requires var k := LoopOf(s, w).at; LockOk(s, w, k) && LockOk(s, Proc(k), k) && StateOk(s, k)
    ensures Shape(ScanOf(s, w)) && IsProc(ScanOf(s, w), q) && StateOk(ScanOf(s, w), q)
  {
  }

  lemma ScanKeepsStates(s: Sys, w: Who)
    requires Inv(s) && Exists(s, w) && ScanEnabled(s, w)
    ensures var t := ScanOf(s, w); Shape(t) && forall q :: IsProc(t, q) ==> StateOk(t, q)
  {
    hide ScanOf, StateOk;
    var k := LoopOf(s, w).at;
    assert LockOk(s, w, k) && LockOk(s, Proc(k), k) && StateOk(s, k);
    ScanSize(s, w);
    forall q | IsProc(s, q) ensures IsProc(ScanOf(s, w), q) && StateOk(ScanOf(s, w), q) {
      assert StateOk(s, q);
      if k != q && w != Proc(q) {
        ScanUnmoved(s, w, q);
        UnmovedState(s, ScanOf(s, w), q);
      } else {
        match LoopOf(s, w).stage {
          case Before => BeforeState(s, w, q);
          case Held => HeldState(s, w, q);
          case Tested => TestedState(s, w, q);
        }
      }
    }
  }

  lemma ScanKeepsOn(s: Sys, w: Who)
    requires Inv(s) && Exists(s, w) && ScanEnabled(s, w)
    ensures var t := ScanOf(s, w); Shape(t) && forall q :: IsProc(t, q) ==> OnOk(t, q)
  {
    var t := ScanOf(s, w);
    forall q | IsProc(t, q) ensures OnOk(t, q) {
      assert OnOk(s, q);
    }
  }

  lemma ScanKeepsLks(s: Sys, w: Who)
    requires Inv(s) && Exists(s, w) && ScanEnabled(s, w)
    ensures var t := ScanOf(s, w); Shape(t) && forall q :: IsProc(t, q) ==> LksOk(t, q)
  {
    var t := ScanOf(s, w);
    forall q | IsProc(t, q) ensures LksOk(t, q) {
      assert LksOk(s, q);
      SameLks(s, t, q);
    }
  }

  lemma ScanKeepsCpus(s: Sys, w: Who)
    requires Inv(s) && Exists(s, w) && ScanEnabled(s, w)
    ensures var t := ScanOf(s, w); Shape(t) && forall d :: IsCpu(t, d) ==> CpuOk(t, d)
  {
    var t := ScanOf(s, w);
    forall d | IsCpu(t, d) ensures CpuOk(t, d) {
      assert CpuOk(s, d);
    }
  }

  /** Entering or leaving a function moves only the caller. */
  predicate Entry(s: Sys, p: int, pc: Pc)
    requires Shape(s) && IsProc(s, p)
  {
    && Preemptible(s.pc[p]) && (s.pc[p].Retake? ==> pc.YieldLock?)
    && (pc.Run? || (pc.Scan? && pc.stage == Before && 0 <= pc.at <= |s.pc|) ||
        (pc.SleepLock? && 0 <= pc.lk < |s.lks| && HoldsOnly(s, p, pc.lk)) ||
        (pc == YieldLock(s.pc[p]) && HoldsNone(s, p)))
  }

  lemma EntryInv(s: Sys, p: int, pc: Pc)
    requires Inv(s) && IsProc(s, p) && Entry(s, p, pc)
    ensures Inv(WithPc(s, p, pc))
  {
    var t := WithPc(s, p, pc);
    forall v, q | Exists(t, v) && IsProc(t, q) ensures Holds(t, v, q) <==> t.lock[q] == By(v) {
      assert Holds(s, v, q) <==> s.lock[q] == By(v);
    }
    forall q | IsProc(t, q) ensures StateOk(t, q) && OnOk(t, q) {
      assert StateOk(s, q) && OnOk(s, q);
    }
    forall q | IsProc(t, q) ensures LksOk(t, q) {
      EntryLks(s, p, pc, q);
    }
    forall c | IsCpu(t, c) ensures CpuOk(t, c) {
      assert CpuOk(s, c);
    }
  }

  lemma EntryLks(s: Sys, p: int, pc: Pc, q: int)
    requires Inv(s) && IsProc(s, p) && Entry(s, p, pc) && IsProc(s, q)
    ensures LksOk(WithPc(s, p, pc), q)
  {
    var t := WithPc(s, p, pc);
    assert LksOk(s, q);
    if q == p {
      assert HoldsNone(s, q) ==> HoldsNone(t, q);
      assert forall l :: HoldsOnly(s, q, l) ==> HoldsOnly(t, q, l);
    } else {
      SameLks(s, t, q);
    }
  }

  lemma HandlerInv(s: Sys, c: int, pc: CpuPc)
    requires Inv(s) && IsCpu(s, c) && (s.cpu[c].Next? || (s.cpu[c].Handler? && s.cpu[c].stage == Before))
    requires (pc.Next? && IsProc(s, pc.at)) ||
             (pc.Handler? && pc.stage == Before && 0 <= pc.at <= |s.pc| && IsProc(s, pc.back))
    ensures Inv(WithCpu(s, c, pc))
  {
    var t := WithCpu(s, c, pc);
    forall v, q | Exists(t, v) && IsProc(t, q) ensures Holds(t, v, q) <==> t.lock[q] == By(v) {
      assert Holds(s, v, q) <==> s.lock[q] == By(v);
    }
    forall q | IsProc(t, q) ensures StateOk(t, q) && OnOk(t, q) && LksOk(t, q) {
      assert StateOk(s, q) && OnOk(s, q) && LksOk(s, q);
      SameLks(s, t, q);
    }
    forall d | IsCpu(t, d) ensures CpuOk(t, d) {
      assert CpuOk(s, d);
    }
  }

  lemma LockActInv(s: Sys, w: Who, l: int, x: Lock)
    requires Inv(s) && Exists(s, w) && Idle(s, w) && 0 <= l < |s.lks|
    requires (s.lks[l].Free? && x == By(w)) || (s.lks[l] == By(w) && x.Free?)
    ensures Inv(s.(lks := s.lks[l := x]))
  {
    var t := s.(lks := s.lks[l := x]);
    forall v, q | Exists(t, v) && IsProc(t, q) ensures Holds(t, v, q) <==> t.lock[q] == By(v) {
      assert Holds(s, v, q) <==> s.lock[q] == By(v);
    }
    forall q | IsProc(t, q) ensures StateOk(t, q) && OnOk(t, q) {
      assert StateOk(s, q) && OnOk(s, q);
    }
    forall q | IsProc(t, q) ensures LksOk(t, q) {
      assert LksOk(s, q);
      if w != Proc(q) {
        assert HoldsNone(s, q) ==> HoldsNone(t, q);
        assert forall m :: HoldsOnly(s, q, m) ==> HoldsOnly(t, q, m);
      }
    }
    forall c | IsCpu(t, c) ensures CpuOk(t, c) {
      assert CpuOk(s, c);
    }
  }

  lemma ScanInv(s: Sys, w: Who)
    requires Inv(s) && Exists(s, w) && ScanEnabled(s, w)
    ensures Inv(ScanOf(s, w))
  {
    hide StateOk, OnOk, CpuOk, LksOk, LocksOk;
    match LoopOf(s, w).stage {
      case Before => BeforeKeepsLocks(s, w);
      case Held => HeldKeepsLocks(s, w);
      case Tested => TestedKeepsLocks(s, w);
    }
    ScanKeepsStates(s, w);
    ScanKeepsOn(s, w);
    ScanKeepsLks(s, w);
    ScanKeepsCpus(s, w);
  }

  /** The invariant survives every act. */
  lemma InvKept(s: Sys, a: Act)
    requires Inv(s) && Enabled(s, a)
    ensures Inv(Apply(s, a))
  {
    match a
    case Acquire(w, l) => LockActInv(s, w, l, By(w));
    case Release(w, l) => LockActInv(s, w, l, Free);
    case CallSleep(p, chan, lk) => EntryInv(s, p, SleepLock(chan, lk));
    case CallYield(p) => EntryInv(s, p, YieldLock(s.pc[p]));
    case Step(p) =>
      StepKeepsLocks(s, p); StepKeepsStates(s, p); StepKeepsOn(s, p); StepKeepsLks(s, p); StepKeepsCpus(s, p);
    case SchedStep(c) =>
      SchedKeepsLocks(s, c); SchedKeepsStates(s, c); SchedKeepsOn(s, c); SchedKeepsLks(s, c); SchedKeepsCpus(s, c);
    case CallScan(w, what) =>
      match w {
        case Proc(p) => EntryInv(s, p, Scan(what, 0, Before));
        case Cpu(c) =>
          assert CpuOk(s, c);
          HandlerInv(s, c, Handler(what, 0, Before, s.cpu[c].at));
      }
    case ScanStep(w) => ScanInv(s, w);
    case ScanReturn(w) =>
      match w {
        case Proc(p) =>
          assert StateOk(s, p);
          EntryInv(s, p, Run);
        case Cpu(c) =>
          assert CpuOk(s, c);
          HandlerInv(s, c, Next(s.cpu[c].back));
      }
  }

  /** All processes runnable, all processors at the head of their loops. */
  lemma InvInit(s: Sys)
    requires Shape(s) && |s.pc| > 0
    requires forall p :: IsProc(s, p) ==> s.pc[p] == Out(AfterYield(Run)) && s.st[p] == RUNNABLE && s.lock[p].Free?
    requires forall c :: IsCpu(s, c) ==> s.cpu[c] == Next(0)
    requires forall l :: 0 <= l < |s.lks| ==> s.lks[l].Free?
    ensures Inv(s)
  {
  }

  // ------------------------------------------------------------------- runs

  ghost predicate Legal(s: Sys, acts: seq<Act>)
    decreases |acts|
  {
    Shape(s) && (acts == [] || (Enabled(s, acts[0]) && Legal(Apply(s, acts[0]), acts[1..])))
  }

  ghost function Exec(s: Sys, acts: seq<Act>): Sys
    requires Legal(s, acts)
    decreases |acts|
  {
    if acts == [] then s else Exec(Apply(s, acts[0]), acts[1..])
  }

  lemma {:induction false} InvAlways(s: Sys, acts: seq<Act>)
    requires Inv(s) && Legal(s, acts)
    ensures Inv(Exec(s, acts))
    decreases |acts|
  {
    if acts != [] {
      InvKept(s, acts[0]);
      InvAlways(Apply(s, acts[0]), acts[1..]);
    }
  }

  // ------------------------------------------------------------- no lost wakeup

  /** p gave up its lock and is on its way to sleep, or asleep. */
  predicate Sleeps(s: Sys, p: int)
    requires Shape(s) && IsProc(s, p)
  {
    s.pc[p].SetChan? || s.pc[p].SetSleeping? || s.st[p] == SLEEPING
  }

  predicate SleepsOn(s: Sys, p: int, chan: int)
    requires Shape(s) && IsProc(s, p)
  {
    && Sleeps(s, p)
    && (if s.st[p] == SLEEPING then s.chan[p] == chan else s.pc[p].chan == chan)
  }

  /** p is not stuck in its i-th sleep any more. */
  predicate Woken(s: Sys, p: int, i: int)
    requires Shape(s) && IsProc(s, p)
  {
    s.gone[p] > i || (s.gone[p] == i && !Sleeps(s, p))
  }

  predicate Asleep(s: Sys, p: int, chan: int, i: int)
    requires Shape(s) && IsProc(s, p)
  {
    s.gone[p] == i && SleepsOn(s, p, chan)
  }

  /** What a process is doing, or will go on with after it has been preempted. */
  function Inner(pc: Pc): Pc {
    match pc
    case YieldLock(back) => back
    case SetRunnable(back) => back
    case Sched(AfterYield(back)) => back
    case Out(AfterYield(back)) => back
    case YieldUnlock(back) => back
    case _ => pc
  }

  /** The loop that w is in, preempted or not. */
  function InnerLoop(s: Sys, w: Who): Loop
    requires Exists(s, w)
  {
    match w
    case Proc(p) =>
      var pc := Inner(s.pc[p]);
      if pc.Scan? then Loop(pc.what, pc.at, pc.stage) else NoLoop
    case Cpu(_) => LoopOf(s, w)
  }

  /** w's wakeup(chan) has yet to look at p. */
  predicate ToCome(s: Sys, w: Who, p: int, chan: int)
    requires Shape(s)
  {
    && Exists(s, w) && InnerLoop(s, w).Loop? && InnerLoop(s, w).what == Wake(chan)
    && (InnerLoop(s, w).at < p || (InnerLoop(s, w).at == p && InnerLoop(s, w).stage != Tested))
  }

  /** One act takes a process from asleep to asleep or woken, and never back. */
  ghost predicate Onward(s: Sys, t: Sys, p: int)
    requires Shape(s) && IsProc(s, p)
  {
    && Shape(t) && IsProc(t, p)
    && (forall i :: Woken(s, p, i) ==> Woken(t, p, i))
    && (forall i, chan :: Asleep(s, p, chan, i) ==> Asleep(t, p, chan, i) || Woken(t, p, i))
  }

  lemma StepOnward(s: Sys, q: int, p: int)
    requires Inv(s) && IsProc(s, q) && StepEnabled(s, q) && IsProc(s, p)
    ensures Onward(s, StepOf(s, q), p)
  {
    assert StateOk(s, p);
  }

  lemma SchedOnward(s: Sys, c: int, p: int)
    requires Inv(s) && IsCpu(s, c) && SchedEnabled(s, c) && IsProc(s, p)
    ensures Onward(s, SchedOf(s, c), p)
  {
    assert StateOk(s, p);
  }

  lemma ScanOnward(s: Sys, w: Who, p: int)
    requires Inv(s) && Exists(s, w) && ScanEnabled(s, w) && IsProc(s, p)
    ensures Onward(s, ScanOf(s, w), p)
  {
    assert StateOk(s, p);
    assert Holds(s, Proc(p), p) <==> s.lock[p] == By(Proc(p));
    assert Holds(s, w, p) <==> s.lock[p] == By(w);
  }

  lemma ActOnward(s: Sys, a: Act, p: int)
    requires Inv(s) && Enabled(s, a) && IsProc(s, p)
    ensures Onward(s, Apply(s, a), p)
  {
    match a
    case Step(q) => StepOnward(s, q, p);
    case SchedStep(c) => SchedOnward(s, c, p);
    case ScanStep(w) => ScanOnward(s, w, p);
    case _ => assert StateOk(s, p);
  }

  lemma OtherScanLeavesLoop(s: Sys, v: Who, w: Who)
    requires Inv(s) && Exists(s, v) && ScanEnabled(s, v) && Exists(s, w) && v != w
    ensures Exists(ScanOf(s, v), w) && InnerLoop(ScanOf(s, v), w) == InnerLoop(s, w)
  {
  }

  /** Only w moves its own loop. */
  lemma OthersLeaveLoop(s: Sys, a: Act, w: Who)
    requires Inv(s) && Enabled(s, a) && Exists(s, w) && InnerLoop(s, w).Loop? && a != ScanStep(w) && a != ScanReturn(w)
    ensures Exists(Apply(s, a), w) && InnerLoop(Apply(s, a), w) == InnerLoop(s, w)
  {
    match a {
      case Step(p) => assert OnOk(s, p);
      case ScanStep(v) => OtherScanLeavesLoop(s, v, w);
      case _ =>
    }
  }

  /** The loop reaches p: whoever holds p's lock now, p is asleep on chan or woken. */
  lemma LoopAtSleeper(s: Sys, w: Who, p: int, chan: int, i: int)
    requires Inv(s) && IsProc(s, p) && Asleep(s, p, chan, i) && ToCome(s, w, p, chan) && ScanEnabled(s, w)
    ensures var t := ScanOf(s, w); Shape(t) && IsProc(t, p) && (ToCome(t, w, p, chan) || Woken(t, p, i))
  {
    assert StateOk(s, p);
    assert Holds(s, Proc(p), p) <==> s.lock[p] == By(Proc(p));
    assert Holds(s, w, p) <==> s.lock[p] == By(w);
  }

  /** A sleeper that a wakeup has yet to look at is woken or stays in its way. */
  lemma Chased(s: Sys, a: Act, w: Who, p: int, chan: int, i: int)
    requires Inv(s) && Enabled(s, a) && IsProc(s, p) && Asleep(s, p, chan, i) && ToCome(s, w, p, chan)
    ensures var t := Apply(s, a);
            Shape(t) && IsProc(t, p) &&
            (Woken(t, p, i) || (Asleep(t, p, chan, i) && ToCome(t, w, p, chan)))
  {
    hide Inv, ScanOf, StepOf, SchedOf;
    ActOnward(s, a, p);
    if a == ScanStep(w) {
      LoopAtSleeper(s, w, p, chan, i);
    } else {
      OthersLeaveLoop(s, a, w);
    }
  }

  lemma {:induction false} WokenAtEnd(s: Sys, acts: seq<Act>, p: int, i: int)
    requires Inv(s) && Legal(s, acts) && IsProc(s, p) && Woken(s, p, i)
    ensures var t := Exec(s, acts); Shape(t) && IsProc(t, p) && Woken(t, p, i)
    decreases |acts|
  {
    hide Apply;
    if acts != [] {
      ActOnward(s, acts[0], p);
      InvKept(s, acts[0]);
      WokenAtEnd(Apply(s, acts[0]), acts[1..], p, i);
    }
  }

  lemma {:induction false} WokenOnReturn(s: Sys, acts: seq<Act>, b: nat, w: Who, p: int, chan: int, i: int)
    requires Inv(s) && Legal(s, acts) && IsProc(s, p) && b < |acts| && acts[b] == ScanReturn(w)
    requires Asleep(s, p, chan, i) && ToCome(s, w, p, chan)
    ensures var t := Exec(s, acts); Shape(t) && IsProc(t, p) && Woken(t, p, i)
    decreases |acts|
  {
    hide Apply;
    var t := Apply(s, acts[0]);
    Chased(s, acts[0], w, p, chan, i);
    InvKept(s, acts[0]);
    if Woken(t, p, i) {
      WokenAtEnd(t, acts[1..], p, i);
    } else {
      WokenOnReturn(t, acts[1..], b - 1, w, p, chan, i);
    }
  }

  lemma {:induction false} WokenByCall(s: Sys, acts: seq<Act>, a: nat, b: nat, w: Who, p: int, chan: int, i: int)
    requires Inv(s) && Legal(s, acts) && IsProc(s, p) && a < b < |acts|
    requires acts[a] == CallScan(w, Wake(chan)) && acts[b] == ScanReturn(w)
    requires Asleep(s, p, chan, i)
    ensures var t := Exec(s, acts); Shape(t) && IsProc(t, p) && Woken(t, p, i)
    decreases |acts|
  {
    hide Inv, StepOf, SchedOf, ScanOf;
    var t := Apply(s, acts[0]);
    ActOnward(s, acts[0], p);
    InvKept(s, acts[0]);
    if Woken(t, p, i) {
      WokenAtEnd(t, acts[1..], p, i);
    } else if a == 0 {
      WokenOnReturn(t, acts[1..], b - 1, w, p, chan, i);
    } else {
      WokenByCall(t, acts[1..], a - 1, b - 1, w, p, chan, i);
    }
  }

  lemma GaveUp(s: Sys, p: int)
    requires Inv(s) && Enabled(s, Step(p)) && s.pc[p].GiveUp?
    ensures var t := Apply(s, Step(p)); Shape(t) && IsProc(t, p) && Asleep(t, p, s.pc[p].chan, s.gone[p] + 1)
  {
    assert StateOk(s, p);
  }

  /** No lost wakeup: p gives up lk in sleep(chan, lk), and later someone calls
      wakeup(chan) and returns from it. Whatever runs in between, p is then no longer
      stuck in that sleep. */
  lemma NoLostWakeup(s: Sys, acts: seq<Act>, a: nat, b: nat, w: Who, p: int, chan: int)
    requires Inv(s) && Legal(s, acts) && 0 < a < b < |acts|
    requires acts[0] == Step(p) && IsProc(s, p) && s.pc[p].GiveUp? && s.pc[p].chan == chan
    requires acts[a] == CallScan(w, Wake(chan)) && acts[b] == ScanReturn(w)
    ensures var t := Exec(s, acts); Shape(t) && IsProc(t, p) && Woken(t, p, s.gone[p] + 1)
  {
    hide Inv, Apply, Enabled, Asleep, Woken;
    var t := Apply(s, acts[0]);
    InvKept(s, acts[0]);
    GaveUp(s, p);
    WokenByCall(t, acts[1..], a - 1, b - 1, w, p, chan, s.gone[p] + 1);
  }

  /** A waker that holds lk cannot fall between a sleeper's call and its giving up lk. */
  lemma WakerAfterGiveUp(s: Sys, p: int, lk: int, w: Who)
    requires Inv(s) && IsProc(s, p) && 0 <= lk < |s.lks| && s.lks[lk] == By(w) && w != Proc(p)
    ensures !(s.pc[p].SleepLock? && s.pc[p].lk == lk) && !(s.pc[p].GiveUp? && s.pc[p].lk == lk)
  {
    assert LksOk(s, p);
  }

  /** sched() finds p->lock held, no other lock held, and the state changed. */
  lemma SchedNeverPanics(s: Sys, p: int)
    requires Inv(s) && IsProc(s, p) && s.pc[p].Sched?
    ensures s.lock[p] == By(Proc(p)) && s.st[p] != RUNNING && HoldsNone(s, p)
    ensures forall q :: IsProc(s, q) && q != p ==> s.lock[q] != By(Proc(p))
  {
    assert StateOk(s, p) && LksOk(s, p);
    forall q | IsProc(s, q) ensures s.lock[q] == By(Proc(p)) <==> q == p {
      assert Holds(s, Proc(p), q) <==> s.lock[q] == By(Proc(p));
    }
  }

  /** No process runs on two processors, or is chosen while it still runs. */
  lemma OneProcessor(s: Sys, c: int, d: int, p: int)
    requires Inv(s) && IsCpu(s, c) && IsCpu(s, d) && IsProc(s, p)
    requires s.cpu[c] == Running(p) || s.cpu[c] == Switch(p)
    requires s.cpu[d] == Running(p) || s.cpu[d] == Switch(p)
    ensures c == d
  {
    assert CpuOk(s, c) && CpuOk(s, d);
    assert Holds(s, Cpu(c), p) <==> s.lock[p] == By(Cpu(c));
    assert Holds(s, Cpu(d), p) <==> s.lock[p] == By(Cpu(d));
  }
}
