// Parents and children in xv6 (CLab/xv6/kernel/proc.c): fork, exit, reparent and wait
// of all processes, one shared-memory step at a time, in any order.
//
// Scheduling is left to sleep.dfy, and so is why sleep() may be taken here as one step
// that gives up wait_lock and sleeps. A process that is neither new nor a zombie is LIVE,
// whatever it does.

module Family {
  datatype St = UNUSED | USED | LIVE | ZOMBIE

  /** The next step of a process. */
  datatype Pc =
    | Absent                          // no process runs in this slot
    | Run                             // elsewhere
    | Alloc(at: int)                  // allocproc's look at slot at
    | Copy(np: int)                   // uvmcopy, and the rest that may fail
    | LinkTake(np: int)               // acquire(&wait_lock)
    | Link(np: int)                   // np->parent = p
    | LinkDrop(np: int)               // release(&wait_lock)
    | Start(np: int)                  // np->state = RUNNABLE
    | ExitTake                        // acquire(&wait_lock)
    | Reparent(at: int)               // reparent's look at slot at
    | ExitWake                        // wakeup(p->parent)
    | ExitLock                        // acquire(&p->lock)
    | SetZombie                       // p->state = ZOMBIE
    | ExitDrop                        // release(&wait_lock)
    | ExitSched                       // sched(): off this kernel stack, and p->lock free
    | WaitTake                        // acquire(&wait_lock)
    | Look(at: int, kids: bool)       // wait's look at slot at
    | WaitDrop                        // release(&wait_lock), and return
    | WaitSleep                       // sleep(p, &wait_lock)
    | Asleep                          // until a wakeup

  /** wl is the holder of wait_lock or NONE; reaped lists what wait() returned. */
  datatype Sys = Sys(init: int, st: seq<St>, parent: seq<int>, pid: seq<int>, pc: seq<Pc>, next: int, wl: int,
                     reaped: seq<int>)

  const NONE := -1

  datatype Call = Fork | Exit | Wait

  /** ok: whether the copies and allocations of the step succeed, or killed(p) is false.
      Rouse: kill(), or any wakeup that is not about children. */
  datatype Act = Enter(p: int, call: Call) | Step(p: int, ok: bool) | Rouse(p: int)

  predicate Shape(s: Sys) {
    |s.st| == |s.parent| == |s.pid| == |s.pc|
  }

  predicate IsSlot(s: Sys, p: int) {
    0 <= p < |s.pc|
  }

  function At(s: Sys, p: int, pc: Pc): Sys
    requires IsSlot(s, p)
  {
    s.(pc := s.pc[p := pc])
  }

  /** freeproc */
  function Freed(s: Sys, p: int): Sys
    requires Shape(s) && IsSlot(s, p)
  {
    s.(st := s.st[p := UNUSED], parent := s.parent[p := NONE], pid := s.pid[p := 0])
  }

  /** p->lock of an exiting process stays taken until the scheduler lets go of it. */
  predicate Locked(s: Sys, p: int)
    requires IsSlot(s, p)
  {
    s.pc[p].SetZombie? || s.pc[p].ExitDrop? || s.pc[p].ExitSched?
  }

  predicate Enabled(s: Sys, a: Act)
    requires Shape(s)
  {
    match a
    case Enter(p, call) => IsSlot(s, p) && s.pc[p].Run? && !(call == Exit && p == s.init) // "init exiting"
    case Step(p, ok) =>
      IsSlot(s, p) &&
      match s.pc[p] {
        case Absent => false
        case Run => false
        case Asleep => false
        case LinkTake(_) => s.wl == NONE
        case ExitTake => s.wl == NONE
        case WaitTake => s.wl == NONE
        case Look(q, _) => IsSlot(s, q) && s.parent[q] == p ==> !Locked(s, q)
        case Copy(np) => IsSlot(s, np)
        case Link(np) => IsSlot(s, np)
        case Start(np) => IsSlot(s, np)
        case Alloc(q) => 0 <= q
        case Reparent(q) => 0 <= q
        case _ => true
      }
    case Rouse(p) => IsSlot(s, p) && s.pc[p].Asleep?
  }

  /** wakeup(p): out of the sleep, and on to taking wait_lock again. */
  function Woken(s: Sys, p: int): Sys {
    if IsSlot(s, p) && s.pc[p].Asleep? then s.(pc := s.pc[p := WaitTake]) else s
  }

  function Apply(s: Sys, a: Act): Sys
    requires Shape(s) && Enabled(s, a)
  {
    match a
    case Enter(p, Fork) => At(s, p, Alloc(0))
    case Enter(p, Exit) => At(s, p, ExitTake)
    case Enter(p, Wait) => At(s, p, WaitTake)
    case Step(p, ok) => StepOf(s, p, ok)
    case Rouse(p) => Woken(s, p)
  }

  predicate InFork(pc: Pc) {
    pc.Alloc? || pc.Copy? || pc.LinkTake? || pc.Link? || pc.LinkDrop? || pc.Start?
  }

  predicate InExit(pc: Pc) {
    pc.ExitTake? || pc.Reparent? || pc.ExitWake? || pc.ExitLock? || pc.SetZombie? || pc.ExitDrop? || pc.ExitSched?
  }

  /** One step of fork and allocproc. */
  function ForkOf(s: Sys, p: int, ok: bool): (t: Sys)
    requires Shape(s) && Enabled(s, Step(p, ok))
    ensures Shape(t) && |t.pc| == |s.pc| && t.init == s.init
  {
    match s.pc[p]
    case Alloc(q) =>
      if q >= |s.pc| then At(s, p, Run)
      else if s.st[q] != UNUSED then At(s, p, Alloc(q + 1))
      else if !ok then At(s.(next := s.next + 1), p, Run) // allocated, and freed again
      else At(s.(st := s.st[q := USED], pid := s.pid[q := s.next], next := s.next + 1), p, Copy(q))
    case Copy(np) => if ok then At(s, p, LinkTake(np)) else At(Freed(s, np), p, Run)
    case LinkTake(np) => At(s.(wl := p), p, Link(np))
    case Link(np) => At(s.(parent := s.parent[np := p]), p, LinkDrop(np))
    case LinkDrop(np) => At(s.(wl := NONE), p, Start(np))
    case Start(np) => At(At(s.(st := s.st[np := LIVE]), np, Run), p, Run)
    case _ => s
  }

  /** One step of exit and reparent. */
  function ExitOf(s: Sys, p: int, ok: bool): (t: Sys)
    requires Shape(s) && Enabled(s, Step(p, ok))
    ensures Shape(t) && |t.pc| == |s.pc| && t.init == s.init
  {
    match s.pc[p]
    case ExitTake => At(s.(wl := p), p, Reparent(0))
    case Reparent(q) =>
      if q >= |s.pc| then At(s, p, ExitWake)
      else At(if s.parent[q] == p then Woken(s.(parent := s.parent[q := s.init]), s.init) else s, p, Reparent(q + 1))
    case ExitWake => At(Woken(s, s.parent[p]), p, ExitLock)
    case ExitLock => At(s, p, SetZombie)
    case SetZombie => At(s.(st := s.st[p := ZOMBIE]), p, ExitDrop)
    case ExitDrop => At(s.(wl := NONE), p, ExitSched)
    case ExitSched => At(s, p, Absent)
    case _ => s
  }

  /** One step of wait. */
  function WaitOf(s: Sys, p: int, ok: bool): (t: Sys)
    requires Shape(s) && Enabled(s, Step(p, ok))
    ensures Shape(t) && |t.pc| == |s.pc| && t.init == s.init
  {
    match s.pc[p]
    case WaitTake => At(s.(wl := p), p, Look(0, false))
    case Look(q, kids) =>
      if !IsSlot(s, q) then At(s, p, if kids && ok then WaitSleep else WaitDrop)
      else if s.parent[q] != p then At(s, p, Look(q + 1, kids))
      else if s.st[q] != ZOMBIE then At(s, p, Look(q + 1, true))
      else if !ok then At(s, p, WaitDrop)
      else At(Freed(s.(reaped := s.reaped + [s.pid[q]]), q), p, WaitDrop)
    case WaitDrop => At(s.(wl := NONE), p, Run)
    case WaitSleep => At(s.(wl := NONE), p, Asleep)
    case _ => s
  }

  function StepOf(s: Sys, p: int, ok: bool): (t: Sys)
    requires Shape(s) && Enabled(s, Step(p, ok))
    ensures Shape(t) && |t.pc| == |s.pc| && t.init == s.init
  {
    if InFork(s.pc[p]) then ForkOf(s, p, ok) else if InExit(s.pc[p]) then ExitOf(s, p, ok) else WaitOf(s, p, ok)
  }

  // --------------------------------------------------------------- invariants

  predicate HasWaitLock(pc: Pc) {
    pc.Link? || pc.LinkDrop? || pc.Reparent? || pc.ExitWake? || pc.ExitLock? || pc.SetZombie? || pc.ExitDrop? ||
    pc.Look? || pc.WaitDrop? ||
    pc.WaitSleep?
  }

  function NewOf(pc: Pc): int {
    if pc.Copy? || pc.LinkTake? || pc.Link? || pc.LinkDrop? || pc.Start? then pc.np else NONE
  }

  predicate LockOk(s: Sys, p: int)
    requires Shape(s) && IsSlot(s, p)
  {
    HasWaitLock(s.pc[p]) <==> s.wl == p
  }

  /** What the position of p means for its own slot and for the one it is filling. */
  predicate PlaceOk(s: Sys, p: int)
    requires Shape(s) && IsSlot(s, p)
  {
    && (s.pc[p].Absent? ==> s.st[p] != LIVE)
    && (s.pc[p].ExitDrop? || s.pc[p].ExitSched? ==> s.st[p] == ZOMBIE)
    && (!s.pc[p].Absent? && !s.pc[p].ExitDrop? && !s.pc[p].ExitSched? ==> s.st[p] == LIVE)
    && (NewOf(s.pc[p]) != NONE ==> NewOk(s, p, NewOf(s.pc[p])))
    && (s.pc[p].Alloc? ==> 0 <= s.pc[p].at)
    && (s.pc[p].Look? ==> 0 <= s.pc[p].at)
    && (s.pc[p].Reparent? ==> 0 <= s.pc[p].at)
    && (s.pc[p].ExitTake? || s.pc[p].Reparent? || s.pc[p].ExitWake? || s.pc[p].ExitLock? || s.pc[p].SetZombie? ==>
          p != s.init)
  }

  predicate NewOk(s: Sys, p: int, np: int)
    requires Shape(s) && IsSlot(s, p)
  {
    && IsSlot(s, np) && s.st[np] == USED
    && s.parent[np] == (if s.pc[p].LinkDrop? || s.pc[p].Start? then p else NONE)
  }

  /** Two processes never fill the same slot. */
  predicate Apart(s: Sys, p: int, q: int)
    requires Shape(s) && IsSlot(s, p) && IsSlot(s, q)
  {
    p == q || NewOf(s.pc[p]) == NONE || NewOf(s.pc[p]) != NewOf(s.pc[q])
  }

  /** Every parent is alive, and whoever ran has one. */
  predicate ParentOk(s: Sys, q: int)
    requires Shape(s) && IsSlot(s, q)
  {
    && (s.parent[q] != NONE ==> IsSlot(s, s.parent[q]) && s.st[s.parent[q]] == LIVE && s.st[q] != UNUSED)
    && ((s.st[q] == LIVE || s.st[q] == ZOMBIE) && q != s.init ==> s.parent[q] != NONE)
  }

  /** How far p has got with its children. */
  ghost predicate KidsOk(s: Sys, p: int)
    requires Shape(s) && IsSlot(s, p)
  {
    match s.pc[p]
    case Reparent(k) => forall q :: 0 <= q < k && q < |s.pc| ==> s.parent[q] != p
    case ExitWake => forall q :: IsSlot(s, q) ==> s.parent[q] != p
    case ExitLock => forall q :: IsSlot(s, q) ==> s.parent[q] != p
    case SetZombie => forall q :: IsSlot(s, q) ==> s.parent[q] != p
    case Look(k, kids) =>
      forall q :: 0 <= q < k && q < |s.pc| && s.parent[q] == p ==> kids && s.st[q] != ZOMBIE
    case WaitSleep => forall q :: IsSlot(s, q) && s.parent[q] == p ==> s.st[q] != ZOMBIE
    case Asleep => forall q :: IsSlot(s, q) && s.parent[q] == p ==> s.st[q] != ZOMBIE
    case _ => true
  }

  /** Once p has woken its parent, and until it is a zombie, the parent does not sleep. */
  predicate WakeOk(s: Sys, p: int)
    requires Shape(s) && IsSlot(s, p)
  {
    s.pc[p].ExitLock? || s.pc[p].SetZombie? ==> !(IsSlot(s, s.parent[p]) && s.pc[s.parent[p]].Asleep?)
  }

  /** Pids in use are new, and not among those that wait() has returned. */
  ghost predicate PidOk(s: Sys, p: int)
    requires Shape(s) && IsSlot(s, p)
  {
    s.st[p] != UNUSED ==> 0 < s.pid[p] < s.next && s.pid[p] !in s.reaped
  }

  predicate PidsApart(s: Sys, p: int, q: int)
    requires Shape(s) && IsSlot(s, p) && IsSlot(s, q)
  {
    p != q && s.st[p] != UNUSED && s.st[q] != UNUSED ==> s.pid[p] != s.pid[q]
  }

  ghost predicate ReapedOk(s: Sys) {
    && (forall i :: 0 <= i < |s.reaped| ==> 0 < s.reaped[i] < s.next)
    && (forall i, j :: 0 <= i < j < |s.reaped| ==> s.reaped[i] != s.reaped[j])
    && 0 < s.next
  }

  ghost predicate Inv(s: Sys) {
    && Shape(s) && IsSlot(s, s.init) && s.st[s.init] == LIVE && (s.wl == NONE || IsSlot(s, s.wl)) && ReapedOk(s)
    && (forall p {:trigger LockOk(s, p)} :: IsSlot(s, p) ==> LockOk(s, p))
    && (forall p {:trigger PlaceOk(s, p)} :: IsSlot(s, p) ==> PlaceOk(s, p))
    && (forall p {:trigger ParentOk(s, p)} :: IsSlot(s, p) ==> ParentOk(s, p))
    && (forall p {:trigger KidsOk(s, p)} :: IsSlot(s, p) ==> KidsOk(s, p))
    && (forall p {:trigger WakeOk(s, p)} :: IsSlot(s, p) ==> WakeOk(s, p))
    && (forall p {:trigger PidOk(s, p)} :: IsSlot(s, p) ==> PidOk(s, p))
    && (forall p, q {:trigger Apart(s, p, q)} :: IsSlot(s, p) && IsSlot(s, q) ==> Apart(s, p, q))
    && (forall p, q {:trigger PidsApart(s, p, q)} :: IsSlot(s, p) && IsSlot(s, q) ==> PidsApart(s, p, q))
  }

  // ------------------------------------------------------------ one step keeps it
  // Where a proof takes the steps of fork, exit and wait apart, its parts say so in their names.

  lemma StepLock(s: Sys, p: int, ok: bool, q: int)
    requires Shape(s) && Enabled(s, Step(p, ok)) && IsSlot(s, q)
    requires PlaceOk(s, p) && LockOk(s, p) && LockOk(s, q) && PlaceOk(s, q)
    ensures var t := StepOf(s, p, ok); Shape(t) && IsSlot(t, q) && LockOk(t, q)
  {
  }

  lemma OwnPlaceInFork(s: Sys, p: int, ok: bool)
    requires Shape(s) && Enabled(s, Step(p, ok)) && PlaceOk(s, p)
    requires InFork(s.pc[p])
    requires s.pc[p].Alloc? && IsSlot(s, s.pc[p].at) ==> ParentOk(s, s.pc[p].at)
    ensures var t := StepOf(s, p, ok); Shape(t) && IsSlot(t, p) && PlaceOk(t, p)
  {
    hide ExitOf, WaitOf;
  }

  lemma OwnPlaceInExit(s: Sys, p: int, ok: bool)
    requires Shape(s) && Enabled(s, Step(p, ok)) && PlaceOk(s, p)
    requires InExit(s.pc[p])
    ensures var t := StepOf(s, p, ok); Shape(t) && IsSlot(t, p) && PlaceOk(t, p)
  {
    hide ForkOf, WaitOf;
  }

  lemma OwnPlaceInWait(s: Sys, p: int, ok: bool)
    requires Shape(s) && Enabled(s, Step(p, ok)) && PlaceOk(s, p)
    requires !InFork(s.pc[p]) && !InExit(s.pc[p])
    ensures var t := StepOf(s, p, ok); Shape(t) && IsSlot(t, p) && PlaceOk(t, p)
  {
    hide ForkOf, ExitOf;
  }

  lemma OwnPlace(s: Sys, p: int, ok: bool)
    requires Shape(s) && Enabled(s, Step(p, ok)) && PlaceOk(s, p)
    requires s.pc[p].Alloc? && IsSlot(s, s.pc[p].at) ==> ParentOk(s, s.pc[p].at)
    ensures var t := StepOf(s, p, ok); Shape(t) && IsSlot(t, p) && PlaceOk(t, p)
  {
    hide ForkOf, ExitOf, WaitOf;
    if InFork(s.pc[p]) {
      OwnPlaceInFork(s, p, ok);
    } else if InExit(s.pc[p]) {
      OwnPlaceInExit(s, p, ok);
    } else {
      OwnPlaceInWait(s, p, ok);
    }
  }

  lemma OtherPlace(s: Sys, p: int, ok: bool, q: int)
    requires Shape(s) && Enabled(s, Step(p, ok)) && IsSlot(s, q) && q != p
    requires PlaceOk(s, p) && PlaceOk(s, q) && Apart(s, p, q)
    ensures var t := StepOf(s, p, ok); Shape(t) && IsSlot(t, q) && PlaceOk(t, q)
  {
    hide NewOk, StepOf;
    OtherSlot(s, p, ok, q);
    if NewOf(s.pc[q]) != NONE {
      OtherNew(s, p, ok, q, NewOf(s.pc[q]));
    }
  }

  /** Another slot changes state only if p fills it or reaps it. */
  lemma OtherSlot(s: Sys, p: int, ok: bool, q: int)
    requires Shape(s) && Enabled(s, Step(p, ok)) && IsSlot(s, q) && q != p && PlaceOk(s, p) && PlaceOk(s, q)
    ensures var t := StepOf(s, p, ok);
            Shape(t) && |t.pc| == |s.pc| && t.init == s.init && (NewOf(s.pc[q]) != NONE ==> t.pc[q] == s.pc[q]) &&
            (t.pc[q] == s.pc[q] || (t.pc[q].Run? && t.st[q] == LIVE) ||
             (s.pc[q].Asleep? && t.pc[q].WaitTake? && t.st[q] == s.st[q])) &&
            (t.pc[q] == s.pc[q] ==> t.st[q] == s.st[q] || (s.pc[q].Absent? && t.st[q] != LIVE))
  {
  }

  lemma OtherNew(s: Sys, p: int, ok: bool, q: int, np: int)
    requires Shape(s) && Enabled(s, Step(p, ok)) && IsSlot(s, q) && q != p
    requires PlaceOk(s, p) && PlaceOk(s, q) && NewOk(s, q, np) && np != NewOf(s.pc[p]) && np == NewOf(s.pc[q]) != NONE
    ensures var t := StepOf(s, p, ok); Shape(t) && t.pc[q] == s.pc[q] && NewOk(t, q, np)
  {
  }

  lemma StepParent(s: Sys, p: int, ok: bool, q: int)
    requires Shape(s) && Enabled(s, Step(p, ok)) && IsSlot(s, q) && IsSlot(s, s.init) && s.st[s.init] == LIVE
    requires PlaceOk(s, p) && KidsOk(s, p) && ParentOk(s, q) && PlaceOk(s, q)
    ensures var t := StepOf(s, p, ok); Shape(t) && IsSlot(t, q) && ParentOk(t, q)
  {
  }

  lemma OwnKidsInFork(s: Sys, p: int, ok: bool)
    requires Shape(s) && Enabled(s, Step(p, ok)) && PlaceOk(s, p) && KidsOk(s, p)
    requires InFork(s.pc[p])
    ensures var t := StepOf(s, p, ok); Shape(t) && IsSlot(t, p) && KidsOk(t, p)
  {
    hide ExitOf, WaitOf;
  }

  lemma OwnKidsInExit(s: Sys, p: int, ok: bool)
    requires Shape(s) && Enabled(s, Step(p, ok)) && PlaceOk(s, p) && KidsOk(s, p)
    requires InExit(s.pc[p])
    ensures var t := StepOf(s, p, ok); Shape(t) && IsSlot(t, p) && KidsOk(t, p)
  {
    hide ForkOf, WaitOf;
  }

  lemma OwnKidsInWait(s: Sys, p: int, ok: bool)
    requires Shape(s) && Enabled(s, Step(p, ok)) && PlaceOk(s, p) && KidsOk(s, p)
    requires !InFork(s.pc[p]) && !InExit(s.pc[p])
    ensures var t := StepOf(s, p, ok); Shape(t) && IsSlot(t, p) && KidsOk(t, p)
  {
    hide ForkOf, ExitOf;
  }

  lemma OwnKids(s: Sys, p: int, ok: bool)
    requires Shape(s) && Enabled(s, Step(p, ok)) && PlaceOk(s, p) && KidsOk(s, p)
    ensures var t := StepOf(s, p, ok); Shape(t) && IsSlot(t, p) && KidsOk(t, p)
  {
    hide ForkOf, ExitOf, WaitOf;
    if InFork(s.pc[p]) {
      OwnKidsInFork(s, p, ok);
    } else if InExit(s.pc[p]) {
      OwnKidsInExit(s, p, ok);
    } else {
      OwnKidsInWait(s, p, ok);
    }
  }

  /** Without wait_lock, no other process gains a child or sees one become a zombie. */
  lemma OtherKids(s: Sys, p: int, ok: bool, q: int)
    requires Shape(s) && Enabled(s, Step(p, ok)) && IsSlot(s, q) && q != p
    requires PlaceOk(s, p) && LockOk(s, p) && LockOk(s, q) && KidsOk(s, q) && PlaceOk(s, q) && WakeOk(s, p)
    ensures var t := StepOf(s, p, ok); Shape(t) && IsSlot(t, q) && KidsOk(t, q)
  {
    hide StepOf, PlaceOk;
    OtherSlot(s, p, ok, q);
    if HasWaitLock(s.pc[q]) {
      NoNewKids(s, p, ok, q);
    } else if s.pc[q].Asleep? {
      SleeperKids(s, p, ok, q);
    }
  }

  lemma NoNewKids(s: Sys, p: int, ok: bool, q: int)
    requires Shape(s) && Enabled(s, Step(p, ok)) && IsSlot(s, q) && q != p && PlaceOk(s, p) && PlaceOk(s, q)
    requires !HasWaitLock(s.pc[p]) && HasWaitLock(s.pc[q])
    ensures var t := StepOf(s, p, ok); Shape(t) && t.pc[q] == s.pc[q]
    ensures var t := StepOf(s, p, ok);
            forall r :: IsSlot(s, r) ==> (
              && (t.parent[r] == s.parent[r] || t.parent[r] == NONE)
              && (t.st[r] == s.st[r] || t.st[r] != ZOMBIE))
  {
  }

  lemma SleeperKidsInFork(s: Sys, p: int, ok: bool, q: int)
    requires Shape(s) && Enabled(s, Step(p, ok)) && IsSlot(s, q) && q != p && PlaceOk(s, p) && PlaceOk(s, q)
    requires InFork(s.pc[p])
    requires s.pc[q].Asleep? && KidsOk(s, q) && WakeOk(s, p)
    ensures var t := StepOf(s, p, ok); Shape(t) && IsSlot(t, q) && KidsOk(t, q)
  {
    hide ExitOf, WaitOf;
    var t := StepOf(s, p, ok);
    if t.pc[q].Asleep? {
      forall r | IsSlot(t, r) && t.parent[r] == q ensures t.st[r] != ZOMBIE {
      }
    }
  }

  lemma SleeperKidsInExit(s: Sys, p: int, ok: bool, q: int)
    requires Shape(s) && Enabled(s, Step(p, ok)) && IsSlot(s, q) && q != p && PlaceOk(s, p) && PlaceOk(s, q)
    requires InExit(s.pc[p])
    requires s.pc[q].Asleep? && KidsOk(s, q) && WakeOk(s, p)
    ensures var t := StepOf(s, p, ok); Shape(t) && IsSlot(t, q) && KidsOk(t, q)
  {
    hide ForkOf, WaitOf;
    var t := StepOf(s, p, ok);
    if t.pc[q].Asleep? {
      forall r | IsSlot(t, r) && t.parent[r] == q ensures t.st[r] != ZOMBIE {
      }
    }
  }

  lemma SleeperKidsInWait(s: Sys, p: int, ok: bool, q: int)
    requires Shape(s) && Enabled(s, Step(p, ok)) && IsSlot(s, q) && q != p && PlaceOk(s, p) && PlaceOk(s, q)
    requires !InFork(s.pc[p]) && !InExit(s.pc[p])
    requires s.pc[q].Asleep? && KidsOk(s, q) && WakeOk(s, p)
    ensures var t := StepOf(s, p, ok); Shape(t) && IsSlot(t, q) && KidsOk(t, q)
  {
    hide ForkOf, ExitOf;
    var t := StepOf(s, p, ok);
    if t.pc[q].Asleep? {
      forall r | IsSlot(t, r) && t.parent[r] == q ensures t.st[r] != ZOMBIE {
      }
    }
  }

  /** A process asleep in wait() has no zombie child, or is woken. */
  lemma SleeperKids(s: Sys, p: int, ok: bool, q: int)
    requires Shape(s) && Enabled(s, Step(p, ok)) && IsSlot(s, q) && q != p && PlaceOk(s, p) && PlaceOk(s, q)
    requires s.pc[q].Asleep? && KidsOk(s, q) && WakeOk(s, p)
    ensures var t := StepOf(s, p, ok); Shape(t) && IsSlot(t, q) && KidsOk(t, q)
  {
    hide ForkOf, ExitOf, WaitOf;
    if InFork(s.pc[p]) {
      SleeperKidsInFork(s, p, ok, q);
    } else if InExit(s.pc[p]) {
      SleeperKidsInExit(s, p, ok, q);
    } else {
      SleeperKidsInWait(s, p, ok, q);
    }
  }

  lemma StepWakeInFork(s: Sys, p: int, ok: bool, q: int)
    requires Shape(s) && Enabled(s, Step(p, ok)) && IsSlot(s, q)
    requires InFork(s.pc[p])
    requires PlaceOk(s, p) && PlaceOk(s, q) && LockOk(s, p) && LockOk(s, q) && WakeOk(s, q)
    ensures var t := StepOf(s, p, ok); Shape(t) && IsSlot(t, q) && WakeOk(t, q)
  {
    hide ExitOf, WaitOf;
  }

  lemma StepWakeInExit(s: Sys, p: int, ok: bool, q: int)
    requires Shape(s) && Enabled(s, Step(p, ok)) && IsSlot(s, q)
    requires InExit(s.pc[p])
    requires PlaceOk(s, p) && PlaceOk(s, q) && LockOk(s, p) && LockOk(s, q) && WakeOk(s, q)
    ensures var t := StepOf(s, p, ok); Shape(t) && IsSlot(t, q) && WakeOk(t, q)
  {
    hide ForkOf, WaitOf;
  }

  lemma StepWakeInWait(s: Sys, p: int, ok: bool, q: int)
    requires Shape(s) && Enabled(s, Step(p, ok)) && IsSlot(s, q)
    requires !InFork(s.pc[p]) && !InExit(s.pc[p])
    requires PlaceOk(s, p) && PlaceOk(s, q) && LockOk(s, p) && LockOk(s, q) && WakeOk(s, q)
    ensures var t := StepOf(s, p, ok); Shape(t) && IsSlot(t, q) && WakeOk(t, q)
  {
    hide ForkOf, ExitOf;
  }

  lemma StepWake(s: Sys, p: int, ok: bool, q: int)
    requires Shape(s) && Enabled(s, Step(p, ok)) && IsSlot(s, q)
    requires PlaceOk(s, p) && PlaceOk(s, q) && LockOk(s, p) && LockOk(s, q) && WakeOk(s, q)
    ensures var t := StepOf(s, p, ok); Shape(t) && IsSlot(t, q) && WakeOk(t, q)
  {
    hide ForkOf, ExitOf, WaitOf;
    if InFork(s.pc[p]) {
      StepWakeInFork(s, p, ok, q);
    } else if InExit(s.pc[p]) {
      StepWakeInExit(s, p, ok, q);
    } else {
      StepWakeInWait(s, p, ok, q);
    }
  }

  lemma StepPid(s: Sys, p: int, ok: bool, q: int)
    requires Shape(s) && Enabled(s, Step(p, ok)) && IsSlot(s, q) && ReapedOk(s)
    requires PlaceOk(s, p) && PidOk(s, q)
    requires s.pc[p].Look? && IsSlot(s, s.pc[p].at) ==> PidsApart(s, q, s.pc[p].at)
    ensures var t := StepOf(s, p, ok); Shape(t) && IsSlot(t, q) && PidOk(t, q)
  {
  }

  lemma StepReaped(s: Sys, p: int, ok: bool)
    requires Shape(s) && Enabled(s, Step(p, ok)) && ReapedOk(s)
    requires s.pc[p].Look? && IsSlot(s, s.pc[p].at) ==> PidOk(s, s.pc[p].at)
    ensures ReapedOk(StepOf(s, p, ok))
  {
  }

  lemma NewChange(s: Sys, p: int, ok: bool, q: int)
    requires Shape(s) && Enabled(s, Step(p, ok)) && IsSlot(s, q) && PlaceOk(s, p) && PlaceOk(s, q)
    ensures var t := StepOf(s, p, ok);
            Shape(t) && IsSlot(t, q) &&
            (NewOf(t.pc[q]) == NewOf(s.pc[q]) || NewOf(t.pc[q]) == NONE ||
             (q == p && IsSlot(s, NewOf(t.pc[q])) && s.st[NewOf(t.pc[q])] == UNUSED))
  {
  }

  lemma StepApart(s: Sys, p: int, ok: bool, q: int, r: int)
    requires Shape(s) && Enabled(s, Step(p, ok)) && IsSlot(s, q) && IsSlot(s, r)
    requires PlaceOk(s, p) && PlaceOk(s, q) && PlaceOk(s, r) && Apart(s, q, r)
    ensures var t := StepOf(s, p, ok); Shape(t) && IsSlot(t, q) && IsSlot(t, r) && Apart(t, q, r)
  {
    hide StepOf;
    NewChange(s, p, ok, q);
    NewChange(s, p, ok, r);
  }

  lemma StepPidsApart(s: Sys, p: int, ok: bool, q: int, r: int)
    requires Shape(s) && Enabled(s, Step(p, ok)) && IsSlot(s, q) && IsSlot(s, r)
    requires PlaceOk(s, p) && PidOk(s, q) && PidOk(s, r) && PidsApart(s, q, r)
    ensures var t := StepOf(s, p, ok); Shape(t) && IsSlot(t, q) && IsSlot(t, r) && PidsApart(t, q, r)
  {
  }

  lemma StepInv(s: Sys, p: int, ok: bool)
    requires Inv(s) && Enabled(s, Step(p, ok))
    ensures Inv(StepOf(s, p, ok))
  {
    hide PlaceOk, ParentOk, KidsOk, LockOk, PidOk, PidsApart, Apart, WakeOk, StepOf;
    InitLives(s, p, ok);
    var t := StepOf(s, p, ok);
    forall q | IsSlot(s, q)
      ensures IsSlot(t, q) && LockOk(t, q) && PlaceOk(t, q) && ParentOk(t, q) && KidsOk(t, q) && WakeOk(t, q) &&
              PidOk(t, q)
    {
      StepLock(s, p, ok, q);
      StepWake(s, p, ok, q);
      StepParent(s, p, ok, q);
      StepPid(s, p, ok, q);
      if q == p {
        OwnPlace(s, p, ok);
        OwnKids(s, p, ok);
      } else {
        OtherPlace(s, p, ok, q);
        OtherKids(s, p, ok, q);
      }
    }
    forall q, r | IsSlot(s, q) && IsSlot(s, r) ensures Apart(t, q, r) && PidsApart(t, q, r) {
      StepApart(s, p, ok, q, r);
      StepPidsApart(s, p, ok, q, r);
    }
    StepReaped(s, p, ok);
  }

  lemma InitLives(s: Sys, p: int, ok: bool)
    requires Inv(s) && Enabled(s, Step(p, ok))
    ensures var t := StepOf(s, p, ok);
            Shape(t) && |t.pc| == |s.pc| && t.init == s.init && t.st[t.init] == LIVE &&
            (t.wl == NONE || IsSlot(t, t.wl))
  {
    assert PlaceOk(s, p) && PlaceOk(s, s.init);
  }

  /** Entering a function, or being woken, moves one process, without wait_lock. */
  predicate Entry(s: Sys, p: int, pc: Pc)
    requires Shape(s) && IsSlot(s, p)
  {
    && (s.pc[p].Run? || s.pc[p].Asleep?) && (pc == Alloc(0) || pc.ExitTake? || pc.WaitTake?)
    && (pc.ExitTake? ==> p != s.init)
  }

  lemma EntryPlace(s: Sys, p: int, pc: Pc, q: int)
    requires Shape(s) && IsSlot(s, p) && Entry(s, p, pc) && IsSlot(s, q)
    requires PlaceOk(s, q) && LockOk(s, q) && WakeOk(s, q)
    ensures PlaceOk(At(s, p, pc), q) && LockOk(At(s, p, pc), q) && WakeOk(At(s, p, pc), q)
  {
  }

  lemma EntryKids(s: Sys, p: int, pc: Pc, q: int)
    requires Shape(s) && IsSlot(s, p) && Entry(s, p, pc) && IsSlot(s, q)
    requires ParentOk(s, q) && KidsOk(s, q) && PidOk(s, q)
    ensures ParentOk(At(s, p, pc), q) && KidsOk(At(s, p, pc), q) && PidOk(At(s, p, pc), q)
  {
  }

  lemma EntryApart(s: Sys, p: int, pc: Pc, q: int, r: int)
    requires Shape(s) && IsSlot(s, p) && Entry(s, p, pc) && IsSlot(s, q) && IsSlot(s, r)
    requires Apart(s, q, r) && PidsApart(s, q, r)
    ensures Apart(At(s, p, pc), q, r) && PidsApart(At(s, p, pc), q, r)
  {
  }

  lemma EntryInv(s: Sys, p: int, pc: Pc)
    requires Inv(s) && IsSlot(s, p) && Entry(s, p, pc)
    ensures Inv(At(s, p, pc))
  {
    hide PlaceOk, ParentOk, KidsOk, LockOk, PidOk, PidsApart, Apart, WakeOk;
    var t := At(s, p, pc);
    forall q | IsSlot(s, q)
      ensures PlaceOk(t, q) && ParentOk(t, q) && KidsOk(t, q) && LockOk(t, q) && WakeOk(t, q) && PidOk(t, q)
    {
      EntryPlace(s, p, pc, q);
      EntryKids(s, p, pc, q);
    }
    forall q, r | IsSlot(s, q) && IsSlot(s, r) ensures Apart(t, q, r) && PidsApart(t, q, r) {
      EntryApart(s, p, pc, q, r);
    }
  }

  lemma InvKept(s: Sys, a: Act)
    requires Inv(s) && Enabled(s, a)
    ensures Inv(Apply(s, a))
  {
    hide Inv, StepOf;
    match a
    case Step(p, ok) => StepInv(s, p, ok);
    case Enter(p, call) => EntryInv(s, p, match call case Fork => Alloc(0) case Exit => ExitTake case Wait => WaitTake);
    case Rouse(p) => EntryInv(s, p, WaitTake);
  }

  /** userinit: only init, in slot 0. */
  lemma InvInit(s: Sys)
    requires Shape(s) && |s.pc| > 0 && s.init == 0 && s.wl == NONE && s.reaped == [] && s.next == 2
    requires s.st[0] == LIVE && s.pc[0] == Run && s.parent[0] == NONE && s.pid[0] == 1
    requires forall p :: 0 < p < |s.pc| ==> s.st[p] == UNUSED && s.pc[p] == Absent && s.parent[p] == NONE
    ensures Inv(s)
  {
  }

  // ------------------------------------------------------------------- runs

  ghost predicate Legal(s: Sys, acts: seq<Act>)
    decreases |acts|
  {
    Shape(s) && (acts == [] || (Enabled(s, acts[0]) && Legal(Apply(s, acts[0]), acts[1..])))
  }

  ghost function Exec(s: Sys, acts: seq<Act>): Sys
    requires Legal(s, acts)
    decreases |acts|
  {
    if acts == [] then s else Exec(Apply(s, acts[0]), acts[1..])
  }

  lemma {:induction false} InvAlways(s: Sys, acts: seq<Act>)
    requires Inv(s) && Legal(s, acts)
    ensures Inv(Exec(s, acts))
    decreases |acts|
  {
    hide Inv, Apply;
    if acts != [] {
      InvKept(s, acts[0]);
      InvAlways(Apply(s, acts[0]), acts[1..]);
    }
  }

  /** In every state of every run, a parent is alive, and whoever ran (a zombie above
      all) has one, init excepted; and wait() returns each pid at most once. */
  lemma FamilySafety(s: Sys, acts: seq<Act>)
    requires Inv(s) && Legal(s, acts)
    ensures var t := Exec(s, acts);
            Shape(t) && |t.pc| > 0 &&
            (forall q :: IsSlot(t, q) && t.parent[q] != NONE ==> IsSlot(t, t.parent[q]) && t.st[t.parent[q]] == LIVE) &&
            (forall q :: IsSlot(t, q) && t.st[q] == ZOMBIE ==> t.parent[q] != NONE) &&
            (forall i, j :: 0 <= i < j < |t.reaped| ==> t.reaped[i] != t.reaped[j]) &&
            (forall q :: IsSlot(t, q) && t.st[q] != UNUSED ==> t.pid[q] !in t.reaped)
  {
    InvAlways(s, acts);
    var t := Exec(s, acts);
    forall q | IsSlot(t, q) ensures ParentOk(t, q) && PidOk(t, q) && (t.st[q] == ZOMBIE ==> q != t.init) {
      assert ParentOk(t, q) && PidOk(t, q);
    }
  }

  /** wait() goes to sleep, or returns for want of children, only when that is so. */
  lemma WaitMissesNothing(s: Sys, p: int)
    requires Inv(s) && IsSlot(s, p)
    ensures s.pc[p].WaitSleep? ==> forall q :: IsSlot(s, q) && s.parent[q] == p ==> s.st[q] != ZOMBIE
    ensures s.pc[p] == Look(|s.pc|, false) ==> forall q :: IsSlot(s, q) ==> s.parent[q] != p
  {
    assert KidsOk(s, p);
  }

  /** Nobody sleeps in wait() while a child of his is a zombie, whatever the order in
      which children exit and are handed on to init: what wait_lock is for. */
  lemma NoZombieSleptOn(s: Sys, acts: seq<Act>, p: int, q: int)
    requires Inv(s) && Legal(s, acts)
    ensures var t := Exec(s, acts);
            Shape(t) && (IsSlot(t, p) && t.pc[p].Asleep? && IsSlot(t, q) && t.parent[q] == p ==> t.st[q] != ZOMBIE)
  {
    InvAlways(s, acts);
    assert IsSlot(Exec(s, acts), p) ==> KidsOk(Exec(s, acts), p);
  }

  /** A slot is freed by wait() only once its process is off its kernel stack. */
  lemma ReapedIsGone(s: Sys, p: int, ok: bool, q: int)
    requires Inv(s) && Enabled(s, Step(p, ok)) && IsSlot(s, q) && s.st[q] == ZOMBIE && StepOf(s, p, ok).st[q] != ZOMBIE
    ensures s.pc[q].Absent? && s.parent[q] == p && StepOf(s, p, ok).reaped == s.reaped + [s.pid[q]]
  {
    assert PlaceOk(s, p) && PlaceOk(s, q);
  }
}
