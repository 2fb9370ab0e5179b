/**
  The process protocol of kernelspace/core/process.c as interleaved steps: any
  number of harts run the scheduler, the kernel threads of processes, and the two
  interrupt handlers that wake sleepers.  A step is one lock operation, one unlocked
  read, or a stretch of code that touches only data the hart has locked.  The lock
  of a process is acquired on one side of `swtch` and released on the other.
 */
module Scheduler {
  import opened Wrappers

  datatype PState = UNUSED | SLEEPING | RUNNABLE | RUNNING | ZOMBIE

  /** The channels processes sleep on: &ticks, &cons.r and &proc_pool. */
  datatype Chan = Tick | Cons | Pool

  /** Where a descheduled kernel thread resumes (`sched_ctx`). */
  datatype Resume = Fork | Yielded | Slept(c: Chan) | Dead

  /** A PCB.  `lock` is the hart that holds p->lock; `want` is the thread's own copy of the
      tick it waits for, or of the slot that its wait() or kill() is about; `paged` says that
      p->pagetable is a page table. */
  datatype Proc = Proc(state: PState, chan: Option<Chan>, lock: Option<nat>, ctx: Resume, want: nat, killed: bool,
                       paged: bool)

  /** What a hart is about to do. */
  datatype PC =
    // scheduler()
    | Scan(i: nat, best: Option<nat>)       // next slot of the search loop
    | ScanLock(i: nat, best: Option<nat>)   // spinning on the lock of slot i
    | ScanCheck(i: nat, best: Option<nat>)  // slot i locked
    | Dispatch(b: nat)                      // best found and locked
    | Faulted                               // satp loaded from a null page table
    | Back(p: nat)                          // swtch returned, p still locked
    | Age(i: nat) | AgeLock(i: nat) | AgeHold(i: nat)
    // kernel thread of the hart's process
    | Resumed(r: Resume)                    // just switched to, own lock held
    | Run
    | YieldLock | YieldHold
    | CondLock(c: Chan) | Cond(c: Chan) | CondDone(c: Chan)
    | SleepLock(c: Chan) | SleepHold(c: Chan) | SleepSet(c: Chan) | Relock(c: Chan) | Woke(c: Chan)
    // exit(), with the condition lock it is called with, if any
    | ExitLock(lk: Option<Chan>) | ExitHold(lk: Option<Chan>) | ExitWake(i: nat, lk: Option<Chan>)
    | ExitWakeLock(i: nat, lk: Option<Chan>) | ExitWakeHold(i: nat, lk: Option<Chan>)
    | Sched(r: Resume)                      // sched(): about to swtch away
    | Panicked(lk: Option<Chan>)            // panic(): spins for ever
    | AllocLock(i: nat) | AllocHold(i: nat) // allocproc()
    | AllocPid(i: nat) | AllocPidHold(i: nat) // allocpid(), slot i locked
    | AllocFill(i: nat)                     // the rest of spawn()
    | ReapLock(i: nat) | ReapHold(i: nat)   // wait(), proc_pool locked
    | KillLock(i: nat) | KillHold(i: nat) | KillDone // kill(), proc_pool locked
    | KillWake(i: nat) | KillWakeLock(i: nat) | KillWakeHold(i: nat)
    // interrupt handlers, with the place to return to
    | IntrLock(c: Chan, ret: PC) | IntrHold(c: Chan, ret: PC)
    | IntrWake(c: Chan, i: nat, ret: PC) | IntrWakeLock(c: Chan, i: nat, ret: PC)
    | IntrWakeHold(c: Chan, i: nat, ret: PC)

  /** A hart: c->proc and its control point. */
  datatype Hart = Hart(proc: Option<nat>, pc: PC)

  /** `avail` is the number of committed console bytes not yet read (cons.w - cons.r). */
  datatype State = State(procs: seq<Proc>, harts: seq<Hart>,
                         tickLock: Option<nat>, consLock: Option<nat>, poolLock: Option<nat>,
                         ticks: nat, avail: nat)

  // ------------------------------------------------------------- locks and places

  /** The process locks a hart holds, read off its control point. */
  function Held(h: Hart): set<nat> {
    match h.pc
    case Scan(_, best) => Of(best)
    case ScanLock(_, best) => Of(best)
    case ScanCheck(i, best) => Of(best) + {i}
    case Dispatch(b) => {b}
    case Faulted => Of(h.proc)
    case Back(p) => {p}
    case AgeHold(i) => {i}
    case Resumed(_) => Of(h.proc)
    case YieldHold => Of(h.proc)
    case SleepHold(_) => Of(h.proc)
    case SleepSet(_) => Of(h.proc)
    case ExitHold(_) => Of(h.proc)
    case ExitWake(_, _) => Of(h.proc)
    case ExitWakeLock(_, _) => Of(h.proc)
    case ExitWakeHold(i, _) => Of(h.proc) + {i}
    case Sched(_) => Of(h.proc)
    case Panicked(_) => Of(h.proc)
    case AllocHold(i) => {i}
    case AllocPid(i) => {i}
    case AllocPidHold(i) => {i}
    case AllocFill(i) => {i}
    case ReapHold(i) => {i}
    case KillHold(i) => {i}
    case KillWakeHold(i) => {i}
    case IntrWakeHold(_, i, _) => {i}
    case _ => {}
  }

  function Of(o: Option<nat>): set<nat> {
    match o
    case None => {}
    case Some(p) => {p}
  }

  /** The condition lock a hart holds, if any. */
  function HeldChan(pc: PC): Option<Chan> {
    match pc
    case Cond(c) => Some(c)
    case CondDone(c) => Some(c)
    case SleepLock(c) => Some(c)
    case SleepHold(c) => Some(c)
    case Woke(c) => Some(c)
    case ExitLock(lk) => lk
    case ExitHold(lk) => lk
    case ExitWake(_, lk) => lk
    case ExitWakeLock(_, lk) => lk
    case ExitWakeHold(_, lk) => lk
    case Panicked(lk) => lk
    case AllocPidHold(_) => Some(Pool)
    case ReapLock(_) => Some(Pool)
    case ReapHold(_) => Some(Pool)
    case KillLock(_) => Some(Pool)
    case KillHold(_) => Some(Pool)
    case KillDone => Some(Pool)
    case IntrHold(c, _) => Some(c)
    case IntrWake(c, _, _) => Some(c)
    case IntrWakeLock(c, _, _) => Some(c)
    case IntrWakeHold(c, _, _) => Some(c)
    case _ => None
  }

  function Lk(s: State, c: Chan): Option<nat> {
    match c
    case Tick => s.tickLock
    case Cons => s.consLock
    case Pool => s.poolLock
  }

  function SetLk(s: State, c: Chan, o: Option<nat>): State {
    match c
    case Tick => s.(tickLock := o)
    case Cons => s.(consLock := o)
    case Pool => s.(poolLock := o)
  }

  /** The sleeper's condition on the two channels whose waker holds the lock. */
  predicate CondTrue(s: State, c: Chan, p: nat)
    requires p < |s.procs|
  {
    match c
    case Tick => s.procs[p].want <= s.ticks
    case Cons => s.avail > 0
    case Pool => false
  }

  // --------------------------------------------------------------------- updates

  function SetH(s: State, h: nat, x: Hart): State
    requires h < |s.harts|
  {
    s.(harts := s.harts[h := x])
  }

  function SetPC(s: State, h: nat, pc: PC): State
    requires h < |s.harts|
  {
    SetH(s, h, s.harts[h].(pc := pc))
  }

  function SetP(s: State, q: nat, x: Proc): State
    requires q < |s.procs|
  {
    s.(procs := s.procs[q := x])
  }

  /** Acquiring, which is possible only when the lock is free, and releasing. */
  ghost predicate Acquires(s: State, s': State, h: nat, q: nat, pc: PC)
    requires h < |s.harts|
  {
    q < |s.procs| && s.procs[q].lock == None && s' == SetPC(SetP(s, q, s.procs[q].(lock := Some(h))), h, pc)
  }

  /** Rewriting the locked PCB q and releasing it. */
  ghost predicate Releases(s: State, s': State, h: nat, q: nat, x: Proc, pc: PC)
    requires h < |s.harts|
  {
    q < |s.procs| && s' == SetPC(SetP(s, q, x.(lock := None)), h, pc)
  }

  ghost predicate Moves(s: State, s': State, h: nat, pc: PC)
    requires h < |s.harts|
  {
    s' == SetPC(s, h, pc)
  }

  // ----------------------------------------------------------------------- steps

  /** Places where interrupts are on. */
  predicate Interruptible(pc: PC) {
    match pc
    case Scan(_, best) => best == None
    case Age(_) => true
    case Run => true
    case KillWake(_) => true
    case _ => false
  }

  ghost predicate InterruptStep(s: State, s': State, h: nat)
    requires h < |s.harts|
  {
    Interruptible(s.harts[h].pc) && exists c :: c != Pool && Moves(s, s', h, IntrLock(c, s.harts[h].pc))
  }

  /** The search loop, dispatch and aging of scheduler(). */
  ghost predicate SchedulerStep(s: State, s': State, h: nat)
    requires h < |s.harts|
  {
    match s.harts[h].pc
    case Scan(i, best) =>
      if i >= |s.procs| then
        (match best case None => Moves(s, s', h, Scan(0, None)) case Some(b) => Moves(s, s', h, Dispatch(b)))
      else if s.procs[i].state != RUNNABLE then Moves(s, s', h, Scan(i + 1, best))
      else Moves(s, s', h, ScanLock(i, best))
    case ScanLock(i, best) => Acquires(s, s', h, i, ScanCheck(i, best))
    case ScanCheck(i, best) =>
      && i < |s.procs|
      && (|| (s.procs[i].state == RUNNABLE && best == None && Moves(s, s', h, Scan(i + 1, Some(i))))
          || (s.procs[i].state == RUNNABLE && best.Some? && best.value < |s.procs|
              && Releases(s, s', h, best.value, s.procs[best.value], Scan(i + 1, Some(i))))
          || ((s.procs[i].state != RUNNABLE || best.Some?) && Releases(s, s', h, i, s.procs[i], Scan(i + 1, best))))
    case Dispatch(b) =>
      && b < |s.procs|
      && s' == SetH(SetP(s, b, s.procs[b].(state := RUNNING)), h, Hart(Some(b), Switched(s.procs[b])))
    case Back(p) =>
      p < |s.procs| && s' == SetH(SetP(s, p, s.procs[p].(lock := None)), h, Hart(None, Age(0)))
    case Age(i) =>
      if i >= |s.procs| then Moves(s, s', h, Scan(0, None))
      else if s.procs[i].state != RUNNABLE then Moves(s, s', h, Age(i + 1))
      else Moves(s, s', h, AgeLock(i))
    case AgeLock(i) => Acquires(s, s', h, i, AgeHold(i))
    case AgeHold(i) => i < |s.procs| && Releases(s, s', h, i, s.procs[i], Age(i + 1))
    case _ => false
  }

  /** Where the hart is once satp has been loaded for process x. */
  function Switched(x: Proc): PC {
    if x.paged then Resumed(x.ctx) else Faulted
  }

  /** yield(), sleep(), sched() and forkret() on behalf of process p. */
  ghost predicate ThreadStep(s: State, s': State, h: nat, p: nat)
    requires h < |s.harts| && p < |s.procs|
  {
    match s.harts[h].pc
    case Resumed(r) =>
      (match r
       case Fork => Releases(s, s', h, p, s.procs[p], Run)
       case Yielded => Releases(s, s', h, p, s.procs[p], Run)
       case Slept(c) => Releases(s, s', h, p, s.procs[p].(chan := None), Relock(c))
       case Dead => Moves(s, s', h, Panicked(None)))
    case Run =>
      || Moves(s, s', h, YieldLock)
      || (exists c :: Moves(s, s', h, CondLock(c)))
      || Moves(s, s', h, ExitLock(None))
      || (exists i: nat :: i < |s.procs| && s.procs[i].state == UNUSED && Moves(s, s', h, AllocLock(i)))
    case YieldLock => Acquires(s, s', h, p, YieldHold)
    case YieldHold => s' == SetPC(SetP(s, p, s.procs[p].(state := RUNNABLE)), h, Sched(Yielded))
    case CondLock(c) =>
      && Lk(s, c) == None
      && exists n: nat :: s' == SetLk(SetPC(SetP(s, p, s.procs[p].(want := n)), h, Cond(c)), c, Some(h))
    case Cond(c) =>
      || (c == Tick && (CondTrue(s, c, p) || s.procs[p].killed) && Moves(s, s', h, CondDone(c)))
      || (c == Cons && CondTrue(s, c, p)
          && exists k: nat, pc ::
               && s.avail - 1 <= k <= s.avail
               && (pc == CondDone(c) || pc == Cond(c))
               && s' == SetPC(s.(avail := k), h, pc))
      || (c == Pool && PoolStep(s, s', h, p))
      || (c != Pool && !CondTrue(s, c, p) && (c == Tick ==> !s.procs[p].killed) && Moves(s, s', h, SleepLock(c)))
    case CondDone(c) => s' == SetLk(SetPC(s, h, Run), c, None)
    case SleepLock(c) => Acquires(s, s', h, p, SleepHold(c))
    case SleepHold(c) => s' == SetLk(SetPC(s, h, SleepSet(c)), c, None)
    case SleepSet(c) => s' == SetPC(SetP(s, p, s.procs[p].(state := SLEEPING, chan := Some(c))), h, Sched(Slept(c)))
    case Relock(c) => Lk(s, c) == None && s' == SetLk(SetPC(s, h, Woke(c)), c, Some(h))
    case Woke(c) => Moves(s, s', h, if s.procs[p].killed then ExitLock(Some(c)) else Cond(c))
    case Sched(r) => s' == SetPC(SetP(s, p, s.procs[p].(ctx := r)), h, Back(p))
    case _ => false
  }

  /** wait() and kill() with proc_pool locked: reap the child, give up, sleep while the child
      lives, or lock the victim. */
  ghost predicate PoolStep(s: State, s': State, h: nat, p: nat)
    requires h < |s.harts| && p < |s.procs|
  {
    var i := s.procs[p].want;
    || Moves(s, s', h, CondDone(Pool))
    || (i < |s.procs| && i != p && s.procs[i].state == ZOMBIE && Moves(s, s', h, ReapLock(i)))
    || (i < |s.procs| && i != p && s.procs[i].state !in {ZOMBIE, UNUSED} && Moves(s, s', h, SleepLock(Pool)))
    || (i < |s.procs| && Moves(s, s', h, KillLock(i)))
  }

  /** exit(), the locked part of allocproc()/spawn(), and the reaping in wait(). */
  ghost predicate LifeStep(s: State, s': State, h: nat, p: nat)
    requires h < |s.harts| && p < |s.procs|
  {
    match s.harts[h].pc
    case ExitLock(lk) => Acquires(s, s', h, p, ExitHold(lk))
    case ExitHold(lk) => s' == SetPC(SetP(s, p, s.procs[p].(state := ZOMBIE)), h, ExitWake(0, lk))
    case ExitWake(i, lk) =>
      if i >= |s.procs| then Moves(s, s', h, if lk == None then Sched(Dead) else Panicked(lk))
      else if i == p then Moves(s, s', h, ExitWake(i + 1, lk))
      else Moves(s, s', h, ExitWakeLock(i, lk))
    case ExitWakeLock(i, lk) => Acquires(s, s', h, i, ExitWakeHold(i, lk))
    case ExitWakeHold(i, lk) => i < |s.procs| && Releases(s, s', h, i, Woken(s.procs[i], Pool), ExitWake(i + 1, lk))
    case AllocLock(i) => Acquires(s, s', h, i, AllocHold(i))
    case AllocHold(i) =>
      && i < |s.procs|
      && if s.procs[i].state == UNUSED then Moves(s, s', h, AllocPid(i)) else Releases(s, s', h, i, s.procs[i], Run)
    case AllocPid(i) => s.poolLock == None && s' == SetLk(SetPC(s, h, AllocPidHold(i)), Pool, Some(h))
    case AllocPidHold(i) =>
      && i < |s.procs|
      && var x := s.procs[i].(state := SLEEPING, chan := None, killed := false);
         s' == SetLk(SetPC(SetP(s, i, x), h, AllocFill(i)), Pool, None)
    case AllocFill(i) =>
      i < |s.procs| && exists x :: Filled(s.procs[i], x) && Releases(s, s', h, i, x, Run)
    case ReapLock(i) => Acquires(s, s', h, i, ReapHold(i))
    case ReapHold(i) =>
      && i < |s.procs|
      && if s.procs[i].state == ZOMBIE
         then Releases(s, s', h, i, Reaped(s.procs[i]), CondDone(Pool))
         else Releases(s, s', h, i, s.procs[i], SleepLock(Pool))
    case _ => false
  }

  /** What wait() leaves of its child. */
  function Reaped(x: Proc): Proc { x.(state := UNUSED, killed := false, paged := false) }

  /** kill() from its locked victim on. */
  ghost predicate KillStep(s: State, s': State, h: nat, p: nat)
    requires h < |s.harts| && p < |s.procs|
  {
    match s.harts[h].pc
    case KillLock(i) => Acquires(s, s', h, i, KillHold(i))
    case KillHold(i) =>
      && i < |s.procs|
      && if s.procs[i].state == ZOMBIE || s.procs[i].state == UNUSED
         then Releases(s, s', h, i, s.procs[i], CondDone(Pool))
         else Releases(s, s', h, i, Killed(s.procs[i]), KillDone)
    case KillDone => s' == SetLk(SetPC(s, h, KillWake(0)), Pool, None)
    case KillWake(i) =>
      if i >= |s.procs| then Moves(s, s', h, Run)
      else if i == p then Moves(s, s', h, KillWake(i + 1))
      else Moves(s, s', h, KillWakeLock(i))
    case KillWakeLock(i) => Acquires(s, s', h, i, KillWakeHold(i))
    case KillWakeHold(i) => i < |s.procs| && Releases(s, s', h, i, Woken(s.procs[i], Pool), KillWake(i + 1))
    case _ => false
  }

  /** What kill() does to its victim. */
  function Killed(x: Proc): Proc {
    x.(killed := true, state := if x.state == SLEEPING then RUNNABLE else x.state)
  }

  /** wakeup(c) on one PCB. */
  function Woken(x: Proc, c: Chan): Proc {
    if x.state == SLEEPING && x.chan == Some(c) then x.(state := RUNNABLE) else x
  }

  /** What the rest of allocproc() and spawn() make of a slot: a runnable process, an unused
      slot again, or a slot stranded half-way, without a page table. */
  predicate Filled(x: Proc, x': Proc) {
    || x' == x
    || (x.state == SLEEPING && x' == x.(state := RUNNABLE, ctx := Fork, paged := true))
    || (x.state == SLEEPING && x' == x.(state := UNUSED, ctx := Fork, paged := false))
  }

  /** handle_timer() and uart_intr(): change the condition and wake, under the lock. */
  ghost predicate HandlerStep(s: State, s': State, h: nat)
    requires h < |s.harts|
  {
    match s.harts[h].pc
    case IntrLock(c, ret) => Lk(s, c) == None && s' == SetLk(SetPC(s, h, IntrHold(c, ret)), c, Some(h))
    case IntrHold(c, ret) =>
      || (c == Tick && s' == SetPC(s.(ticks := s.ticks + 1), h, IntrWake(c, 0, ret)))
      || (c == Cons && s' == SetLk(SetPC(s, h, ret), c, None))
      || (c == Cons && exists k: nat :: s.avail < k && s' == SetPC(s.(avail := k), h, IntrWake(c, 0, ret)))
    case IntrWake(c, i, ret) =>
      if i >= |s.procs| then s' == SetLk(SetPC(s, h, ret), c, None)
      else if s.harts[h].proc == Some(i) then Moves(s, s', h, IntrWake(c, i + 1, ret))
      else Moves(s, s', h, IntrWakeLock(c, i, ret))
    case IntrWakeLock(c, i, ret) => Acquires(s, s', h, i, IntrWakeHold(c, i, ret))
    case IntrWakeHold(c, i, ret) =>
      i < |s.procs| && Releases(s, s', h, i, Woken(s.procs[i], c), IntrWake(c, i + 1, ret))
    case _ => false
  }

  ghost predicate ProcStep(s: State, s': State, h: nat, p: nat)
    requires h < |s.harts| && p < |s.procs|
  {
    ThreadStep(s, s', h, p) || LifeStep(s, s', h, p) || KillStep(s, s', h, p)
  }

  /** One step of hart h. */
  ghost predicate HartStep(s: State, s': State, h: nat)
    requires h < |s.harts|
  {
    || InterruptStep(s, s', h)
    || SchedulerStep(s, s', h)
    || HandlerStep(s, s', h)
    || (s.harts[h].proc.Some? && s.harts[h].proc.value < |s.procs|
        && ProcStep(s, s', h, s.harts[h].proc.value))
  }

  ghost predicate Next(s: State, s': State) {
    exists h :: 0 <= h < |s.harts| && HartStep(s, s', h)
  }

  /** Boot: every hart enters the scheduler with no process; all locks are free, and no
      process runs, has run or has been killed. */
  ghost predicate Init(s: State) {
    && |s.procs| > 0
    && (forall h :: 0 <= h < |s.harts| ==> s.harts[h] == Hart(None, Scan(0, None)))
    && (forall p :: 0 <= p < |s.procs| ==> s.procs[p].lock == None && s.procs[p].state in {UNUSED, RUNNABLE})
    && (forall p :: 0 <= p < |s.procs| ==> !s.procs[p].killed)
    && (forall p :: 0 <= p < |s.procs| && s.procs[p].state == RUNNABLE ==> s.procs[p].ctx == Fork)
    && (forall p :: 0 <= p < |s.procs| ==> (s.procs[p].paged <==> s.procs[p].state == RUNNABLE))
    && s.tickLock == None && s.consLock == None && s.poolLock == None
  }

  /** A run: any finite sequence of steps from a boot state. */
  ghost predicate IsRun(r: seq<State>) {
    |r| > 0 && Init(r[0]) && forall i :: 0 <= i < |r| - 1 ==> Next(r[i], r[i + 1])
  }
}
