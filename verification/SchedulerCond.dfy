/**
  What a process goes through between two runs of its own code: the one way each field of its
  PCB changes, and the loops around sleep(), which test their condition again after every wakeup.
 */
module SchedulerCond {
  import opened Wrappers
  import opened Scheduler
  import opened SchedulerInv
  import opened SchedulerWait
  import opened SchedulerWake
  import opened SchedulerMiss
  import opened SchedulerPaged

  // ------------------------------------------------------------ one step and one PCB

  /** Hart a wakes the sleepers on channel c and has locked slot q. */
  predicate Wakes(pc: PC, c: Chan, q: nat) {
    match pc
    case IntrWakeHold(c', i, _) => c' == c && i == q
    case ExitWakeHold(i, _) => c == Pool && i == q
    case KillWakeHold(i) => c == Pool && i == q
    case _ => false
  }

  /** Hart a is about to mark its own process q: RUNNABLE in yield(), SLEEPING on its channel in
      sleep(), ZOMBIE in exit(). */
  predicate Leaves(a: Hart, q: nat, y: Proc) {
    a.proc == Some(q) &&
    match a.pc
    case YieldHold => y.state == RUNNABLE
    case SleepSet(c) => y.state == SLEEPING && y.chan == Some(c)
    case ExitHold(_) => y.state == ZOMBIE
    case _ => false
  }

  /** How the state of a process comes to change, case by case. */
  predicate Cycle(x: Proc, y: Proc, a: Hart, b: Hart, q: nat) {
    match x.state
    case UNUSED => y.state == SLEEPING && a.pc == AllocPidHold(q) && y.chan == None && !y.killed
    case SLEEPING =>
      || (y.state == RUNNABLE && x.chan.Some? && Wakes(a.pc, x.chan.value, q))
      || (y.state == RUNNABLE && a.pc == KillHold(q) && y.killed)
      || (y.state == RUNNABLE && a.pc == AllocFill(q) && y.ctx == Fork && y.paged)
      || (y.state == UNUSED && a.pc == AllocFill(q) && !y.paged)
    case RUNNABLE =>
      && y.state == RUNNING && a.pc == Dispatch(q)
      && b == Hart(Some(q), if x.paged then Resumed(x.ctx) else Faulted)
    case RUNNING => Leaves(a, q, y)
    case ZOMBIE => y.state == UNUSED && a.pc == ReapHold(q) && !y.killed && !y.paged
  }

  /** The other fields: where it resumes, the channel, the kill flag. */
  predicate Fields(x: Proc, y: Proc, a: Hart, q: nat) {
    && (y.ctx != x.ctx ==> a == Hart(Some(q), Sched(y.ctx)) || (a.pc == AllocFill(q) && y.ctx == Fork))
    && (y.chan != x.chan ==>
          if y.chan.Some? then a == Hart(Some(q), SleepSet(y.chan.value))
          else (a.proc == Some(q) && a.pc.Resumed? && a.pc.r.Slept?) || a.pc == AllocPidHold(q))
    && (y.killed && !x.killed ==> a.pc == KillHold(q) && x.state != ZOMBIE && x.state != UNUSED)
    && (!y.killed && x.killed ==> a.pc == AllocPidHold(q) || (a.pc == ReapHold(q) && x.state == ZOMBIE))
  }

  /** What a step at such a point always does. */
  predicate Done(x: Proc, y: Proc, a: Hart, q: nat) {
    && (forall c: Chan :: Wakes(a.pc, c, q) ==> !(y.state == SLEEPING && y.chan == Some(c)))
    && (a.pc == KillHold(q) && x.state != ZOMBIE && x.state != UNUSED ==> y.killed && y.state != SLEEPING)
    && (a.proc == Some(q) && (a.pc.YieldHold? || a.pc.SleepSet? || a.pc.ExitHold?) ==> Leaves(a, q, y))
    && (a.proc == Some(q) && a.pc.Sched? ==> y.ctx == a.pc.r)
    && (a.pc == ReapHold(q) && x.state == ZOMBIE ==> y.state == UNUSED)
    && (a.pc == AllocPidHold(q) ==> y.state == SLEEPING && y.chan == None)
    && (a.pc == Dispatch(q) ==> y.state == RUNNING)
    && (a.proc == Some(q) && a.pc.Resumed? && a.pc.r.Slept? ==> y.chan == None)
  }

  /** The whole law of a step of hart h for the PCB q it touches. */
  ghost predicate PcbTurn(s: State, s': State, h: nat, q: nat) {
    && q < |s.procs| && q < |s'.procs| && h < |s.harts| && h < |s'.harts|
    && var x, y, a, b := s.procs[q], s'.procs[q], s.harts[h], s'.harts[h];
    && (y.state != x.state ==> Cycle(x, y, a, b, q))
    && Fields(x, y, a, q)
    && Done(x, y, a, q)
    && Placed(a, q)
  }

  /** The PCB that these steps touch. */
  predicate Placed(a: Hart, q: nat) {
    && (a.pc.Dispatch? ==> a.pc.b == q)
    && (a.pc.AllocPidHold? ==> a.pc.i == q)
    && (a.pc.KillWakeHold? ==> a.pc.i == q)
    && (a.pc.SleepSet? || a.pc.Sched? || a.pc.Cond? ==> a.proc == Some(q))
  }

  predicate InAge(pc: PC) { pc.Age? || pc.AgeLock? || pc.AgeHold? || pc.Back? }

  lemma SearchLife(s: State, s': State, h: nat)
    requires h < |s.harts| && h < |s'.harts| && PointOk(s, s.harts[h]) && |s.procs| > 0 && SchedulerStep(s, s', h)
    ensures PcbTurn(s, s', h, Target(s.harts[h], s'.harts[h]))
  {
    hide *;
    if InAge(s.harts[h].pc) {
      AgeLife(s, s', h);
    } else {
      ChooseLife(s, s', h);
    }
  }

  lemma AgeLife(s: State, s': State, h: nat)
    requires h < |s.harts| && h < |s'.harts| && PointOk(s, s.harts[h]) && |s.procs| > 0 && SchedulerStep(s, s', h)
    requires InAge(s.harts[h].pc)
    ensures PcbTurn(s, s', h, Target(s.harts[h], s'.harts[h]))
  {
  }

  lemma ChooseLife(s: State, s': State, h: nat)
    requires h < |s.harts| && h < |s'.harts| && PointOk(s, s.harts[h]) && |s.procs| > 0 && SchedulerStep(s, s', h)
    requires !InAge(s.harts[h].pc)
    ensures PcbTurn(s, s', h, Target(s.harts[h], s'.harts[h]))
  {
    hide Held;
  }

  lemma HandlerLife(s: State, s': State, h: nat)
    requires h < |s.harts| && h < |s'.harts| && PointOk(s, s.harts[h]) && |s.procs| > 0
    requires HandlerStep(s, s', h) || InterruptStep(s, s', h)
    ensures PcbTurn(s, s', h, Target(s.harts[h], s'.harts[h]))
  {
  }

  lemma WaitLife(s: State, s': State, h: nat, p: nat)
    requires h < |s.harts| && h < |s'.harts| && PointOk(s, s.harts[h]) && p < |s.procs| && s.harts[h].proc == Some(p)
    requires ThreadStep(s, s', h, p)
    requires InWait(s.harts[h].pc)
    ensures PcbTurn(s, s', h, Target(s.harts[h], s'.harts[h]))
  {
    hide CondTrue;
    hide Held;
  }

  lemma RunLife(s: State, s': State, h: nat, p: nat)
    requires h < |s.harts| && h < |s'.harts| && PointOk(s, s.harts[h]) && p < |s.procs| && s.harts[h].proc == Some(p)
    requires ThreadStep(s, s', h, p)
    requires !InWait(s.harts[h].pc)
    ensures PcbTurn(s, s', h, Target(s.harts[h], s'.harts[h]))
  {
  }

  lemma ThreadLife(s: State, s': State, h: nat, p: nat)
    requires h < |s.harts| && h < |s'.harts| && PointOk(s, s.harts[h]) && p < |s.procs| && s.harts[h].proc == Some(p)
    requires ThreadStep(s, s', h, p)
    ensures PcbTurn(s, s', h, Target(s.harts[h], s'.harts[h]))
  {
    hide *;
    if InWait(s.harts[h].pc) {
      WaitLife(s, s', h, p);
    } else {
      RunLife(s, s', h, p);
    }
  }

  lemma LifeLife(s: State, s': State, h: nat, p: nat)
    requires h < |s.harts| && h < |s'.harts| && PointOk(s, s.harts[h]) && p < |s.procs| && s.harts[h].proc == Some(p)
    requires LifeStep(s, s', h, p)
    ensures PcbTurn(s, s', h, Target(s.harts[h], s'.harts[h]))
  {
    hide *;
    if InExit(s.harts[h].pc) {
      ExitLife(s, s', h, p);
    } else if Reaping(s.harts[h].pc) {
      ReapLife(s, s', h, p);
    } else if s.harts[h].pc.AllocFill? {
      FillLife(s, s', h, p);
    } else {
      SlotLife(s, s', h, p);
    }
  }

  lemma ExitLife(s: State, s': State, h: nat, p: nat)
    requires h < |s.harts| && h < |s'.harts| && PointOk(s, s.harts[h]) && p < |s.procs| && s.harts[h].proc == Some(p)
    requires LifeStep(s, s', h, p)
    requires InExit(s.harts[h].pc)
    ensures PcbTurn(s, s', h, Target(s.harts[h], s'.harts[h]))
  {
  }

  lemma ReapLife(s: State, s': State, h: nat, p: nat)
    requires h < |s.harts| && h < |s'.harts| && PointOk(s, s.harts[h]) && p < |s.procs| && s.harts[h].proc == Some(p)
    requires LifeStep(s, s', h, p)
    requires Reaping(s.harts[h].pc)
    ensures PcbTurn(s, s', h, Target(s.harts[h], s'.harts[h]))
  {
  }

  lemma FillLife(s: State, s': State, h: nat, p: nat)
    requires h < |s.harts| && h < |s'.harts| && PointOk(s, s.harts[h]) && p < |s.procs| && s.harts[h].proc == Some(p)
    requires LifeStep(s, s', h, p)
    requires s.harts[h].pc.AllocFill?
    ensures PcbTurn(s, s', h, Target(s.harts[h], s'.harts[h]))
  {
    var i := s.harts[h].pc.i;
    var x :| Filled(s.procs[i], x) && Releases(s, s', h, i, x, Run);
    hide LifeStep;
    assert s'.procs[i] == x.(lock := None);
  }

  lemma SlotLife(s: State, s': State, h: nat, p: nat)
    requires h < |s.harts| && h < |s'.harts| && PointOk(s, s.harts[h]) && p < |s.procs| && s.harts[h].proc == Some(p)
    requires LifeStep(s, s', h, p)
    requires !InExit(s.harts[h].pc) && !Reaping(s.harts[h].pc) && !s.harts[h].pc.AllocFill?
    ensures PcbTurn(s, s', h, Target(s.harts[h], s'.harts[h]))
  {
  }

  lemma KillLife(s: State, s': State, h: nat, p: nat)
    requires h < |s.harts| && h < |s'.harts| && PointOk(s, s.harts[h]) && p < |s.procs| && s.harts[h].proc == Some(p)
    requires KillStep(s, s', h, p)
    ensures PcbTurn(s, s', h, Target(s.harts[h], s'.harts[h]))
  {
  }

  // ----------------------------------------------------- one step and one control point

  /** The channel whose wait loop a control point belongs to, from a test that came out false
      to the next test or to exit(). */
  function BedOf(pc: PC): Option<Chan> {
    match pc
    case SleepLock(c) => Some(c)
    case SleepHold(c) => Some(c)
    case SleepSet(c) => Some(c)
    case Sched(r) => if r.Slept? then Some(r.c) else None
    case Resumed(r) => if r.Slept? then Some(r.c) else None
    case Relock(c) => Some(c)
    case Woke(c) => Some(c)
    case Cond(c) => Some(c)
    case ExitLock(lk) => lk
    case ExitHold(lk) => lk
    case ExitWake(_, lk) => lk
    case ExitWakeLock(_, lk) => lk
    case ExitWakeHold(_, lk) => lk
    case Panicked(lk) => lk
    case _ => None
  }

  /** The process of hart x need not wait any longer: its tick has come or it was killed, or there
      is a byte to read. */
  predicate Met(s: State, x: Hart, c: Chan) {
    x.proc.Some? && x.proc.value < |s.procs| &&
    match c
    case Tick => s.procs[x.proc.value].want <= s.ticks || s.procs[x.proc.value].killed
    case Cons => s.avail > 0
    case Pool => true
  }

  /** After a wakeup: back to the test, or to exit() iff killed. */
  predicate Rechecks(s: State, a: Hart, b: Hart, c: Chan) {
    && b.proc == a.proc && a.proc.Some? && a.proc.value < |s.procs|
    && (b.pc == Cond(c) || b.pc == ExitLock(Some(c)))
    && (b.pc == ExitLock(Some(c)) <==> s.procs[a.proc.value].killed)
  }

  /** The whole law of a step of hart h for its control point and the two conditions. */
  ghost predicate CondTurn(s: State, s': State, h: nat) {
    && h < |s.harts| && h < |s'.harts|
    && var a, b := s.harts[h], s'.harts[h];
    && Testing(s, a, b)
    && Staying(a, b)
    && (s'.ticks != s.ticks ==> a.pc.IntrHold? && a.pc.c == Tick && s'.ticks == s.ticks + 1)
    && (s'.avail > s.avail ==> a.pc.IntrHold? && a.pc.c == Cons)
    && (s'.avail < s.avail ==> a.pc == Cond(Cons) && s'.avail == s.avail - 1)
  }

  predicate Waking(pc: PC) { pc.IntrHold? || pc.KillDone? || InSweep(pc) }

  /** What the wakers do: a handler changes its condition before it wakes, and kill() wakes. */
  ghost predicate WakerTurn(s: State, s': State, h: nat) {
    && h < |s.harts| && h < |s'.harts|
    && var a, b := s.harts[h], s'.harts[h];
    && (a.pc.IntrHold? && a.pc.c == Tick ==> s'.ticks == s.ticks + 1 && b.pc == IntrWake(Tick, 0, a.pc.ret))
    && (a.pc.IntrHold? && a.pc.c == Cons ==>
          b.pc == if s'.avail > s.avail then IntrWake(Cons, 0, a.pc.ret) else a.pc.ret)
    && (a.pc.KillDone? ==> b.pc == KillWake(0))
    && (InSweep(a.pc) ==> Sweeps(|s.procs|, a, b))
  }

  predicate InSweep(pc: PC) { pc.KillWake? || pc.KillWakeLock? || pc.KillWakeHold? }

  /** The wakeup loop of kill() over n slots, interrupts apart: it leaves no slot behind but its
      own process's and those it has locked, and ends behind the last one. */
  predicate Sweeps(n: nat, a: Hart, b: Hart)
    requires InSweep(a.pc)
  {
    || b.pc.IntrLock?
    || (b.pc == Run && n <= a.pc.i)
    || (InSweep(b.pc) && b.proc == a.proc
        && (b.pc.i == a.pc.i || (b.pc.i == a.pc.i + 1 && (a.proc == Some(a.pc.i) || a.pc.KillWakeHold?))))
  }

  /** Where the loops test. */
  ghost predicate Testing(s: State, a: Hart, b: Hart) {
    && (a.pc.Woke? ==> Rechecks(s, a, b, a.pc.c))
    && (a.pc.Cond? && b.pc != SleepLock(a.pc.c) ==> Met(s, a, a.pc.c))
    && (b.pc.CondDone? && b.pc.c != Pool ==> a == Hart(b.proc, Cond(b.pc.c)))
    && (b.pc.SleepLock? && b.pc.c != Pool ==> a == Hart(b.proc, Cond(b.pc.c)) && !Met(s, a, b.pc.c))
    && (Reaping(b.pc) ==> b.proc == a.proc && (a.pc == ReapLock(b.pc.i) || Wants(s, a, b.pc.i)))
  }

  /** The process of hart x waits for slot w. */
  predicate Wants(s: State, x: Hart, w: nat) {
    x.proc.Some? && x.proc.value < |s.procs| && s.procs[x.proc.value].want == w && !x.pc.CondLock?
  }

  /** Where the loops go. */
  ghost predicate Staying(a: Hart, b: Hart) {
    && (b.proc != a.proc ==> a.pc.Dispatch? || a.pc.Back?)
    && (BedOf(a.pc).Some? && (a.pc.Cond? ==> b.pc == SleepLock(a.pc.c)) ==>
          b.proc == a.proc && (if a.pc.Sched? then b.pc.Back? else BedOf(b.pc) == BedOf(a.pc)))
    && (a.pc.SleepSet? ==> b.pc == Sched(Slept(a.pc.c)))
    && (b.pc.Back? ==> a.pc.Sched?)
    && (a.pc.Back? ==> b.proc == None)
    && (b.pc.Sched? && b.pc.r.Slept? ==> a.pc == SleepSet(b.pc.r.c))
    && (a.pc == Panicked(None) || a.pc.Faulted? ==> false)
    && (b.pc.AllocFill? ==> a.pc == AllocPidHold(b.pc.i))
    && !(a.pc.AllocPidHold? && !b.pc.AllocFill?)
  }

  /** A step between control points outside the wait loops. */
  predicate Plain(a: Hart, b: Hart) {
    && BedOf(a.pc) == None && !b.pc.CondDone? && !b.pc.SleepLock? && !b.pc.Back? && !b.pc.AllocFill?
    && !(b.pc.Sched? && b.pc.r.Slept?) && !a.pc.AllocPidHold? && a.pc != Panicked(None) && !a.pc.Faulted?
    && (b.proc != a.proc ==> a.pc.Dispatch? || a.pc.Back?)
    && (a.pc.Back? ==> b.proc == None) && !Reaping(b.pc)
  }

  lemma PlainCond(s: State, s': State, h: nat)
    requires h < |s.harts| && h < |s'.harts| && Plain(s.harts[h], s'.harts[h])
    requires s'.ticks == s.ticks && s'.avail == s.avail
    ensures CondTurn(s, s', h)
  {
  }

  lemma SearchCond(s: State, s': State, h: nat)
    requires h < |s.harts| && PointOk(s, s.harts[h]) && |s.procs| > 0 && SchedulerStep(s, s', h)
    ensures h < |s'.harts| && Plain(s.harts[h], s'.harts[h]) && s'.ticks == s.ticks && s'.avail == s.avail
  {
  }

  lemma HandlerCond(s: State, s': State, h: nat)
    requires h < |s.harts| && PointOk(s, s.harts[h]) && |s.procs| > 0
    requires HandlerStep(s, s', h) || InterruptStep(s, s', h)
    ensures CondTurn(s, s', h)
  {
  }

  lemma CheckCond(s: State, s': State, h: nat, p: nat)
    requires h < |s.harts| && PointOk(s, s.harts[h]) && p < |s.procs| && s.harts[h].proc == Some(p)
    requires ThreadStep(s, s', h, p)
    requires s.harts[h].pc.Cond?
    ensures CondTurn(s, s', h)
  {
  }

  lemma LoopCond(s: State, s': State, h: nat, p: nat)
    requires h < |s.harts| && PointOk(s, s.harts[h]) && p < |s.procs| && s.harts[h].proc == Some(p)
    requires ThreadStep(s, s', h, p)
    requires !s.harts[h].pc.Cond? && BedOf(s.harts[h].pc).Some?
    ensures CondTurn(s, s', h)
  {
    hide PointOk;
    hide CondTrue;
  }

  lemma RunCond(s: State, s': State, h: nat, p: nat)
    requires h < |s.harts| && PointOk(s, s.harts[h]) && p < |s.procs| && s.harts[h].proc == Some(p)
    requires ThreadStep(s, s', h, p)
    requires BedOf(s.harts[h].pc) == None
    ensures CondTurn(s, s', h)
  {
  }

  lemma ThreadCond(s: State, s': State, h: nat, p: nat)
    requires h < |s.harts| && PointOk(s, s.harts[h]) && p < |s.procs| && s.harts[h].proc == Some(p)
    requires ThreadStep(s, s', h, p)
    ensures CondTurn(s, s', h)
  {
    hide *;
    if s.harts[h].pc.Cond? {
      CheckCond(s, s', h, p);
    } else if BedOf(s.harts[h].pc).Some? {
      LoopCond(s, s', h, p);
    } else {
      RunCond(s, s', h, p);
    }
  }

  lemma LifeCond(s: State, s': State, h: nat, p: nat)
    requires h < |s.harts| && PointOk(s, s.harts[h]) && p < |s.procs| && s.harts[h].proc == Some(p)
    requires LifeStep(s, s', h, p)
    ensures CondTurn(s, s', h)
  {
    hide *;
    if InExit(s.harts[h].pc) {
      ExitCond(s, s', h, p);
    } else {
      SlotCond(s, s', h, p);
    }
  }

  lemma ExitCond(s: State, s': State, h: nat, p: nat)
    requires h < |s.harts| && PointOk(s, s.harts[h]) && p < |s.procs| && s.harts[h].proc == Some(p)
    requires LifeStep(s, s', h, p)
    requires InExit(s.harts[h].pc)
    ensures CondTurn(s, s', h)
  {
    hide PointOk;
  }

  lemma SlotCond(s: State, s': State, h: nat, p: nat)
    requires h < |s.harts| && PointOk(s, s.harts[h]) && p < |s.procs| && s.harts[h].proc == Some(p)
    requires LifeStep(s, s', h, p)
    requires !InExit(s.harts[h].pc)
    ensures CondTurn(s, s', h)
  {
  }

  lemma KillCond(s: State, s': State, h: nat, p: nat)
    requires h < |s.harts| && PointOk(s, s.harts[h]) && p < |s.procs| && s.harts[h].proc == Some(p)
    requires KillStep(s, s', h, p)
    ensures CondTurn(s, s', h)
  {
  }

  lemma WakesNobody(s: State, s': State, h: nat)
    requires h < |s.harts| && h < |s'.harts| && !Waking(s.harts[h].pc)
    ensures WakerTurn(s, s', h)
  {
  }

  lemma SearchWaker(s: State, s': State, h: nat)
    requires h < |s.harts| && SchedulerStep(s, s', h)
    ensures !Waking(s.harts[h].pc)
  {
  }

  lemma ThreadWaker(s: State, s': State, h: nat, p: nat)
    requires h < |s.harts| && p < |s.procs| && ThreadStep(s, s', h, p)
    ensures !Waking(s.harts[h].pc)
  {
  }

  lemma LifeWaker(s: State, s': State, h: nat, p: nat)
    requires h < |s.harts| && p < |s.procs| && LifeStep(s, s', h, p)
    ensures !Waking(s.harts[h].pc)
  {
  }

  lemma HandlerWaker(s: State, s': State, h: nat)
    requires h < |s.harts| && PointOk(s, s.harts[h]) && (HandlerStep(s, s', h) || InterruptStep(s, s', h))
    ensures WakerTurn(s, s', h)
  {
  }

  lemma KillWaker(s: State, s': State, h: nat, p: nat)
    requires h < |s.harts| && p < |s.procs| && s.harts[h].proc == Some(p) && KillStep(s, s', h, p)
    ensures WakerTurn(s, s', h)
  {
  }

  /** What any step does: to one PCB, to one hart, to the clock and to the console. */
  ghost predicate Law(s: State, s': State, h: nat, q: nat) {
    Local(s, s', h, q) && ProcTurn(s, s', h, q) && PcbTurn(s, s', h, q) && CondTurn(s, s', h) && WakerTurn(s, s', h)
  }

  lemma OwnLaw(s: State, s': State, h: nat, p: nat)
    requires h < |s.harts| && h < |s'.harts| && PointOk(s, s.harts[h]) && p < |s.procs| && s.harts[h].proc == Some(p)
    requires ProcStep(s, s', h, p)
    ensures PcbTurn(s, s', h, Target(s.harts[h], s'.harts[h])) && CondTurn(s, s', h) && WakerTurn(s, s', h)
  {
    assert ThreadStep(s, s', h, p) || LifeStep(s, s', h, p) || KillStep(s, s', h, p);
    hide *;
    if ThreadStep(s, s', h, p) {
      ThreadLife(s, s', h, p);
      ThreadCond(s, s', h, p);
      ThreadWaker(s, s', h, p);
      WakesNobody(s, s', h);
    } else if LifeStep(s, s', h, p) {
      LifeLife(s, s', h, p);
      LifeCond(s, s', h, p);
      LifeWaker(s, s', h, p);
      WakesNobody(s, s', h);
    } else {
      KillWaker(s, s', h, p);
      KillLife(s, s', h, p);
      KillCond(s, s', h, p);
    }
  }

  lemma OtherLaw(s: State, s': State, h: nat)
    requires h < |s.harts| && h < |s'.harts| && PointOk(s, s.harts[h]) && |s.procs| > 0
    requires SchedulerStep(s, s', h) || HandlerStep(s, s', h) || InterruptStep(s, s', h)
    ensures PcbTurn(s, s', h, Target(s.harts[h], s'.harts[h])) && CondTurn(s, s', h) && WakerTurn(s, s', h)
  {
    hide *;
    if SchedulerStep(s, s', h) {
      SearchLife(s, s', h);
      SearchCond(s, s', h);
      PlainCond(s, s', h);
      SearchWaker(s, s', h);
      WakesNobody(s, s', h);
    } else {
      HandlerWaker(s, s', h);
      HandlerLife(s, s', h);
      HandlerCond(s, s', h);
    }
  }

  lemma StepLaw(s: State, s': State, h: nat)
    requires Inv(s) && h < |s.harts| && HartStep(s, s', h)
    ensures |s'.harts| == |s.harts| && Law(s, s', h, Target(s.harts[h], s'.harts[h]))
  {
    StepTurn(s, s', h);
    assert PointOk(s, s.harts[h]) && |s.procs| > 0;
    var q := Target(s.harts[h], s'.harts[h]);
    if SchedulerStep(s, s', h) || HandlerStep(s, s', h) || InterruptStep(s, s', h) {
      hide SchedulerStep;
      hide HandlerStep;
      hide InterruptStep;
      OtherLaw(s, s', h);
    } else {
      hide SchedulerStep;
      hide HandlerStep;
      hide InterruptStep;
      hide ProcStep;
      OwnLaw(s, s', h, s.harts[h].proc.value);
    }
    hide PcbTurn;
    hide CondTurn;
    hide WakerTurn;
    hide ProcTurn;
    hide Local;
    hide Target;
    hide Inv;
    hide PointOk;
    hide HartStep;
    hide HartTurn;
  }

  // ------------------------------------------------------------- a sleeper is bound

  predicate Bedded(pc: PC, c: Chan) { BedOf(pc) == Some(c) || pc.Back? || pc.Faulted? }

  predicate Switching(pc: PC) { pc.Sched? || pc.Back? }

  ghost predicate AtSched(s: State, p: nat, c: Chan) {
    exists h: nat :: OnHart(s, h, p) && s.harts[h].pc == Sched(Slept(c))
  }

  ghost predicate OnSome(s: State, p: nat) { exists h: nat :: OnHart(s, h, p) }

  /** Process p can run on only through the test of the wait loop on channel c, or exit. */
  ghost predicate Bound(s: State, c: Chan, p: nat) {
    && p < |s.procs| && BoundProc(s, c, p)
    && (forall h: nat :: OnHart(s, h, p) ==>
          Bedded(s.harts[h].pc, c) && (Switching(s.harts[h].pc) ==> s.procs[p].state == SLEEPING))
  }

  ghost predicate BoundProc(s: State, c: Chan, p: nat)
    requires p < |s.procs|
  {
    var x := s.procs[p];
    && x.state != UNUSED && (x.state == ZOMBIE ==> OnSome(s, p))
    && (x.state == SLEEPING || x.state == RUNNABLE ==>
          x.chan == Some(c) && (x.ctx == Slept(c) || AtSched(s, p, c)))
  }

  /** Hart m leaves the wait loop of p, whose test came out true. */
  ghost predicate Escapes(s: State, s': State, m: nat, c: Chan, p: nat) {
    && m < |s.harts| && m < |s'.harts| && s.harts[m] == Hart(Some(p), Cond(c))
    && s'.harts[m].pc != SleepLock(c) && Met(s, s.harts[m], c)
  }

  ghost predicate FillOk(s: State, x: Hart) {
    x.pc.AllocFill? ==> x.pc.i < |s.procs| && s.procs[x.pc.i].state == SLEEPING && s.procs[x.pc.i].chan == None
  }

  ghost predicate FillsOk(s: State) {
    forall h: nat :: h < |s.harts| ==> FillOk(s, s.harts[h])
  }

  ghost predicate BedsOk(s: State) {
    forall c: Chan, p: nat :: Asleep(s, c, p) ==> Bound(s, c, p)
  }

  ghost predicate TickOk(s: State, x: Hart) {
    x.pc == CondDone(Tick) ==> Met(s, x, Tick)
  }

  /** wait() reaps the slot it was called for. */
  ghost predicate ReapOk(s: State, x: Hart) {
    Reaping(x.pc) ==> Wants(s, x, x.pc.i)
  }

  ghost predicate ReapsOk(s: State) {
    forall h: nat :: h < |s.harts| ==> ReapOk(s, s.harts[h])
  }

  ghost predicate TicksOk(s: State) {
    forall h: nat :: h < |s.harts| ==> TickOk(s, s.harts[h])
  }

  /** State, channel and place of a PCB change only under its lock. */
  lemma ChangeHeld(s: State, s': State, m: nat, q: nat)
    requires Inv(s) && Law(s, s', m, q)
    requires var x, y := s.procs[q], s'.procs[q]; y.state != x.state || y.chan != x.chan || y.ctx != x.ctx
    ensures q in Held(s.harts[m])
  {
    hide Inv;
    hide CondTurn;
    hide Done;
    hide Placed;
  }

  lemma OneHolder(s: State, h: nat, m: nat, q: nat)
    requires Inv(s) && h < |s.harts| && m < |s.harts| && q < |s.procs|
    requires q in Held(s.harts[h]) && q in Held(s.harts[m])
    ensures h == m
  {
    hide PointsOk;
    hide ProcsOk;
    hide ChansOk;
    assert s.procs[q].lock == Some(h);
  }

  lemma OneRunner(s: State, h: nat, m: nat, p: nat)
    requires Inv(s) && OnHart(s, h, p) && OnHart(s, m, p)
    ensures h == m
  {
    hide PointsOk;
    hide LocksOk;
    hide ChansOk;
  }

  /** A step of p's own hart leads on through the loop ... */
  lemma OwnPoint(s: State, s': State, m: nat, q: nat, c: Chan, p: nat)
    requires Law(s, s', m, q) && Bound(s, c, p) && OnHart(s, m, p) && OnHart(s', m, p)
    requires !Escapes(s, s', m, c, p)
    ensures Bedded(s'.harts[m].pc, c) && (Switching(s'.harts[m].pc) ==> s'.procs[p].state == SLEEPING)
  {
    assert Bedded(s.harts[m].pc, c);
    hide BoundProc;
    hide Local;
    hide Fields;
    hide ProcTurn;
    hide Met;
    hide Rechecks;
  }

  /** ... and leaves the PCB bound. */
  lemma OwnProc(s: State, s': State, m: nat, q: nat, c: Chan, p: nat)
    requires Law(s, s', m, q) && Bound(s, c, p) && OnHart(s, m, p) && !Escapes(s, s', m, c, p)
    requires PointOk(s, s.harts[m])
    requires forall h: nat :: OnHart(s, h, p) ==> h == m
    ensures BoundProc(s', c, p)
  {
    assert Bedded(s.harts[m].pc, c);
    hide Testing;
    hide ProcTurn;
    hide Met;
    hide Rechecks;
    if s'.procs[p].state == SLEEPING && s.harts[m].pc.SleepSet? {
      assert s'.harts[m].pc == Sched(Slept(c)) && OnHart(s', m, p);
    }
    if s'.procs[p].state == ZOMBIE {
      assert OnHart(s', m, p);
    }
  }

  lemma BoundOwn(s: State, s': State, m: nat, q: nat, c: Chan, p: nat)
    requires Inv(s) && Law(s, s', m, q) && Bound(s, c, p) && OnHart(s, m, p) && !Escapes(s, s', m, c, p)
    ensures Bound(s', c, p)
  {
    forall h: nat | OnHart(s, h, p)
      ensures h == m
    {
      OneRunner(s, h, m, p);
    }
    assert PointOk(s, s.harts[m]);
    OwnProc(s, s', m, q, c, p);
    hide Inv;
    hide PcbTurn;
    hide CondTurn;
    hide ProcTurn;
    hide BoundProc;
    hide PointOk;
    forall h: nat | OnHart(s', h, p)
      ensures Bedded(s'.harts[h].pc, c) && (Switching(s'.harts[h].pc) ==> s'.procs[p].state == SLEEPING)
    {
      assert h != m ==> OnHart(s, h, p);
      OwnPoint(s, s', m, q, c, p);
    }
  }

  /** A step of another hart on another PCB. */
  lemma BoundAway(s: State, s': State, m: nat, q: nat, c: Chan, p: nat)
    requires Law(s, s', m, q) && Bound(s, c, p) && !OnHart(s, m, p) && q != p && PointOk(s, s.harts[m])
    ensures Bound(s', c, p)
  {
    assert s'.procs[p] == s.procs[p];
    assert s'.harts[m].proc != Some(p) by {
      hide Bound;
      hide Testing;
      hide ProcTurn;
    }
    assert AtSched(s, p, c) ==> AtSched(s', p, c) by {
      hide PcbTurn;
      hide CondTurn;
      hide ProcTurn;
      if AtSched(s, p, c) {
        var h: nat :| OnHart(s, h, p) && s.harts[h].pc == Sched(Slept(c));
        assert OnHart(s', h, p) && s'.harts[h].pc == Sched(Slept(c));
      }
    }
    hide PcbTurn;
    hide CondTurn;
    hide ProcTurn;
    if OnSome(s, p) {
      var h: nat :| OnHart(s, h, p);
      assert OnHart(s', h, p);
    }
  }

  /** A hart on p in the loop holds p's lock unless p runs. */
  lemma BedHolds(s: State, h: nat, c: Chan, p: nat)
    requires OnHart(s, h, p) && PointOk(s, s.harts[h]) && p < |s.procs| && s.procs[p].state == ZOMBIE
    requires Bedded(s.harts[h].pc, c) && !Switching(s.harts[h].pc)
    ensures p in Held(s.harts[h])
  {
  }

  /** A hart that is not p's cannot take it out of its bed: what it may do to p's PCB ... */
  lemma OtherChange(s: State, s': State, m: nat, c: Chan, p: nat)
    requires Law(s, s', m, p) && Bound(s, c, p) && !OnHart(s, m, p) && PointOk(s, s.harts[m]) && FillOk(s, s.harts[m])
    ensures var x, y := s.procs[p], s'.procs[p];
            && (y.state == x.state || (x.state == SLEEPING && y.state == RUNNABLE)
                || (x.state == RUNNABLE && y.state == RUNNING) || (x.state == ZOMBIE && s.harts[m].pc == ReapHold(p)))
            && y.chan == x.chan && y.ctx == x.ctx
            && (s'.harts[m].proc == Some(p) ==>
                  x.state == RUNNABLE && s.harts[m].pc == Dispatch(p)
                  && (s'.harts[m].pc == Resumed(x.ctx) || s'.harts[m].pc == Faulted))
  {
    hide Testing;
    hide ProcTurn;
  }

  /** What it leaves of a hart that has p. */
  lemma BoundStay(s: State, s': State, m: nat, c: Chan, p: nat, h: nat)
    requires Inv(s) && Local(s, s', m, p) && Bound(s, c, p) && !OnHart(s, m, p) && OnHart(s, h, p)
    requires s'.procs[p].state != s.procs[p].state || s.harts[m].pc == Dispatch(p) ==> p in Held(s.harts[m])
    ensures h != m && OnHart(s', h, p) && s'.harts[h] == s.harts[h]
    ensures Switching(s.harts[h].pc) ==> s'.procs[p].state == s.procs[p].state && s.harts[m].pc != Dispatch(p)
    ensures s.procs[p].state == ZOMBIE ==> s'.procs[p].state == ZOMBIE
  {
    assert PointOk(s, s.harts[h]);
    assert Bedded(s.harts[h].pc, c);
    if p in Held(s.harts[m]) && p in Held(s.harts[h]) {
      OneHolder(s, h, m, p);
    }
    hide Inv;
    if s.procs[p].state == ZOMBIE && !Switching(s.harts[h].pc) {
      BedHolds(s, h, c, p);
    }
  }

  /** ... keeps it bound. */
  lemma BoundOther(s: State, s': State, m: nat, c: Chan, p: nat)
    requires Inv(s) && Law(s, s', m, p) && Bound(s, c, p) && !OnHart(s, m, p) && FillOk(s, s.harts[m])
    ensures Bound(s', c, p)
  {
    assert PointOk(s, s.harts[m]);
    OtherChange(s, s', m, c, p);
    var x, y := s.procs[p], s'.procs[p];
    assert Local(s, s', m, p);
    assert y.state != x.state ==> p in Held(s.harts[m]) by {
      if y.state != x.state {
        ChangeHeld(s, s', m, p);
      }
    }
    assert s.harts[m].pc == Dispatch(p) ==> p in Held(s.harts[m]);
    hide Law;
    hide Held;
    hide PointOk;
    hide Bedded;
    forall h: nat | OnHart(s, h, p)
      ensures h != m && OnHart(s', h, p) && s'.harts[h] == s.harts[h]
      ensures Switching(s.harts[h].pc) ==> s'.procs[p].state == s.procs[p].state && s.harts[m].pc != Dispatch(p)
      ensures s.procs[p].state == ZOMBIE ==> s'.procs[p].state == ZOMBIE
    {
      BoundStay(s, s', m, c, p, h);
    }
    hide Inv;
    assert AtSched(s, p, c) ==> AtSched(s', p, c) by {
      if AtSched(s, p, c) {
        var h: nat :| OnHart(s, h, p) && s.harts[h].pc == Sched(Slept(c));
        assert OnHart(s', h, p) && s'.harts[h].pc == Sched(Slept(c));
      }
    }
    assert x.state == ZOMBIE ==> OnSome(s', p) by {
      if x.state == ZOMBIE {
        var h: nat :| OnHart(s, h, p);
        assert OnHart(s', h, p);
      }
    }
    assert BoundProc(s', c, p);
    forall h: nat | OnHart(s', h, p)
      ensures Bedded(s'.harts[h].pc, c) && (Switching(s'.harts[h].pc) ==> s'.procs[p].state == SLEEPING)
    {
      if h != m {
        assert OnHart(s, h, p);
      } else {
        DispatchBeds(s, s', m, c, p);
      }
    }
  }

  lemma DispatchBeds(s: State, s': State, m: nat, c: Chan, p: nat)
    requires m < |s'.harts| && p < |s.procs| && BoundProc(s, c, p) && s.procs[p].state == RUNNABLE
    requires !AtSched(s, p, c)
    requires s'.harts[m].pc == Resumed(s.procs[p].ctx) || s'.harts[m].pc == Faulted
    ensures Bedded(s'.harts[m].pc, c) && !Switching(s'.harts[m].pc)
  {
  }

  /** A bound process stays bound until its own test comes out true. */
  lemma BoundStep(s: State, s': State, m: nat, c: Chan, p: nat)
    requires Inv(s) && FillsOk(s) && m < |s.harts| && HartStep(s, s', m) && Bound(s, c, p)
    ensures Bound(s', c, p) || Escapes(s, s', m, c, p)
  {
    StepLaw(s, s', m);
    assert PointOk(s, s.harts[m]) && FillOk(s, s.harts[m]);
    hide HartStep;
    hide Inv;
    hide PointOk;
    hide FillOk;
    hide Law;
    hide Target;
    hide Bound;
    var q := Target(s.harts[m], s'.harts[m]);
    if !Escapes(s, s', m, c, p) {
      if OnHart(s, m, p) {
        BoundOwn(s, s', m, q, c, p);
      } else if q != p {
        BoundAway(s, s', m, q, c, p);
      } else {
        BoundOther(s, s', m, c, p);
      }
    }
  }

  // ------------------------------------------------------------------ invariants

  lemma FillsNext(s: State, s': State, m: nat, q: nat)
    requires Inv(s) && FillsOk(s) && Law(s, s', m, q)
    ensures FillsOk(s')
  {
    forall h: nat | h < |s'.harts|
      ensures FillOk(s', s'.harts[h])
    {
      assert PointOk(s, s.harts[m]) && FillOk(s, s.harts[h]);
      if h == m {
        hide Inv;
        FillOwn(s, s', m, q);
      } else {
        hide PointOk;
        FillOther(s, s', m, q, h);
      }
    }
  }

  lemma FillOther(s: State, s': State, m: nat, q: nat, h: nat)
    requires Inv(s) && Law(s, s', m, q) && h < |s.harts| && h != m && FillOk(s, s.harts[h])
    ensures FillOk(s', s'.harts[h])
  {
    assert Local(s, s', m, q);
    if s.harts[h].pc == AllocFill(q) {
      var x, y := s.procs[q], s'.procs[q];
      hide Law;
      hide Inv;
      assert q in Held(s.harts[h]);
      if y.state != x.state || y.chan != x.chan {
        ChangeHeld(s, s', m, q);
        OneHolder(s, h, m, q);
      }
    }
  }

  lemma FillOwn(s: State, s': State, m: nat, q: nat)
    requires Law(s, s', m, q) && PointOk(s, s.harts[m])
    ensures FillOk(s', s'.harts[m])
  {
    hide Testing;
    hide ProcTurn;
    hide Cycle;
    hide Fields;
  }

  lemma BedsNext(s: State, s': State, m: nat)
    requires Inv(s) && FillsOk(s) && BedsOk(s) && m < |s.harts| && HartStep(s, s', m)
    ensures BedsOk(s')
  {
    StepLaw(s, s', m);
    hide HartStep;
    forall c: Chan, p: nat | Asleep(s', c, p)
      ensures Bound(s', c, p)
    {
      assert PointOk(s, s.harts[m]);
      hide Inv;
      hide Law;
      hide PointOk;
      hide Bound;
      if Asleep(s, c, p) {
        BoundStep(s, s', m, c, p);
        assert !Escapes(s, s', m, c, p) by { AsleepStays(s, s', m, c, p); }
      } else {
        NewSleeper(s, s', m, Target(s.harts[m], s'.harts[m]), c, p);
      }
    }
  }

  lemma AsleepStays(s: State, s': State, m: nat, c: Chan, p: nat)
    requires Asleep(s, c, p) && m < |s.harts| && PointOk(s, s.harts[m])
    ensures !Escapes(s, s', m, c, p)
  {
  }

  /** A process newly asleep has marked itself so and is on the way to the scheduler. */
  lemma NewSleeper(s: State, s': State, m: nat, q: nat, c: Chan, p: nat)
    requires Inv(s) && Law(s, s', m, q) && !Asleep(s, c, p) && Asleep(s', c, p)
    ensures Bound(s', c, p)
  {
    assert PointOk(s, s.harts[m]);
    NewAt(s, s', m, q, c, p);
    assert OnHart(s', m, p);
    hide Law;
    hide PointOk;
    forall h: nat | OnHart(s', h, p)
      ensures h == m
    {
      assert h != m ==> OnHart(s, h, p);
      if h != m {
        OneRunner(s, h, m, p);
      }
    }
  }

  lemma NewAt(s: State, s': State, m: nat, q: nat, c: Chan, p: nat)
    requires Law(s, s', m, q) && !Asleep(s, c, p) && Asleep(s', c, p) && PointOk(s, s.harts[m])
    ensures OnHart(s, m, p) && s'.harts[m] == Hart(Some(p), Sched(Slept(c)))
    ensures Local(s, s', m, p)
  {
    hide Testing;
    hide ProcTurn;
  }

  lemma TicksNext(s: State, s': State, m: nat, q: nat)
    requires Inv(s) && TicksOk(s) && Law(s, s', m, q)
    ensures TicksOk(s')
  {
    forall h: nat | h < |s'.harts|
      ensures TickOk(s', s'.harts[h])
    {
      assert TickOk(s, s.harts[h]) && PointOk(s, s.harts[m]) && PointOk(s, s.harts[h]);
      if h == m {
        TickOwn(s, s', m, q);
      } else if s.harts[h].pc == CondDone(Tick) {
        assert OnHart(s, m, s.harts[h].proc.value) ==> h == m by {
          if OnHart(s, m, s.harts[h].proc.value) {
            OneRunner(s, h, m, s.harts[h].proc.value);
          }
        }
        hide Inv;
        TickOther(s, s', m, q, h);
      }
    }
  }

  lemma TickOwn(s: State, s': State, m: nat, q: nat)
    requires Law(s, s', m, q)
    ensures TickOk(s', s'.harts[m])
  {
    hide Staying;
    hide Cycle;
    hide Done;
  }

  lemma TickOther(s: State, s': State, m: nat, q: nat, h: nat)
    requires Law(s, s', m, q) && h < |s.harts| && h != m && s.harts[h].pc == CondDone(Tick)
    requires PointOk(s, s.harts[h]) && PointOk(s, s.harts[m]) && TickOk(s, s.harts[h])
    requires !OnHart(s, m, s.harts[h].proc.value)
    ensures TickOk(s', s'.harts[h])
  {
    hide Staying;
    hide Testing;
    hide Cycle;
    hide Done;
  }

  lemma ReapsNext(s: State, s': State, m: nat, q: nat)
    requires Inv(s) && ReapsOk(s) && Law(s, s', m, q)
    ensures ReapsOk(s')
  {
    forall h: nat | h < |s'.harts|
      ensures ReapOk(s', s'.harts[h])
    {
      assert ReapOk(s, s.harts[h]);
      if h == m {
        ReapOwn(s, s', m, q);
      } else if Reaping(s.harts[h].pc) {
        if OnHart(s, m, s.harts[h].proc.value) {
          OneRunner(s, h, m, s.harts[h].proc.value);
        }
        hide Inv;
        hide PcbTurn;
        hide CondTurn;
      }
    }
  }

  lemma ReapOwn(s: State, s': State, m: nat, q: nat)
    requires Law(s, s', m, q) && ReapOk(s, s.harts[m])
    ensures ReapOk(s', s'.harts[m])
  {
    hide Staying;
    hide PcbTurn;
    hide Met;
    hide Rechecks;
  }

  ghost predicate CondOk(s: State) {
    Inv(s) && FillsOk(s) && BedsOk(s) && TicksOk(s) && ReapsOk(s)
  }

  lemma CondNext(s: State, s': State)
    requires CondOk(s) && Next(s, s')
    ensures CondOk(s')
  {
    NextKeeps(s, s');
    var m: nat :| m < |s.harts| && HartStep(s, s', m);
    StepLaw(s, s', m);
    hide HartStep;
    hide Inv;
    hide FillsOk;
    hide BedsOk;
    hide TicksOk;
    hide ReapsOk;
    hide Law;
    var q := Target(s.harts[m], s'.harts[m]);
    hide Target;
    FillsNext(s, s', m, q);
    BedsNext(s, s', m);
    TicksNext(s, s', m, q);
    ReapsNext(s, s', m, q);
  }

  lemma {:induction false} RunCondOk(r: seq<State>, i: nat)
    requires IsRun(r) && i < |r|
    ensures CondOk(r[i])
    decreases i
  {
    hide Next;
    if i > 0 {
      RunCondOk(r, i - 1);
      hide CondOk;
      assert Next(r[i - 1], r[i - 1 + 1]);
      CondNext(r[i - 1], r[i]);
    } else {
      InitInv(r[0]);
      hide Inv;
    }
  }

  // -------------------------------------------------------------------- theorems

  /** Over every run: sys_sleep() is about to return only once its tick has come, or killed. */
  lemma SleepLasts(r: seq<State>, i: nat, h: nat)
    requires IsRun(r) && i < |r| && h < |r[i].harts| && r[i].harts[h].pc == CondDone(Tick)
    ensures var o := r[i].harts[h].proc;
            o.Some? && o.value < |r[i].procs|
            && (r[i].procs[o.value].want <= r[i].ticks || r[i].procs[o.value].killed)
  {
    RunCondOk(r, i);
    assert TickOk(r[i], r[i].harts[h]);
    hide Inv;
  }

  /** What one step of a run does, by the hart that makes it. */
  ghost predicate Stepped(s: State, s': State) {
    |s'.harts| == |s.harts| && exists m: nat, q: nat :: Law(s, s', m, q)
  }

  lemma RunLaw(r: seq<State>, i: nat)
    requires IsRun(r) && i + 1 < |r|
    ensures Inv(r[i]) && Stepped(r[i], r[i + 1])
  {
    RunInv(r, i);
    hide Inv;
    assert Next(r[i], r[i + 1]);
    hide HartStep;
    var m: nat :| m < |r[i].harts| && HartStep(r[i], r[i + 1], m);
    StepLaw(r[i], r[i + 1], m);
  }

  lemma ReadLaw(s: State, s': State, h: nat)
    requires Stepped(s, s') && h < |s.harts| && s.harts[h] != s'.harts[h]
    ensures s'.harts[h].pc == CondDone(Cons) ==> s.harts[h].pc == Cond(Cons) && s.avail > 0
    ensures s'.harts[h].pc == SleepLock(Cons) ==> s.harts[h].pc == Cond(Cons) && s.avail == 0
  {
    var m: nat, q: nat :| Law(s, s', m, q);
    hide Staying;
    hide Rechecks;
    assert CondTurn(s, s', m) && h == m;
    hide PcbTurn;
    hide ProcTurn;
  }

  lemma WokeLaw(s: State, s': State, h: nat, c: Chan)
    requires Stepped(s, s') && h < |s.harts| && s.harts[h] != s'.harts[h] && s.harts[h].pc == Woke(c)
    ensures var o := s.harts[h].proc;
            o.Some? && o.value < |s.procs|
            && s'.harts[h] == Hart(o, if s.procs[o.value].killed then ExitLock(Some(c)) else Cond(c))
  {
    var m: nat, q: nat :| Law(s, s', m, q);
    hide Staying;
    hide Met;
    assert CondTurn(s, s', m) && h == m;
    hide PcbTurn;
    hide ProcTurn;
  }

  /** Over every run: the console reader leaves its wait loop only from its test, with a byte
      there, and sleeps only from its test, with none. */
  lemma ReadNeedsByte(r: seq<State>, i: nat, h: nat)
    requires IsRun(r) && i + 1 < |r| && h < |r[i].harts| && h < |r[i + 1].harts| && r[i].harts[h] != r[i + 1].harts[h]
    ensures r[i + 1].harts[h].pc == CondDone(Cons) ==> r[i].harts[h].pc == Cond(Cons) && r[i].avail > 0
    ensures r[i + 1].harts[h].pc == SleepLock(Cons) ==> r[i].harts[h].pc == Cond(Cons) && r[i].avail == 0
  {
    RunLaw(r, i);
    hide *;
    ReadLaw(r[i], r[i + 1], h);
  }

  /** Over every run: a process that wakes up goes back to its test, or to exit() iff killed. */
  lemma WokenRechecks(r: seq<State>, i: nat, h: nat, c: Chan)
    requires IsRun(r) && i + 1 < |r| && h < |r[i].harts| && r[i].harts[h].pc == Woke(c)
    requires h < |r[i + 1].harts| && r[i].harts[h] != r[i + 1].harts[h]
    ensures var o := r[i].harts[h].proc;
            o.Some? && o.value < |r[i].procs|
            && r[i + 1].harts[h] == Hart(o, if r[i].procs[o.value].killed then ExitLock(Some(c)) else Cond(c))
  {
    RunLaw(r, i);
    hide *;
    WokeLaw(r[i], r[i + 1], h, c);
  }

  /** Hart o holds a condition lock at such a point. */
  predicate InHandler(s: State, o: Option<nat>) {
    o.Some? && o.value < |s.harts| && s.harts[o.value].pc.IntrHold?
  }

  predicate InReader(s: State, o: Option<nat>) {
    o.Some? && o.value < |s.harts| && s.harts[o.value].pc == Cond(Cons)
  }

  /** The holder of a condition lock at the handler's or the reader's point. */
  lemma GuardedAt(s: State, m: nat)
    requires Inv(s) && m < |s.harts|
    ensures s.harts[m].pc.IntrHold? ==> Lk(s, s.harts[m].pc.c) == Some(m)
    ensures s.harts[m].pc == Cond(Cons) ==> s.consLock == Some(m)
  {
    assert forall c: Chan :: HeldChan(s.harts[m].pc) == Some(c) ==> Lk(s, c) == Some(m);
    hide Inv;
    assert s.harts[m].pc == Cond(Cons) ==> Lk(s, Cons) == Some(m);
  }

  lemma GuardedLaw(s: State, s': State)
    requires Inv(s) && Stepped(s, s')
    ensures s.ticks <= s'.ticks <= s.ticks + 1 && s.avail <= s'.avail + 1
    ensures s'.ticks != s.ticks ==> InHandler(s, s.tickLock)
    ensures s'.avail > s.avail ==> InHandler(s, s.consLock)
    ensures s'.avail < s.avail ==> InReader(s, s.consLock)
  {
    hide Inv;
    hide PcbTurn;
    hide ProcTurn;
    hide Testing;
    hide Staying;
    var m: nat, q: nat :| Law(s, s', m, q);
    GuardedAt(s, m);
    assert CondTurn(s, s', m);
  }

  /** The clock and the console's bytes change under their locks only: up by a handler, and down
      by one byte at a time by a reader. */
  lemma ConditionsGuarded(r: seq<State>, i: nat)
    requires IsRun(r) && i + 1 < |r|
    ensures r[i].ticks <= r[i + 1].ticks <= r[i].ticks + 1 && r[i].avail <= r[i + 1].avail + 1
    ensures r[i + 1].ticks != r[i].ticks ==> InHandler(r[i], r[i].tickLock)
    ensures r[i + 1].avail > r[i].avail ==> InHandler(r[i], r[i].consLock)
    ensures r[i + 1].avail < r[i].avail ==> InReader(r[i], r[i].consLock)
  {
    RunLaw(r, i);
    hide *;
    GuardedLaw(r[i], r[i + 1]);
  }

  ghost predicate Escaped(s: State, s': State, c: Chan, p: nat) {
    exists x: nat :: Escapes(s, s', x, c, p)
  }

  /** The test of p's wait loop comes out true between states j and j + 1. */
  ghost predicate TestsTrue(r: seq<State>, j: nat, c: Chan, p: nat) {
    j + 1 < |r| && Escaped(r[j], r[j + 1], c, p)
  }

  /** Over every run: a process that slept on c and runs its own code again, or is anywhere else
      outside the wait loop, has in between tested its condition and found it true. */
  lemma SleeperRetests(r: seq<State>, i: nat, k: nat, h: nat, c: Chan, p: nat)
    requires IsRun(r) && i <= k < |r| && Asleep(r[i], c, p)
    requires OnHart(r[k], h, p) && !Bedded(r[k].harts[h].pc, c)
    ensures exists j: nat :: i <= j < k && TestsTrue(r, j, c, p)
  {
    RunCondOk(r, i);
    hide Inv;
    assert Bound(r[i], c, p);
    hide IsRun;
    hide Bedded;
    hide Asleep;
    if forall j: nat :: i <= j < k ==> !TestsTrue(r, j, c, p) {
      StaysBound(r, i, k, c, p);
      assert false;
    }
  }

  lemma {:induction false} StaysBound(r: seq<State>, i: nat, k: nat, c: Chan, p: nat)
    requires IsRun(r) && i <= k < |r| && Bound(r[i], c, p)
    requires forall j: nat :: i <= j < k ==> !TestsTrue(r, j, c, p)
    ensures Bound(r[k], c, p)
    decreases k
  {
    hide Bound;
    hide Next;
    hide Init;
    if i < k {
      StaysBound(r, i, k - 1, c, p);
      RunCondOk(r, k - 1);
      hide FillsOk;
      hide BedsOk;
      hide TicksOk;
      hide ReapsOk;
      assert Next(r[k - 1], r[k - 1 + 1]);
      assert !TestsTrue(r, k - 1, c, p);
      assert !Escaped(r[k - 1], r[k], c, p);
      hide Inv;
      hide Escaped;
      BoundNext(r[k - 1], r[k], c, p);
    }
  }

  lemma BoundNext(s: State, s': State, c: Chan, p: nat)
    requires Inv(s) && FillsOk(s) && Next(s, s') && Bound(s, c, p)
    ensures Bound(s', c, p) || Escaped(s, s', c, p)
  {
    hide HartStep;
    hide Inv;
    hide FillsOk;
    hide Bound;
    var m: nat :| m < |s.harts| && HartStep(s, s', m);
    BoundStep(s, s', m, c, p);
  }

  /** Hart h changes the state of p, which it has locked. */
  ghost predicate CycledBy(s: State, s': State, h: nat, p: nat)
    requires p < |s.procs| && p < |s'.procs|
  {
    && h < |s.harts| && h < |s'.harts| && s.procs[p].lock == Some(h)
    && Cycle(s.procs[p], s'.procs[p], s.harts[h], s'.harts[h], p)
    && (s.procs[p].state == ZOMBIE ==> Wants(s, s.harts[h], p))
  }

  ghost predicate Cycled(s: State, s': State, p: nat)
    requires p < |s.procs| && p < |s'.procs|
  {
    exists h: nat :: CycledBy(s, s', h, p)
  }

  lemma CycleLaw(s: State, s': State, p: nat)
    requires Inv(s) && ReapsOk(s) && Stepped(s, s') && p < |s.procs|
    ensures |s'.procs| == |s.procs|
    ensures s.procs[p].state != s'.procs[p].state ==> Cycled(s, s', p)
  {
    var m: nat, q: nat :| Law(s, s', m, q);
    if s.procs[p].state != s'.procs[p].state {
      assert q == p;
      ChangeHeld(s, s', m, p);
      assert ReapOk(s, s.harts[m]);
      assert s.procs[p].lock == Some(m);
      hide Inv;
      hide CondTurn;
      hide ProcTurn;
      hide Fields;
      hide Done;
      assert CycledBy(s, s', m, p);
    }
  }

  /** Over every run: the state of a process changes only under its lock and in the ways of its
      life cycle; wait() reaps the slot it was called for. */
  lemma LifeCycle(r: seq<State>, i: nat, p: nat)
    requires IsRun(r) && i + 1 < |r| && p < |r[i].procs|
    ensures p < |r[i + 1].procs|
    ensures r[i].procs[p].state != r[i + 1].procs[p].state ==> Cycled(r[i], r[i + 1], p)
  {
    RunCondOk(r, i);
    RunLaw(r, i);
    hide Inv;
    hide Stepped;
    hide ReapsOk;
    CycleLaw(r[i], r[i + 1], p);
  }

  /** p goes to the scheduler from place t, or its slot is filled anew, in state j. */
  ghost predicate LeftAt(s: State, p: nat, t: Resume) {
    exists h: nat :: OnHart(s, h, p) && s.harts[h].pc == Sched(t)
  }

  ghost predicate Filling(s: State, p: nat) {
    exists h: nat :: h < |s.harts| && s.harts[h].pc == AllocFill(p)
  }

  /** Nothing in state s makes p come back anywhere but at t. */
  ghost predicate KeepsPlace(s: State, p: nat, t: Resume) {
    !Filling(s, p) && forall t': Resume :: LeftAt(s, p, t') ==> t' == t
  }

  /** p is on its way to the scheduler from t, or will come back there. */
  ghost predicate From(s: State, p: nat, t: Resume) {
    p < |s.procs| && (LeftAt(s, p, t) || s.procs[p].ctx == t)
  }

  lemma PlaceLaw(s: State, s': State, p: nat, t: Resume)
    requires Stepped(s, s') && From(s, p, t) && KeepsPlace(s, p, t)
    ensures From(s', p, t)
  {
    var m: nat, q: nat :| Law(s, s', m, q);
    assert Local(s, s', m, q) && Fields(s.procs[q], s'.procs[q], s.harts[m], q);
    assert s.harts[m] == Hart(Some(q), Sched(t)) ==> s'.procs[q].ctx == t;
    hide Law;
    if s'.procs[p].ctx != s.procs[p].ctx {
      assert q == p;
      if s.harts[m].pc != AllocFill(p) {
        assert OnHart(s, m, p) && LeftAt(s, p, s'.procs[p].ctx);
      }
    } else if s.procs[p].ctx != t {
      var h: nat :| OnHart(s, h, p) && s.harts[h].pc == Sched(t);
      if h != m {
        assert OnHart(s', h, p) && s'.harts[h].pc == Sched(t);
      } else {
        PlaceOwn(s, s', m, p, t);
      }
    }
  }

  lemma PlaceOwn(s: State, s': State, m: nat, p: nat, t: Resume)
    requires Stepped(s, s') && m < |s.harts| && p < |s.procs| && s.harts[m] == Hart(Some(p), Sched(t))
    ensures From(s', p, t)
  {
  }

  lemma {:induction false} PlaceKept(r: seq<State>, i: nat, k: nat, p: nat, t: Resume)
    requires IsRun(r) && i <= k < |r| && From(r[i], p, t)
    requires forall j: nat :: i <= j < k ==> KeepsPlace(r[j], p, t)
    ensures From(r[k], p, t)
    decreases k
  {
    hide *;
    if i < k {
      PlaceKept(r, i, k - 1, p, t);
      RunLaw(r, k - 1);
      assert KeepsPlace(r[k - 1], p, t);
      PlaceLaw(r[k - 1], r[k - 1 + 1], p, t);
    }
  }

  /** Hart h has been given process p and resumes it at t. */
  ghost predicate BackAt(s: State, p: nat, t: Resume) {
    exists h: nat :: OnHart(s, h, p) && s.harts[h].pc == Resumed(t)
  }

  lemma DispatchLaw(s: State, s': State, p: nat, t: Resume)
    requires Inv(s) && ReapsOk(s) && Stepped(s, s') && From(s, p, t)
    requires s.procs[p].state == RUNNABLE && p < |s'.procs| && s'.procs[p].state == RUNNING && s.procs[p].paged
    ensures BackAt(s', p, t)
  {
    assert p < |s.procs|;
    hide Inv;
    hide Stepped;
    hide ReapsOk;
    hide From;
    hide Wants;
    CycleLaw(s, s', p);
    var m: nat :| CycledBy(s, s', m, p);
    PlaceAlone(s, m, p, t);
    assert OnHart(s', m, p);
  }

  lemma PlaceAlone(s: State, m: nat, p: nat, t: Resume)
    requires Inv(s) && From(s, p, t) && m < |s.harts| && s.harts[m].pc == Dispatch(p)
    ensures s.procs[p].ctx == t
  {
    assert p in Held(s.harts[m]) && PointOk(s, s.harts[m]);
    assert s.procs[p].lock == Some(m);
    hide Inv;
    hide PointOk;
    forall h: nat | OnHart(s, h, p)
      ensures s.harts[h].pc != Sched(t)
    {
      if h != m {
        NotHeld(s, m, h, p);
      }
    }
  }

  /** Over every run: a process that left for the scheduler from t and is dispatched again comes
      back at t, on whatever hart, unless it left again or its slot was filled anew in between. */
  lemma ComesBack(r: seq<State>, i: nat, k: nat, p: nat, t: Resume)
    requires IsRun(r) && i <= k && k + 1 < |r| && p < |r[i].procs| && LeftAt(r[i], p, t)
    requires forall j: nat :: i <= j < k ==> KeepsPlace(r[j], p, t)
    requires p < |r[k].procs| && r[k].procs[p].state == RUNNABLE && r[k].procs[p].paged
    requires p < |r[k + 1].procs| && r[k + 1].procs[p].state == RUNNING
    ensures BackAt(r[k + 1], p, t)
  {
    PlaceKept(r, i, k, p, t);
    RunCondOk(r, k);
    RunLaw(r, k);
    hide Inv;
    hide Stepped;
    hide ReapsOk;
    hide KeepsPlace;
    DispatchLaw(r[k], r[k + 1], p, t);
  }

  lemma SweepLaw(s: State, s': State, h: nat)
    requires Stepped(s, s') && h < |s.harts| && InSweep(s.harts[h].pc) && s.harts[h] != s'.harts[h]
    ensures Sweeps(|s.procs|, s.harts[h], s'.harts[h])
    ensures s.harts[h].pc.KillWakeHold? ==> !Asleep(s', Pool, s.harts[h].pc.i)
  {
    var m: nat, q: nat :| Law(s, s', m, q);
    assert h == m;
    hide ProcTurn;
    hide CondTurn;
    hide Cycle;
    hide Fields;
    assert s.harts[h].pc.KillWakeHold? ==> Wakes(s.harts[h].pc, Pool, q);
  }

  /** Over every run: the wakeup in kill() leaves no slot behind but its own process's and those
      that it has locked and that sleep on the pool channel no more, up to the last one. */
  lemma KillSweeps(r: seq<State>, i: nat, h: nat)
    requires IsRun(r) && i + 1 < |r| && h < |r[i].harts| && h < |r[i + 1].harts| && r[i].harts[h] != r[i + 1].harts[h]
    requires InSweep(r[i].harts[h].pc)
    ensures Sweeps(|r[i].procs|, r[i].harts[h], r[i + 1].harts[h])
    ensures r[i].harts[h].pc.KillWakeHold? ==> !Asleep(r[i + 1], Pool, r[i].harts[h].pc.i)
  {
    RunLaw(r, i);
    hide *;
    SweepLaw(r[i], r[i + 1], h);
  }

  lemma RaiseLaw(s: State, s': State, h: nat)
    requires Stepped(s, s') && h < |s.harts| && s.harts[h].pc.IntrHold? && s.harts[h] != s'.harts[h]
    ensures var x := s.harts[h].pc;
            && (x.c == Tick ==> s'.ticks == s.ticks + 1 && s'.harts[h].pc == IntrWake(Tick, 0, x.ret))
            && (x.c == Cons ==> s'.harts[h].pc == if s'.avail > s.avail then IntrWake(Cons, 0, x.ret) else x.ret)
  {
    var m: nat, q: nat :| Law(s, s', m, q);
    assert h == m;
    hide ProcTurn;
    hide CondTurn;
    hide PcbTurn;
  }

  /** Over every run: the timer advances the clock by one and then wakes from the first slot on; the
      console handler wakes so iff it has committed bytes. */
  lemma HandlerRaises(r: seq<State>, i: nat, h: nat)
    requires IsRun(r) && i + 1 < |r| && h < |r[i].harts| && h < |r[i + 1].harts| && r[i].harts[h] != r[i + 1].harts[h]
    requires r[i].harts[h].pc.IntrHold?
    ensures var x := r[i].harts[h].pc;
            && (x.c == Tick ==> r[i + 1].ticks == r[i].ticks + 1 && r[i + 1].harts[h].pc == IntrWake(Tick, 0, x.ret))
            && (x.c == Cons ==>
                  r[i + 1].harts[h].pc
                  == if r[i + 1].avail > r[i].avail then IntrWake(Cons, 0, x.ret) else x.ret)
  {
    RunLaw(r, i);
    hide *;
    RaiseLaw(r[i], r[i + 1], h);
  }
}
