/**
  wait() and exit(): exit() wakes without the lock that wait() checks its child under, so a
  child's exit can be missed.  When exactly that happens, over every run.
 */
module SchedulerMiss {
  import opened Wrappers
  import opened Scheduler
  import opened SchedulerInv
  import opened SchedulerWait

  /** On the way from wait()'s check to sleep. */
  predicate Falling(pc: PC) { pc == SleepLock(Pool) || pc == SleepHold(Pool) || pc == SleepSet(Pool) }

  ghost predicate FallsOn(s: State, x: nat, p: nat) {
    x < |s.harts| && s.harts[x].proc == Some(p) && Falling(s.harts[x].pc)
  }

  predicate InBed(x: Proc) { x.state == SLEEPING && x.chan == Some(Pool) }

  /** p has found its child alive and sleeps, or will. */
  ghost predicate Committed(s: State, p: nat)
    requires p < |s.procs|
  {
    InBed(s.procs[p]) || exists x: nat :: FallsOn(s, x, p)
  }

  /** The wakeup loop of w's exit() has not passed slot p. */
  predicate ExitAt(x: Hart, w: nat, p: nat) {
    x.proc == Some(w) && InLoop(x.pc) && x.pc.i <= p
  }

  ghost predicate ExitComing(s: State, w: nat, p: nat) {
    exists h: nat :: h < |s.harts| && ExitAt(s.harts[h], w, p)
  }

  /** p sleeps, or will, for its child w, which is dead and will not wake it. */
  ghost predicate Lost(s: State, p: nat, w: nat) {
    && p < |s.procs| && w < |s.procs| && Committed(s, p) && s.procs[p].want == w
    && s.procs[w].state == ZOMBIE && !ExitComing(s, w, p)
  }

  /** Hart h passes slot p for the exit of w, while hart x is about to lock p for sleep(). */
  ghost predicate Passes(s: State, h: nat, x: nat, p: nat, w: nat) {
    && h < |s.harts| && x < |s.harts| && p < |s.procs| && s.procs[p].want == w
    && s.harts[h].proc == Some(w) && s.harts[h].pc.ExitWakeHold? && s.harts[h].pc.i == p
    && s.harts[x] == Hart(Some(p), SleepLock(Pool))
  }

  // ------------------------------------------------------- a dead child stays dead

  predicate Reaping(pc: PC) { pc.ReapLock? || pc.ReapHold? }

  predicate InLoop(pc: PC) { pc.ExitWake? || pc.ExitWakeLock? || pc.ExitWakeHold? }

  predicate InExit(pc: PC) { pc.ExitLock? || pc.ExitHold? || InLoop(pc) }

  ghost predicate Dead(s: State, p: nat) { p < |s.procs| && s.procs[p].state == ZOMBIE }

  /** wait() locks only children that are dead, and stay so: its second look is never needed.
      A process in the loop of exit() is dead. */
  ghost predicate DeathOk(s: State, x: Hart) {
    && (Reaping(x.pc) ==> Dead(s, x.pc.i))
    && (InLoop(x.pc) ==> x.proc.Some? && Dead(s, x.proc.value))
  }

  ghost predicate DeathsOk(s: State) {
    forall h: nat :: h < |s.harts| ==> DeathOk(s, s.harts[h])
  }

  /** What a step of hart h can do to PCB q, the only one it touches. */
  ghost predicate ProcTurn(s: State, s': State, h: nat, q: nat) {
    && h < |s.harts| && h < |s'.harts| && q < |s.procs| && q < |s'.procs|
    && var x, y, a, b := s.procs[q], s'.procs[q], s.harts[h], s'.harts[h];
    && (InBed(y) && !InBed(x) ==> a == Hart(Some(q), SleepSet(Pool)))
    && (y.state == ZOMBIE && x.state != ZOMBIE ==> b.proc == Some(q) && b.pc.ExitWake? && b.pc.i == 0)
    && (y.state != ZOMBIE && x.state == ZOMBIE ==> a.pc == ReapHold(q))
    && (y.want != x.want ==> a.proc == Some(q) && a.pc.CondLock? && b.pc.Cond?)
  }

  /** What a step of hart h can do to its control point, where sleep, reaping and exit matter. */
  ghost predicate HartTurn(s: State, s': State, h: nat) {
    && h < |s.harts| && h < |s'.harts|
    && var a, b := s.harts[h], s'.harts[h];
    && (Reaping(b.pc) ==> !a.pc.ReapHold? && (Dead(s, b.pc.i) || a.pc == ReapLock(b.pc.i)))
    && (Falling(b.pc) ==> a.proc == b.proc && (Falling(a.pc) || Decides(s, h)))
    && (InLoop(b.pc) ==> a.proc == b.proc && a.proc.Some? && (InLoop(a.pc) || Dead(s', a.proc.value)))
    && (InLoop(a.pc) ==> LoopStep(s, s', h))
  }

  /** wait() decides to sleep: its child is not dead, or was not when it was locked. */
  ghost predicate Decides(s: State, h: nat)
    requires h < |s.harts|
  {
    || (s.harts[h].pc == Cond(Pool) && s.harts[h].proc.Some? && s.harts[h].proc.value < |s.procs|
        && var w := s.procs[s.harts[h].proc.value].want; w < |s.procs| && s.procs[w].state != ZOMBIE)
    || (s.harts[h].pc.ReapHold? && s.harts[h].pc.i < |s.procs| && s.procs[s.harts[h].pc.i].state != ZOMBIE)
  }

  /** The wakeup loop of exit() stays at its slot, skips its own, or leaves a slot it has locked,
      which is then not in bed. */
  ghost predicate LoopStep(s: State, s': State, h: nat)
    requires h < |s.harts| && h < |s'.harts| && InLoop(s.harts[h].pc)
  {
    var a, b := s.harts[h], s'.harts[h];
    a.pc.i < |s.procs| ==>
      && b.proc == a.proc && InLoop(b.pc)
      && (if a.pc.ExitWakeHold? then b.pc.i == a.pc.i + 1 && a.pc.i < |s'.procs| && !InBed(s'.procs[a.pc.i])
          else b.pc.i == a.pc.i || (b.pc.i == a.pc.i + 1 && a.proc == Some(a.pc.i)))
  }

  /** The PCB a step touches. */
  function Target(a: Hart, b: Hart): nat {
    match a.pc
    case ScanLock(i, _) => i
    case ScanCheck(i, best) => if best.Some? && b.pc == Scan(i + 1, Some(i)) then best.value else i
    case Dispatch(p) => p
    case Back(p) => p
    case AgeLock(i) => i
    case AgeHold(i) => i
    case ExitWakeLock(i, _) => i
    case ExitWakeHold(i, _) => i
    case AllocLock(i) => i
    case AllocHold(i) => i
    case AllocPid(i) => i
    case AllocPidHold(i) => i
    case AllocFill(i) => i
    case ReapLock(i) => i
    case ReapHold(i) => i
    case KillLock(i) => i
    case KillHold(i) => i
    case KillWakeLock(i) => i
    case KillWakeHold(i) => i
    case IntrWakeLock(_, i, _) => i
    case IntrWakeHold(_, i, _) => i
    case _ => if a.proc.Some? then a.proc.value else 0
  }

  /** A control point outside sleep, reaping and exit's loop. */
  predicate Dull(pc: PC) { !Reaping(pc) && !Falling(pc) && !InLoop(pc) }

  lemma DullHart(s: State, s': State, h: nat)
    requires h < |s.harts| && h < |s'.harts| && !InLoop(s.harts[h].pc) && Dull(s'.harts[h].pc)
    ensures HartTurn(s, s', h)
  {
  }

  ghost predicate Turn(s: State, s': State, h: nat, q: nat) {
    Local(s, s', h, q) && ProcTurn(s, s', h, q) && HartTurn(s, s', h)
  }

  lemma SearchLocal(s: State, s': State, h: nat)
    requires h < |s.harts| && PointOk(s, s.harts[h]) && |s.procs| > 0
    requires SchedulerStep(s, s', h)
    ensures OnlyHart(s, s', h) && Local(s, s', h, Target(s.harts[h], s'.harts[h]))
  {
  }

  lemma SearchProc(s: State, s': State, h: nat)
    requires h < |s.harts| && PointOk(s, s.harts[h]) && |s.procs| > 0
    requires SchedulerStep(s, s', h)
    ensures OnlyHart(s, s', h) && ProcTurn(s, s', h, Target(s.harts[h], s'.harts[h]))
  {
  }

  lemma SearchHart(s: State, s': State, h: nat)
    requires h < |s.harts| && PointOk(s, s.harts[h]) && |s.procs| > 0
    requires SchedulerStep(s, s', h)
    ensures HartTurn(s, s', h)
  {
    SearchDull(s, s', h);
    hide *;
    DullHart(s, s', h);
  }

  lemma SearchDull(s: State, s': State, h: nat)
    requires h < |s.harts| && PointOk(s, s.harts[h]) && |s.procs| > 0
    requires SchedulerStep(s, s', h)
    ensures |s'.harts| == |s.harts| && !InLoop(s.harts[h].pc) && Dull(s'.harts[h].pc)
  {
  }

  lemma InterruptLocal(s: State, s': State, h: nat)
    requires h < |s.harts| && PointOk(s, s.harts[h]) && |s.procs| > 0
    requires InterruptStep(s, s', h)
    ensures OnlyHart(s, s', h) && Local(s, s', h, Target(s.harts[h], s'.harts[h]))
  {
  }

  lemma InterruptProc(s: State, s': State, h: nat)
    requires h < |s.harts| && PointOk(s, s.harts[h]) && |s.procs| > 0
    requires InterruptStep(s, s', h)
    ensures OnlyHart(s, s', h) && ProcTurn(s, s', h, Target(s.harts[h], s'.harts[h]))
  {
  }

  lemma InterruptHart(s: State, s': State, h: nat)
    requires h < |s.harts| && PointOk(s, s.harts[h]) && |s.procs| > 0
    requires InterruptStep(s, s', h)
    ensures HartTurn(s, s', h)
  {
    InterruptDull(s, s', h);
    hide *;
    DullHart(s, s', h);
  }

  lemma InterruptDull(s: State, s': State, h: nat)
    requires h < |s.harts| && PointOk(s, s.harts[h]) && |s.procs| > 0
    requires InterruptStep(s, s', h)
    ensures |s'.harts| == |s.harts| && !InLoop(s.harts[h].pc) && Dull(s'.harts[h].pc)
  {
  }

  lemma HandlerLocal(s: State, s': State, h: nat)
    requires h < |s.harts| && PointOk(s, s.harts[h]) && |s.procs| > 0
    requires HandlerStep(s, s', h)
    ensures OnlyHart(s, s', h) && Local(s, s', h, Target(s.harts[h], s'.harts[h]))
  {
  }

  lemma HandlerProc(s: State, s': State, h: nat)
    requires h < |s.harts| && PointOk(s, s.harts[h]) && |s.procs| > 0
    requires HandlerStep(s, s', h)
    ensures OnlyHart(s, s', h) && ProcTurn(s, s', h, Target(s.harts[h], s'.harts[h]))
  {
  }

  lemma HandlerHart(s: State, s': State, h: nat)
    requires h < |s.harts| && PointOk(s, s.harts[h]) && |s.procs| > 0
    requires HandlerStep(s, s', h)
    ensures HartTurn(s, s', h)
  {
    HandlerDull(s, s', h);
    hide *;
    DullHart(s, s', h);
  }

  lemma HandlerDull(s: State, s': State, h: nat)
    requires h < |s.harts| && PointOk(s, s.harts[h]) && |s.procs| > 0
    requires HandlerStep(s, s', h)
    ensures |s'.harts| == |s.harts| && !InLoop(s.harts[h].pc) && Dull(s'.harts[h].pc)
  {
  }

  lemma ThreadLocal(s: State, s': State, h: nat, p: nat)
    requires h < |s.harts| && PointOk(s, s.harts[h]) && |s.procs| > 0
    requires p < |s.procs| && s.harts[h].proc == Some(p) && ThreadStep(s, s', h, p)
    ensures OnlyHart(s, s', h) && Local(s, s', h, Target(s.harts[h], s'.harts[h]))
  {
  }

  lemma ThreadProc(s: State, s': State, h: nat, p: nat)
    requires h < |s.harts| && PointOk(s, s.harts[h]) && |s.procs| > 0
    requires p < |s.procs| && s.harts[h].proc == Some(p) && ThreadStep(s, s', h, p)
    ensures OnlyHart(s, s', h) && ProcTurn(s, s', h, Target(s.harts[h], s'.harts[h]))
  {
  }

  lemma CondHart(s: State, s': State, h: nat, p: nat)
    requires h < |s.harts| && PointOk(s, s.harts[h]) && |s.procs| > 0
    requires p < |s.procs| && s.harts[h].proc == Some(p) && ThreadStep(s, s', h, p)
    requires s.harts[h].pc.Cond?
    ensures HartTurn(s, s', h)
  {
  }

  lemma SleepHart(s: State, s': State, h: nat, p: nat)
    requires h < |s.harts| && PointOk(s, s.harts[h]) && |s.procs| > 0
    requires p < |s.procs| && s.harts[h].proc == Some(p) && ThreadStep(s, s', h, p)
    requires s.harts[h].pc.SleepLock? || s.harts[h].pc.SleepHold?
    ensures HartTurn(s, s', h)
  {
  }

  lemma ThreadDull(s: State, s': State, h: nat, p: nat)
    requires h < |s.harts| && PointOk(s, s.harts[h]) && |s.procs| > 0
    requires p < |s.procs| && s.harts[h].proc == Some(p) && ThreadStep(s, s', h, p)
    requires !s.harts[h].pc.Cond? && !s.harts[h].pc.SleepLock? && !s.harts[h].pc.SleepHold?
    ensures |s'.harts| == |s.harts| && !InLoop(s.harts[h].pc) && Dull(s'.harts[h].pc)
  {
  }

  lemma ThreadHart(s: State, s': State, h: nat, p: nat)
    requires h < |s.harts| && PointOk(s, s.harts[h]) && |s.procs| > 0
    requires p < |s.procs| && s.harts[h].proc == Some(p) && ThreadStep(s, s', h, p)
    ensures HartTurn(s, s', h)
  {
    hide *;
    if s.harts[h].pc.Cond? {
      CondHart(s, s', h, p);
    } else if s.harts[h].pc.SleepLock? || s.harts[h].pc.SleepHold? {
      SleepHart(s, s', h, p);
    } else {
      ThreadDull(s, s', h, p);
      DullHart(s, s', h);
    }
  }

  lemma LifeLocal(s: State, s': State, h: nat, p: nat)
    requires h < |s.harts| && PointOk(s, s.harts[h]) && |s.procs| > 0
    requires p < |s.procs| && s.harts[h].proc == Some(p) && LifeStep(s, s', h, p)
    ensures OnlyHart(s, s', h) && Local(s, s', h, Target(s.harts[h], s'.harts[h]))
  {
  }

  lemma LifeProc(s: State, s': State, h: nat, p: nat)
    requires h < |s.harts| && PointOk(s, s.harts[h]) && |s.procs| > 0
    requires p < |s.procs| && s.harts[h].proc == Some(p) && LifeStep(s, s', h, p)
    ensures OnlyHart(s, s', h) && ProcTurn(s, s', h, Target(s.harts[h], s'.harts[h]))
  {
  }

  lemma ExitHart(s: State, s': State, h: nat, p: nat)
    requires h < |s.harts| && PointOk(s, s.harts[h]) && |s.procs| > 0
    requires p < |s.procs| && s.harts[h].proc == Some(p) && LifeStep(s, s', h, p)
    requires InExit(s.harts[h].pc)
    ensures HartTurn(s, s', h)
  {
  }

  lemma ReapHart(s: State, s': State, h: nat, p: nat)
    requires h < |s.harts| && PointOk(s, s.harts[h]) && |s.procs| > 0
    requires p < |s.procs| && s.harts[h].proc == Some(p) && LifeStep(s, s', h, p)
    requires Reaping(s.harts[h].pc)
    ensures HartTurn(s, s', h)
  {
  }

  lemma SlotDull(s: State, s': State, h: nat, p: nat)
    requires h < |s.harts| && PointOk(s, s.harts[h]) && |s.procs| > 0
    requires p < |s.procs| && s.harts[h].proc == Some(p) && LifeStep(s, s', h, p)
    requires !InExit(s.harts[h].pc) && !Reaping(s.harts[h].pc)
    ensures |s'.harts| == |s.harts| && !InLoop(s.harts[h].pc) && Dull(s'.harts[h].pc)
  {
  }

  lemma LifeHart(s: State, s': State, h: nat, p: nat)
    requires h < |s.harts| && PointOk(s, s.harts[h]) && |s.procs| > 0
    requires p < |s.procs| && s.harts[h].proc == Some(p) && LifeStep(s, s', h, p)
    ensures HartTurn(s, s', h)
  {
    hide *;
    if InExit(s.harts[h].pc) {
      ExitHart(s, s', h, p);
    } else if Reaping(s.harts[h].pc) {
      ReapHart(s, s', h, p);
    } else {
      SlotDull(s, s', h, p);
      DullHart(s, s', h);
    }
  }

  lemma KillLocal(s: State, s': State, h: nat, p: nat)
    requires h < |s.harts| && PointOk(s, s.harts[h]) && |s.procs| > 0
    requires p < |s.procs| && s.harts[h].proc == Some(p) && KillStep(s, s', h, p)
    ensures OnlyHart(s, s', h) && Local(s, s', h, Target(s.harts[h], s'.harts[h]))
  {
  }

  lemma KillProc(s: State, s': State, h: nat, p: nat)
    requires h < |s.harts| && PointOk(s, s.harts[h]) && |s.procs| > 0
    requires p < |s.procs| && s.harts[h].proc == Some(p) && KillStep(s, s', h, p)
    ensures OnlyHart(s, s', h) && ProcTurn(s, s', h, Target(s.harts[h], s'.harts[h]))
  {
  }

  lemma KillHart(s: State, s': State, h: nat, p: nat)
    requires h < |s.harts| && PointOk(s, s.harts[h]) && |s.procs| > 0
    requires p < |s.procs| && s.harts[h].proc == Some(p) && KillStep(s, s', h, p)
    ensures HartTurn(s, s', h)
  {
    KillDull(s, s', h, p);
    hide *;
    DullHart(s, s', h);
  }

  lemma KillDull(s: State, s': State, h: nat, p: nat)
    requires h < |s.harts| && PointOk(s, s.harts[h]) && |s.procs| > 0
    requires p < |s.procs| && s.harts[h].proc == Some(p) && KillStep(s, s', h, p)
    ensures |s'.harts| == |s.harts| && !InLoop(s.harts[h].pc) && Dull(s'.harts[h].pc)
  {
  }

  lemma SearchTurn(s: State, s': State, h: nat)
    requires h < |s.harts| && PointOk(s, s.harts[h]) && |s.procs| > 0
    requires SchedulerStep(s, s', h)
    ensures |s'.harts| == |s.harts| && Turn(s, s', h, Target(s.harts[h], s'.harts[h]))
  {
    hide PointOk;
    hide SchedulerStep;
    hide ProcTurn;
    hide HartTurn;
    hide Target;
    SearchLocal(s, s', h);
    SearchProc(s, s', h);
    SearchHart(s, s', h);
  }

  lemma InterruptTurn(s: State, s': State, h: nat)
    requires h < |s.harts| && PointOk(s, s.harts[h]) && |s.procs| > 0
    requires InterruptStep(s, s', h)
    ensures |s'.harts| == |s.harts| && Turn(s, s', h, Target(s.harts[h], s'.harts[h]))
  {
    hide PointOk;
    hide InterruptStep;
    hide ProcTurn;
    hide HartTurn;
    hide Target;
    InterruptLocal(s, s', h);
    InterruptProc(s, s', h);
    InterruptHart(s, s', h);
  }

  lemma HandlerTurn(s: State, s': State, h: nat)
    requires h < |s.harts| && PointOk(s, s.harts[h]) && |s.procs| > 0
    requires HandlerStep(s, s', h)
    ensures |s'.harts| == |s.harts| && Turn(s, s', h, Target(s.harts[h], s'.harts[h]))
  {
    hide PointOk;
    hide HandlerStep;
    hide ProcTurn;
    hide HartTurn;
    hide Target;
    HandlerLocal(s, s', h);
    HandlerProc(s, s', h);
    HandlerHart(s, s', h);
  }

  lemma ThreadTurn(s: State, s': State, h: nat, p: nat)
    requires h < |s.harts| && PointOk(s, s.harts[h]) && |s.procs| > 0
    requires p < |s.procs| && s.harts[h].proc == Some(p) && ThreadStep(s, s', h, p)
    ensures |s'.harts| == |s.harts| && Turn(s, s', h, Target(s.harts[h], s'.harts[h]))
  {
    hide PointOk;
    hide ThreadStep;
    hide ProcTurn;
    hide HartTurn;
    hide Target;
    ThreadLocal(s, s', h, p);
    ThreadProc(s, s', h, p);
    ThreadHart(s, s', h, p);
  }

  lemma LifeTurn(s: State, s': State, h: nat, p: nat)
    requires h < |s.harts| && PointOk(s, s.harts[h]) && |s.procs| > 0
    requires p < |s.procs| && s.harts[h].proc == Some(p) && LifeStep(s, s', h, p)
    ensures |s'.harts| == |s.harts| && Turn(s, s', h, Target(s.harts[h], s'.harts[h]))
  {
    hide PointOk;
    hide LifeStep;
    hide ProcTurn;
    hide HartTurn;
    hide Target;
    LifeLocal(s, s', h, p);
    LifeProc(s, s', h, p);
    LifeHart(s, s', h, p);
  }

  lemma KillTurn(s: State, s': State, h: nat, p: nat)
    requires h < |s.harts| && PointOk(s, s.harts[h]) && |s.procs| > 0
    requires p < |s.procs| && s.harts[h].proc == Some(p) && KillStep(s, s', h, p)
    ensures |s'.harts| == |s.harts| && Turn(s, s', h, Target(s.harts[h], s'.harts[h]))
  {
    hide PointOk;
    hide KillStep;
    hide ProcTurn;
    hide HartTurn;
    hide Target;
    KillLocal(s, s', h, p);
    KillProc(s, s', h, p);
    KillHart(s, s', h, p);
  }

  lemma ProcStepTurn(s: State, s': State, h: nat)
    requires h < |s.harts| && PointOk(s, s.harts[h]) && |s.procs| > 0 && HartStep(s, s', h)
    requires !SchedulerStep(s, s', h) && !InterruptStep(s, s', h) && !HandlerStep(s, s', h)
    ensures |s'.harts| == |s.harts| && Turn(s, s', h, Target(s.harts[h], s'.harts[h]))
  {
    assert s.harts[h].proc.Some? && s.harts[h].proc.value < |s.procs|;
    var p := s.harts[h].proc.value;
    assert ThreadStep(s, s', h, p) || LifeStep(s, s', h, p) || KillStep(s, s', h, p);
    hide *;
    if ThreadStep(s, s', h, p) {
      ThreadTurn(s, s', h, p);
    } else if LifeStep(s, s', h, p) {
      LifeTurn(s, s', h, p);
    } else {
      KillTurn(s, s', h, p);
    }
  }

  /** What any step can do. */
  lemma StepTurn(s: State, s': State, h: nat)
    requires Inv(s) && h < |s.harts| && HartStep(s, s', h)
    ensures |s'.harts| == |s.harts| && Turn(s, s', h, Target(s.harts[h], s'.harts[h]))
  {
    assert PointOk(s, s.harts[h]) && |s.procs| > 0;
    OneMoves(s, s', h);
    hide *;
    if SchedulerStep(s, s', h) {
      SearchTurn(s, s', h);
    } else if InterruptStep(s, s', h) {
      InterruptTurn(s, s', h);
    } else if HandlerStep(s, s', h) {
      HandlerTurn(s, s', h);
    } else {
      ProcStepTurn(s, s', h);
    }
  }

  // -------------------------------------------------------------------- one step

  lemma DeathsNext(s: State, s': State, h: nat, q: nat)
    requires Inv(s) && DeathsOk(s) && Turn(s, s', h, q)
    ensures DeathsOk(s')
  {
    forall x: nat | x < |s'.harts|
      ensures DeathOk(s', s'.harts[x])
    {
      assert DeathOk(s, s.harts[h]);
      if x != h {
        DeathOther(s, s', h, q, x);
      } else {
        DeathOwn(s, s', h, q);
      }
    }
  }

  /** A hart that reaps slot q is the only one to reap, and q is not in exit() any more. */
  lemma ReaperAlone(s: State, h: nat, x: nat, q: nat)
    requires Inv(s) && h < |s.harts| && x < |s.harts| && x != h && q < |s.procs| && s.harts[h].pc == ReapHold(q)
    ensures !Reaping(s.harts[x].pc) && (InLoop(s.harts[x].pc) ==> s.harts[x].proc != Some(q))
  {
    hide PointsOk;
    hide ProcsOk;
    assert HeldChan(s.harts[h].pc) == Some(Pool) && Lk(s, Pool) == Some(h);
    assert HeldChan(s.harts[x].pc) != Some(Pool);
    assert q in Held(s.harts[h]) && s.procs[q].lock == Some(h);
    assert q !in Held(s.harts[x]);
  }

  lemma DeathOther(s: State, s': State, h: nat, q: nat, x: nat)
    requires Inv(s) && DeathsOk(s) && Turn(s, s', h, q) && x < |s.harts| && x != h
    ensures DeathOk(s', s'.harts[x])
  {
    hide Inv;
    hide HartTurn;
    assert DeathOk(s, s.harts[x]);
    if s.harts[h].pc == ReapHold(q) {
      ReaperAlone(s, h, x, q);
    }
  }

  lemma DeathOwn(s: State, s': State, h: nat, q: nat)
    requires DeathsOk(s) && Turn(s, s', h, q)
    ensures DeathOk(s', s'.harts[h])
  {
    assert DeathOk(s, s.harts[h]);
    hide LoopStep;
    hide Decides;
  }

  // ------------------------------------------------------------ how an exit is missed

  /** A committed process that is not in bed is on its hart, RUNNING. */
  lemma FallsRuns(s: State, x: nat, p: nat)
    requires Inv(s) && FallsOn(s, x, p)
    ensures p < |s.procs| && s.procs[p].state == RUNNING && OnHart(s, x, p)
  {
    assert PointOk(s, s.harts[x]);
  }

  /** Nobody becomes committed to a child that is dead. */
  lemma CommittedBefore(s: State, s': State, h: nat, q: nat, p: nat)
    requires DeathsOk(s) && Turn(s, s', h, q) && p < |s.procs| && Committed(s', p) && Dead(s, s.procs[p].want)
    ensures Committed(s, p)
  {
    assert DeathOk(s, s.harts[h]);
    hide LoopStep;
    if InBed(s'.procs[p]) {
      if !InBed(s.procs[p]) {
        assert FallsOn(s, h, p);
      }
    } else {
      var x: nat :| FallsOn(s', x, p);
      assert FallsOn(s, x, p);
    }
  }

  /** The wanted slot changes only outside of any sleep. */
  lemma WantKept(s: State, s': State, h: nat, q: nat, p: nat)
    requires Inv(s) && Turn(s, s', h, q) && p < |s.procs| && Committed(s', p)
    ensures s'.procs[p].want == s.procs[p].want
  {
    if s'.procs[p].want != s.procs[p].want {
      assert q == p && s.harts[h].proc == Some(p) && s.harts[h].pc.CondLock? && s'.harts[h].pc.Cond?;
      assert PointOk(s, s.harts[h]) && OnHart(s, h, p);
      assert !InBed(s'.procs[p]);
      var x: nat :| FallsOn(s', x, p);
      assert OnHart(s, x, p);
    }
  }

  /** Who dies starts to wake everyone. */
  lemma NewDead(s: State, s': State, h: nat, q: nat, p: nat, w: nat)
    requires Turn(s, s', h, q) && Dead(s', w) && !Dead(s, w)
    ensures ExitComing(s', w, p)
  {
    hide HartTurn;
    assert ExitAt(s'.harts[h], w, p);
  }

  /** A wakeup loop that has not passed slot p still has not, or leaves it now. */
  lemma LoopGoesOn(s: State, s': State, h: nat, q: nat, p: nat, w: nat)
    requires Turn(s, s', h, q) && p < |s.procs| && ExitComing(s, w, p)
    ensures ExitComing(s', w, p) || Leaving(s, s', h, p, w)
  {
    var y: nat :| y < |s.harts| && ExitAt(s.harts[y], w, p);
    hide ProcTurn;
    if y != h {
      assert ExitAt(s'.harts[y], w, p);
    } else if ExitAt(s'.harts[h], w, p) {
      assert ExitComing(s', w, p);
    }
  }

  /** The loop of w's exit leaves slot p, which is its own or locked by it. */
  ghost predicate Leaving(s: State, s': State, h: nat, p: nat, w: nat) {
    && h < |s.harts| && p < |s'.procs| && s.harts[h].proc == Some(w)
    && (w == p || (s.harts[h].pc.ExitWakeHold? && s.harts[h].pc.i == p && s'.harts != s.harts && !InBed(s'.procs[p])))
  }

  /** If p is not woken by that, it is about to lock itself for sleep(). */
  lemma LeftBehind(s: State, s': State, h: nat, q: nat, p: nat, w: nat)
    requires Inv(s) && Local(s, s', h, q) && p < |s.procs| && Committed(s', p) && s.procs[p].want == w && w != p
    requires Leaving(s, s', h, p, w) && !Falling(s'.harts[h].pc)
    ensures exists x: nat :: Passes(s, h, x, p, w)
  {
    var x: nat :| FallsOn(s', x, p);
    assert x != h && s'.harts[x] == s.harts[x];
    assert p in Held(s.harts[h]) && s.procs[p].lock == Some(h);
    assert p !in Held(s.harts[x]);
    hide Inv;
    assert Passes(s, h, x, p, w);
  }

  /** The dead are not committed. */
  lemma DeadRest(s: State, p: nat)
    requires Inv(s) && p < |s.procs| && Committed(s, p)
    ensures s.procs[p].state != ZOMBIE
  {
    if !InBed(s.procs[p]) {
      var x: nat :| FallsOn(s, x, p);
      FallsRuns(s, x, p);
    }
  }

  lemma NotFalling(s: State, s': State, h: nat)
    requires h < |s.harts| && HartTurn(s, s', h) && s.harts[h].pc.ExitWakeHold?
    ensures !Falling(s'.harts[h].pc)
  {
  }

  /** A process gets lost only when the exit passes it. */
  lemma LostStep(s: State, s': State, h: nat, q: nat, p: nat, w: nat)
    requires Inv(s) && DeathsOk(s) && Turn(s, s', h, q) && Lost(s', p, w) && !Lost(s, p, w)
    ensures exists x: nat :: Passes(s, h, x, p, w)
  {
    hide Inv;
    hide DeathsOk;
    hide HartTurn;
    hide ProcTurn;
    hide Committed;
    hide Passes;
    hide ExitComing;
    WantKept(s, s', h, q, p);
    if !Dead(s, w) {
      NewDead(s, s', h, q, p, w);
    } else {
      CommittedBefore(s, s', h, q, p);
      DeadRest(s, p);
      LoopGoesOn(s, s', h, q, p, w);
      NotFalling(s, s', h);
      LeftBehind(s, s', h, q, p, w);
    }
  }

  /** And always then. */
  lemma PassLoses(s: State, s': State, h: nat, q: nat, x: nat, p: nat, w: nat)
    requires Inv(s) && DeathsOk(s) && Turn(s, s', h, q) && Passes(s, h, x, p, w)
    ensures Lost(s', p, w)
  {
    assert DeathOk(s, s.harts[h]) && OnHart(s, h, w);
    assert FallsOn(s', x, p);
    forall y: nat | y < |s'.harts|
      ensures !ExitAt(s'.harts[y], w, p)
    {
      assert OnHart(s, y, w) ==> y == h;
    }
  }

  // ------------------------------------------------------------------- whole runs

  lemma {:induction false} RunDeaths(r: seq<State>, i: nat)
    requires IsRun(r) && i < |r|
    ensures DeathsOk(r[i])
    decreases i
  {
    if i > 0 {
      RunDeaths(r, i - 1);
      RunInv(r, i - 1);
      assert Next(r[i - 1], r[i - 1 + 1]);
      hide *;
      DeathsStep(r[i - 1], r[i]);
    }
  }

  lemma DeathsStep(s: State, s': State)
    requires Inv(s) && DeathsOk(s) && Next(s, s')
    ensures DeathsOk(s')
  {
    var h: nat :| h < |s.harts| && HartStep(s, s', h);
    hide *;
    StepTurn(s, s', h);
    DeathsNext(s, s', h, Target(s.harts[h], s'.harts[h]));
  }

  /** Between states j and j + 1 the exit of w passes p, which has found w alive and is about to
      lock itself for sleep(). */
  ghost predicate MissAt(r: seq<State>, j: nat, p: nat, w: nat) {
    j + 1 < |r| && exists h: nat, x: nat :: Passes(r[j], h, x, p, w) && Moved(r[j], r[j + 1], h)
  }

  ghost predicate Moved(s: State, s': State, h: nat) {
    h < |s.harts| && h < |s'.harts| && s'.harts[h] != s.harts[h]
  }

  lemma LostBy(s: State, s': State, p: nat, w: nat)
    requires Inv(s) && DeathsOk(s) && Next(s, s') && Lost(s', p, w) && !Lost(s, p, w)
    ensures exists h: nat, x: nat :: Passes(s, h, x, p, w) && Moved(s, s', h)
  {
    var h: nat :| h < |s.harts| && HartStep(s, s', h);
    hide *;
    StepTurn(s, s', h);
    LostStep(s, s', h, Target(s.harts[h], s'.harts[h]), p, w);
    var x: nat :| Passes(s, h, x, p, w);
    PassMoves(s, s', h, Target(s.harts[h], s'.harts[h]), x, p, w);
  }

  lemma PassMoves(s: State, s': State, h: nat, q: nat, x: nat, p: nat, w: nat)
    requires Turn(s, s', h, q) && Passes(s, h, x, p, w)
    ensures Moved(s, s', h)
  {
  }

  lemma LosesBy(s: State, s': State, h: nat, x: nat, p: nat, w: nat)
    requires Inv(s) && DeathsOk(s) && Next(s, s') && Passes(s, h, x, p, w) && Moved(s, s', h)
    ensures Lost(s', p, w)
  {
    var m: nat :| m < |s.harts| && HartStep(s, s', m);
    OneMoves(s, s', m);
    assert m == h;
    hide *;
    StepTurn(s, s', h);
    PassLoses(s, s', h, Target(s.harts[h], s'.harts[h]), x, p, w);
  }

  lemma NotLostAtBoot(s: State, p: nat, w: nat)
    requires Init(s)
    ensures !Lost(s, p, w)
  {
  }

  lemma {:induction false} LostSince(r: seq<State>, k: nat, p: nat, w: nat)
    requires IsRun(r) && k < |r| && Lost(r[k], p, w)
    ensures exists j: nat :: j < k && MissAt(r, j, p, w)
    decreases k
  {
    if k == 0 {
      NotLostAtBoot(r[0], p, w);
    } else {
      RunInv(r, k - 1);
      RunDeaths(r, k - 1);
      assert Next(r[k - 1], r[k - 1 + 1]);
      hide Lost;
      hide Inv;
      hide DeathsOk;
      hide Next;
      hide Passes;
      if Lost(r[k - 1], p, w) {
        LostSince(r, k - 1, p, w);
      } else {
        LostBy(r[k - 1], r[k], p, w);
        assert MissAt(r, k - 1, p, w);
      }
    }
  }

  lemma MissLoses(r: seq<State>, j: nat, p: nat, w: nat)
    requires IsRun(r) && MissAt(r, j, p, w)
    ensures j + 1 < |r| && Lost(r[j + 1], p, w)
  {
    RunInv(r, j);
    RunDeaths(r, j);
    assert Next(r[j], r[j + 1]);
    var h: nat, x: nat :| Passes(r[j], h, x, p, w) && Moved(r[j], r[j + 1], h);
    hide *;
    LosesBy(r[j], r[j + 1], h, x, p, w);
  }

  /** Over every run: p comes to sleep for a dead child w that will not wake it iff w's exit
      passes p between p's check and its sleep. */
  lemma MissedIff(r: seq<State>, p: nat, w: nat)
    requires IsRun(r)
    ensures (exists k: nat :: k < |r| && Lost(r[k], p, w)) <==> (exists j: nat :: MissAt(r, j, p, w))
  {
    hide IsRun;
    hide Lost;
    hide MissAt;
    if k: nat :| k < |r| && Lost(r[k], p, w) {
      LostSince(r, k, p, w);
    }
    if j: nat :| MissAt(r, j, p, w) {
      MissLoses(r, j, p, w);
    }
  }

  // ------------------------------------------------------------------- asleep for ever

  /** The hart searches, or handles an interrupt, and has no process. */
  predicate Idle(pc: PC) {
    match pc
    case Scan(_, best) => best == None
    case Age(_) => true
    case IntrLock(c, ret) => c != Pool && Resting(ret)
    case IntrHold(c, ret) => c != Pool && Resting(ret)
    case IntrWake(c, _, ret) => c != Pool && Resting(ret)
    case IntrWakeLock(c, _, ret) => c != Pool && Resting(ret)
    case IntrWakeHold(c, _, ret) => c != Pool && Resting(ret)
    case _ => false
  }

  predicate Resting(pc: PC) { pc.Age? || (pc.Scan? && pc.best == None) }

  /** No interrupt wakes it. */
  predicate Deaf(x: Proc) {
    x.state == ZOMBIE || x.state == UNUSED || (x.state == SLEEPING && x.chan != Some(Tick) && x.chan != Some(Cons))
  }

  /** Nothing runs and no interrupt changes that. */
  ghost predicate Silent(s: State) {
    && (forall h: nat :: h < |s.harts| ==> s.harts[h].proc == None && Idle(s.harts[h].pc))
    && (forall p: nat :: p < |s.procs| ==> Deaf(s.procs[p]))
  }

  /** All but the lock words is the same. */
  ghost predicate Unmoved(s: State, s': State) {
    |s'.procs| == |s.procs| && forall p: nat :: p < |s.procs| ==> s'.procs[p] == s.procs[p].(lock := s'.procs[p].lock)
  }

  lemma SilentSearch(s: State, s': State, h: nat)
    requires h < |s.harts| && Silent(s) && (SchedulerStep(s, s', h) || InterruptStep(s, s', h))
    ensures OnlyHart(s, s', h) && s'.procs == s.procs && s'.harts[h].proc == None && Idle(s'.harts[h].pc)
  {
    assert Idle(s.harts[h].pc) && s.harts[h].proc == None;
  }

  lemma SilentHandler(s: State, s': State, h: nat)
    requires h < |s.harts| && Silent(s) && HandlerStep(s, s', h)
    ensures OnlyHart(s, s', h) && Unmoved(s, s') && s'.harts[h].proc == None && Idle(s'.harts[h].pc)
  {
    assert Idle(s.harts[h].pc) && s.harts[h].proc == None;
  }

  lemma SilentStep(s: State, s': State)
    requires Silent(s) && Next(s, s')
    ensures Silent(s') && Unmoved(s, s')
  {
    hide ProcStep;
    hide SchedulerStep;
    hide InterruptStep;
    hide HandlerStep;
    hide Idle;
    var h: nat :| h < |s.harts| && HartStep(s, s', h);
    assert s.harts[h].proc == None;
    if HandlerStep(s, s', h) {
      SilentHandler(s, s', h);
    } else {
      SilentSearch(s, s', h);
    }
  }

  /** Over every run: once nothing runs and all who sleep wait for an exit, nothing ever runs
      again, whatever interrupts come. */
  lemma {:induction false} SilentForever(r: seq<State>, i: nat, k: nat)
    requires IsRun(r) && i <= k < |r| && Silent(r[i])
    ensures Silent(r[k]) && Unmoved(r[i], r[k])
    decreases k
  {
    hide Init;
    hide Next;
    hide Silent;
    if i < k {
      assert Next(r[k - 1], r[k - 1 + 1]);
      SilentForever(r, i, k - 1);
      SilentStep(r[k - 1], r[k]);
    }
  }
}
