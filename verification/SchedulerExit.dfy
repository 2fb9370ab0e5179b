/**
  The end of a process: exit() never returns, and what becomes of a process that is killed
  while it sleeps.  sleep() then calls exit() with its condition lock held.
 */
module SchedulerExit {
  import opened Wrappers
  import opened Scheduler
  import opened SchedulerInv
  import opened SchedulerWait

  // ------------------------------------------------------------------ the dead stay dead

  /** A process that has left through exit() is a zombie until it is reaped, and has no page
      table from then on. */
  predicate GoneOk(x: Proc) {
    && (x.ctx == Dead ==> x.state == ZOMBIE || !x.paged)
    && (x.state == UNUSED ==> !x.paged)
  }

  /** exit() keeps its process ZOMBIE, and no hart resumes a dead one. */
  ghost predicate ExitOk(s: State, x: Hart) {
    && (x.pc.ExitWake? || x.pc.ExitWakeLock? || x.pc.ExitWakeHold? || x.pc == Sched(Dead) ==>
          x.proc.Some? && x.proc.value < |s.procs| && s.procs[x.proc.value].state == ZOMBIE)
    && x.pc != Resumed(Dead) && x.pc != Panicked(None)
  }

  ghost predicate DeadOk(s: State) {
    && (forall p: nat :: p < |s.procs| ==> GoneOk(s.procs[p]))
    && (forall h: nat :: h < |s.harts| ==> ExitOk(s, s.harts[h]))
  }

  /** A step on hart h and PCB q. */
  lemma DeadKept(s: State, s': State, h: nat, q: nat)
    requires Inv(s) && DeadOk(s) && Local(s, s', h, q)
    requires GoneOk(s'.procs[q]) && ExitOk(s', s'.harts[h])
    requires s'.procs[q].state != s.procs[q].state ==> q in Held(s.harts[h])
    ensures DeadOk(s')
  {
    hide PointsOk;
    hide ChansOk;
    hide ProcsOk;
    hide GoneOk;
    forall x: nat | x < |s.harts| && x != h
      ensures ExitOk(s', s'.harts[x])
    {
      assert ExitOk(s, s.harts[x]);
      assert q in Held(s.harts[h]) ==> q !in Held(s.harts[x]);
    }
  }

  lemma InterruptDead(s: State, s': State, h: nat)
    requires Inv(s) && DeadOk(s) && h < |s.harts| && InterruptStep(s, s', h)
    ensures DeadOk(s')
  {
    assert GoneOk(s.procs[0]) && |s.procs| > 0;
    hide Inv;
    hide DeadOk;
    DeadKept(s, s', h, 0);
  }

  lemma SchedulerDead(s: State, s': State, h: nat)
    requires Inv(s) && DeadOk(s) && h < |s.harts| && SchedulerStep(s, s', h)
    ensures DeadOk(s')
  {
    var pc := s.harts[h].pc;
    if pc.Age? || pc.AgeLock? || pc.AgeHold? {
      hide *;
      AgeDead(s, s', h);
    } else {
      assert pc.Scan? || pc.ScanLock? || pc.ScanCheck? || pc.Dispatch? || pc.Back?;
      hide *;
      SearchDead(s, s', h);
    }
  }

  lemma AgeDead(s: State, s': State, h: nat)
    requires Inv(s) && DeadOk(s) && h < |s.harts| && SchedulerStep(s, s', h)
    requires s.harts[h].pc.Age? || s.harts[h].pc.AgeLock? || s.harts[h].pc.AgeHold?
    ensures DeadOk(s')
  {
    hide LocksOk;
    hide ChansOk;
    hide ProcsOk;
    assert PointOk(s, s.harts[h]) && GoneOk(s.procs[0]);
    hide PointsOk;
    match s.harts[h].pc
    case Age(i) =>
      DeadKept(s, s', h, 0);
    case AgeLock(i) =>
      DeadKept(s, s', h, i);
    case AgeHold(i) =>
      DeadKept(s, s', h, i);
  }

  lemma SearchDead(s: State, s': State, h: nat)
    requires Inv(s) && DeadOk(s) && h < |s.harts| && SchedulerStep(s, s', h)
    requires var pc := s.harts[h].pc; pc.Scan? || pc.ScanLock? || pc.ScanCheck? || pc.Dispatch? || pc.Back?
    ensures DeadOk(s')
  {
    hide LocksOk;
    hide ChansOk;
    hide ProcsOk;
    assert PointOk(s, s.harts[h]) && GoneOk(s.procs[0]);
    hide PointsOk;
    match s.harts[h].pc
    case Scan(i, best) =>
      DeadKept(s, s', h, 0);
    case ScanLock(i, best) =>
      DeadKept(s, s', h, i);
    case ScanCheck(i, best) =>
      CheckDead(s, s', h, i, best);
    case Dispatch(b) =>
      DeadKept(s, s', h, b);
    case Back(p) =>
      DeadKept(s, s', h, p);
  }

  lemma CheckDead(s: State, s': State, h: nat, i: nat, best: Option<nat>)
    requires Inv(s) && DeadOk(s) && h < |s.harts| && s.harts[h].pc == ScanCheck(i, best) && SchedulerStep(s, s', h)
    ensures DeadOk(s')
  {
    hide LocksOk;
    hide ChansOk;
    hide ProcsOk;
    hide PointsOk;
    if best.Some? && s'.harts[h].pc == Scan(i + 1, Some(i)) {
      DeadKept(s, s', h, best.value);
    } else {
      DeadKept(s, s', h, i);
    }
  }

  lemma CheckLocal(s: State, s': State, h: nat, p: nat)
    requires h < |s.harts| && p < |s.procs| && s.harts[h].proc == Some(p) && ThreadStep(s, s', h, p)
    requires PointOk(s, s.harts[h]) && GoneOk(s.procs[p]) && ExitOk(s, s.harts[h]) && s.harts[h].pc.Cond?
    ensures Local(s, s', h, p) && GoneOk(s'.procs[p]) && ExitOk(s', s'.harts[h])
    ensures s'.procs[p].state != s.procs[p].state ==> p in Held(s.harts[h])
  {
  }

  lemma LockLocal(s: State, s': State, h: nat, p: nat)
    requires h < |s.harts| && p < |s.procs| && s.harts[h].proc == Some(p) && ThreadStep(s, s', h, p)
    requires PointOk(s, s.harts[h]) && GoneOk(s.procs[p]) && ExitOk(s, s.harts[h])
    requires s.harts[h].pc.CondLock?
    ensures Local(s, s', h, p) && GoneOk(s'.procs[p]) && ExitOk(s', s'.harts[h])
    ensures s'.procs[p].state != s.procs[p].state ==> p in Held(s.harts[h])
  {
  }

  lemma CondLocal(s: State, s': State, h: nat, p: nat)
    requires h < |s.harts| && p < |s.procs| && s.harts[h].proc == Some(p) && ThreadStep(s, s', h, p)
    requires PointOk(s, s.harts[h]) && GoneOk(s.procs[p]) && ExitOk(s, s.harts[h])
    requires s.harts[h].pc.CondDone? || s.harts[h].pc.Relock? || s.harts[h].pc.Woke?
    ensures Local(s, s', h, p) && GoneOk(s'.procs[p]) && ExitOk(s', s'.harts[h])
    ensures s'.procs[p].state != s.procs[p].state ==> p in Held(s.harts[h])
  {
  }

  lemma ThreadLocal(s: State, s': State, h: nat, p: nat)
    requires h < |s.harts| && p < |s.procs| && s.harts[h].proc == Some(p) && ThreadStep(s, s', h, p)
    requires PointOk(s, s.harts[h]) && GoneOk(s.procs[p]) && ExitOk(s, s.harts[h]) && !InCond(s.harts[h].pc)
    ensures Local(s, s', h, p) && GoneOk(s'.procs[p]) && ExitOk(s', s'.harts[h])
    ensures s'.procs[p].state != s.procs[p].state ==> p in Held(s.harts[h])
  {
  }

  predicate InCond(pc: PC) { pc.CondLock? || pc.Cond? || pc.CondDone? || pc.Woke? || pc.Relock? }

  lemma ThreadDead(s: State, s': State, h: nat, p: nat)
    requires Inv(s) && DeadOk(s) && h < |s.harts| && p < |s.procs| && s.harts[h].proc == Some(p)
    requires ThreadStep(s, s', h, p)
    ensures DeadOk(s')
  {
    assert PointOk(s, s.harts[h]) && GoneOk(s.procs[p]) && ExitOk(s, s.harts[h]);
    hide *;
    if s.harts[h].pc.Cond? {
      CheckLocal(s, s', h, p);
    } else if s.harts[h].pc.CondLock? {
      LockLocal(s, s', h, p);
    } else if s.harts[h].pc.CondDone? || s.harts[h].pc.Relock? || s.harts[h].pc.Woke? {
      CondLocal(s, s', h, p);
    } else {
      ThreadLocal(s, s', h, p);
    }
    assert Local(s, s', h, p);
    DeadKept(s, s', h, p);
  }

  lemma LifeDead(s: State, s': State, h: nat, p: nat)
    requires Inv(s) && DeadOk(s) && h < |s.harts| && p < |s.procs| && s.harts[h].proc == Some(p)
    requires LifeStep(s, s', h, p)
    ensures DeadOk(s')
  {
    hide LocksOk;
    hide ChansOk;
    hide ProcsOk;
    assert PointOk(s, s.harts[h]) && ExitOk(s, s.harts[h]);
    hide PointsOk;
    match s.harts[h].pc
    case ExitLock(_) =>
      DeadKept(s, s', h, p);
    case ExitHold(_) =>
      DeadKept(s, s', h, p);
    case ExitWake(_, _) =>
      DeadKept(s, s', h, p);
    case ExitWakeLock(i, _) =>
      DeadKept(s, s', h, i);
    case ExitWakeHold(i, _) =>
      DeadKept(s, s', h, i);
    case ReapLock(_) =>
      ReapDead(s, s', h, p);
    case ReapHold(_) =>
      ReapDead(s, s', h, p);
    case _ =>
      AllocDead(s, s', h, p);
  }

  lemma AllocDead(s: State, s': State, h: nat, p: nat)
    requires Inv(s) && DeadOk(s) && h < |s.harts| && p < |s.procs| && s.harts[h].proc == Some(p)
    requires LifeStep(s, s', h, p)
    requires var pc := s.harts[h].pc;
             pc.AllocLock? || pc.AllocHold? || pc.AllocPid? || pc.AllocPidHold? || pc.AllocFill?
    ensures DeadOk(s')
  {
    hide LocksOk;
    hide ChansOk;
    hide ProcsOk;
    assert PointOk(s, s.harts[h]);
    hide PointsOk;
    var i := s.harts[h].pc.i;
    assert GoneOk(s.procs[i]);
    hide DeadOk;
    hide PointOk;
    DeadKept(s, s', h, i);
  }

  lemma ReapDead(s: State, s': State, h: nat, p: nat)
    requires Inv(s) && DeadOk(s) && h < |s.harts| && p < |s.procs| && s.harts[h].proc == Some(p)
    requires LifeStep(s, s', h, p)
    requires s.harts[h].pc.ReapLock? || s.harts[h].pc.ReapHold?
    ensures DeadOk(s')
  {
    hide LocksOk;
    hide ChansOk;
    hide ProcsOk;
    assert PointOk(s, s.harts[h]);
    hide PointsOk;
    var i := s.harts[h].pc.i;
    assert GoneOk(s.procs[i]);
    hide DeadOk;
    hide PointOk;
    DeadKept(s, s', h, i);
  }

  lemma KillDead(s: State, s': State, h: nat, p: nat)
    requires Inv(s) && DeadOk(s) && h < |s.harts| && p < |s.procs| && s.harts[h].proc == Some(p)
    requires KillStep(s, s', h, p)
    ensures DeadOk(s')
  {
    hide LocksOk;
    hide ChansOk;
    hide ProcsOk;
    assert PointOk(s, s.harts[h]);
    hide PointsOk;
    var i := if s.harts[h].pc.KillLock? || s.harts[h].pc.KillHold? || s.harts[h].pc.KillWakeLock?
                || s.harts[h].pc.KillWakeHold? then s.harts[h].pc.i else p;
    assert GoneOk(s.procs[i]);
    hide DeadOk;
    hide PointOk;
    DeadKept(s, s', h, i);
  }

  lemma HandlerDead(s: State, s': State, h: nat)
    requires Inv(s) && DeadOk(s) && h < |s.harts| && HandlerStep(s, s', h)
    ensures DeadOk(s')
  {
    hide LocksOk;
    hide ChansOk;
    hide ProcsOk;
    assert PointOk(s, s.harts[h]) && GoneOk(s.procs[0]);
    hide PointsOk;
    match s.harts[h].pc
    case IntrLock(c, ret) =>
      DeadKept(s, s', h, 0);
    case IntrHold(c, ret) =>
      DeadKept(s, s', h, 0);
    case IntrWake(c, i, ret) =>
      DeadKept(s, s', h, 0);
    case IntrWakeLock(c, i, ret) =>
      DeadKept(s, s', h, i);
    case IntrWakeHold(c, i, ret) =>
      DeadKept(s, s', h, i);
  }

  lemma NextDead(s: State, s': State)
    requires Inv(s) && DeadOk(s) && Next(s, s')
    ensures DeadOk(s')
  {
    hide Inv;
    hide DeadOk;
    hide InterruptStep;
    hide SchedulerStep;
    hide HandlerStep;
    hide ThreadStep;
    hide LifeStep;
    hide KillStep;
    var h: nat :| h < |s.harts| && HartStep(s, s', h);
    if InterruptStep(s, s', h) {
      InterruptDead(s, s', h);
    } else if SchedulerStep(s, s', h) {
      SchedulerDead(s, s', h);
    } else if HandlerStep(s, s', h) {
      HandlerDead(s, s', h);
    } else if ThreadStep(s, s', h, s.harts[h].proc.value) {
      ThreadDead(s, s', h, s.harts[h].proc.value);
    } else if LifeStep(s, s', h, s.harts[h].proc.value) {
      LifeDead(s, s', h, s.harts[h].proc.value);
    } else {
      KillDead(s, s', h, s.harts[h].proc.value);
    }
  }

  /** Over every run exit() never returns: no hart resumes a dead process, not even one whose slot
      a failed allocproc() left behind and kill() made runnable. */
  lemma {:induction false} RunDead(r: seq<State>, i: nat)
    requires IsRun(r) && i < |r|
    ensures DeadOk(r[i])
    decreases i
  {
    hide Next;
    if i > 0 {
      hide DeadOk;
      hide Inv;
      RunDead(r, i - 1);
      RunInv(r, i - 1);
      assert Next(r[i - 1], r[i - 1 + 1]);
      NextDead(r[i - 1], r[i]);
    }
  }

  // ----------------------------------------------------------- exit with a lock held

  /** In exit() with the condition lock c held, or in the panic that follows. */
  predicate Doomed(x: Hart, c: Chan) {
    var pc := x.pc;
    && (pc.ExitLock? || pc.ExitHold? || pc.ExitWake? || pc.ExitWakeLock? || pc.ExitWakeHold? || pc.Panicked?)
    && pc.lk == Some(c)
  }

  /** Back in sleep() with the condition lock taken again, and killed. */
  ghost predicate WokeKilled(s: State, x: Hart, c: Chan) {
    x.pc == Woke(c) && x.proc.Some? && x.proc.value < |s.procs| && s.procs[x.proc.value].killed
  }

  /** What a step does to its own hart. */
  ghost predicate DoomExact(s: State, s': State, h: nat, c: Chan) {
    && h < |s.harts| && h < |s'.harts|
    && (Doomed(s'.harts[h], c) <==> Doomed(s.harts[h], c) || WokeKilled(s, s.harts[h], c))
  }

  lemma ScheduleDoom(s: State, s': State, h: nat, c: Chan)
    requires h < |s.harts| && SchedulerStep(s, s', h)
    ensures DoomExact(s, s', h, c)
  {
  }

  lemma InterruptDoom(s: State, s': State, h: nat, c: Chan)
    requires h < |s.harts| && InterruptStep(s, s', h)
    ensures DoomExact(s, s', h, c)
  {
  }

  lemma HandlerDoom(s: State, s': State, h: nat, c: Chan)
    requires h < |s.harts| && PointOk(s, s.harts[h]) && HandlerStep(s, s', h)
    ensures DoomExact(s, s', h, c)
  {
  }

  lemma ThreadDoom(s: State, s': State, h: nat, p: nat, c: Chan)
    requires h < |s.harts| && p < |s.procs| && s.harts[h].proc == Some(p) && ThreadStep(s, s', h, p)
    ensures DoomExact(s, s', h, c)
  {
  }

  lemma LifeDoom(s: State, s': State, h: nat, p: nat, c: Chan)
    requires h < |s.harts| && p < |s.procs| && s.harts[h].proc == Some(p) && LifeStep(s, s', h, p)
    ensures DoomExact(s, s', h, c)
  {
  }

  lemma KillDoom(s: State, s': State, h: nat, p: nat, c: Chan)
    requires h < |s.harts| && p < |s.procs| && s.harts[h].proc == Some(p) && KillStep(s, s', h, p)
    ensures DoomExact(s, s', h, c)
  {
  }

  /** Whatever hart moves: a hart is doomed afterwards iff it was, or left sleep() killed. */
  lemma DoomStep(s: State, s': State, m: nat, h: nat, c: Chan)
    requires Inv(s) && m < |s.harts| && HartStep(s, s', m) && h < |s.harts|
    ensures h < |s'.harts| && (h != m ==> s'.harts[h] == s.harts[h])
    ensures Doomed(s'.harts[h], c)
            <==> Doomed(s.harts[h], c) || (WokeKilled(s, s.harts[h], c) && s'.harts[h] != s.harts[h])
  {
    OneMoves(s, s', m);
    if h == m {
      assert PointOk(s, s.harts[h]);
      hide Inv;
      hide PointOk;
      hide InterruptStep;
      hide SchedulerStep;
      hide HandlerStep;
      hide ThreadStep;
      hide LifeStep;
      hide KillStep;
      if SchedulerStep(s, s', h) {
        ScheduleDoom(s, s', h, c);
      } else if InterruptStep(s, s', h) {
        InterruptDoom(s, s', h, c);
      } else if HandlerStep(s, s', h) {
        HandlerDoom(s, s', h, c);
      } else if ThreadStep(s, s', h, s.harts[h].proc.value) {
        ThreadDoom(s, s', h, s.harts[h].proc.value, c);
      } else if LifeStep(s, s', h, s.harts[h].proc.value) {
        LifeDoom(s, s', h, s.harts[h].proc.value, c);
      } else {
        KillDoom(s, s', h, s.harts[h].proc.value, c);
      }
    }
  }

  /** Between states j and j + 1 of a run hart h leaves sleep() with its process killed. */
  ghost predicate LeftKilled(r: seq<State>, j: nat, h: nat, c: Chan) {
    && j + 1 < |r| && h < |r[j].harts| && h < |r[j + 1].harts|
    && WokeKilled(r[j], r[j].harts[h], c) && r[j + 1].harts[h] != r[j].harts[h]
  }

  /** Over every run: a hart is in exit() with a condition lock, or has panicked with it, iff
      its process left sleep() killed. */
  lemma {:induction false} DoomIff(r: seq<State>, i: nat, h: nat, c: Chan)
    requires IsRun(r) && i < |r| && h < |r[i].harts|
    ensures Doomed(r[i].harts[h], c) <==> exists j: nat :: j < i && LeftKilled(r, j, h, c)
    decreases i
  {
    hide Next;
    hide WokeKilled;
    if i == 0 {
      assert r[0].harts[h] == Hart(None, Scan(0, None));
    } else {
      RunInv(r, i - 1);
      hide Inv;
      assert Next(r[i - 1], r[i - 1 + 1]);
      OneStep(r[i - 1], r[i], h, c);
      DoomIff(r, i - 1, h, c);
      if Doomed(r[i].harts[h], c) && !Doomed(r[i - 1].harts[h], c) {
        assert LeftKilled(r, i - 1, h, c);
      }
    }
  }

  lemma OneStep(s: State, s': State, h: nat, c: Chan)
    requires Inv(s) && Next(s, s') && h < |s'.harts|
    ensures h < |s.harts|
    ensures Doomed(s'.harts[h], c)
            <==> Doomed(s.harts[h], c) || (WokeKilled(s, s.harts[h], c) && s'.harts[h] != s.harts[h])
  {
    hide HartStep;
    hide WokeKilled;
    var m: nat :| m < |s.harts| && HartStep(s, s', m);
    OneMoves(s, s', m);
    DoomStep(s, s', m, h, c);
  }

  /** Over every run: such a hart never gives the condition lock back. */
  lemma {:induction false} DoomForever(r: seq<State>, i: nat, k: nat, h: nat, c: Chan)
    requires IsRun(r) && i <= k < |r| && h < |r[i].harts| && Doomed(r[i].harts[h], c)
    ensures h < |r[k].harts| && Doomed(r[k].harts[h], c) && Lk(r[k], c) == Some(h)
    decreases k
  {
    hide Next;
    RunInv(r, k);
    if i < k {
      DoomForever(r, i, k - 1, h, c);
      RunInv(r, k - 1);
      assert Next(r[k - 1], r[k - 1 + 1]);
      Harts(r[k - 1], r[k]);
      OneStep(r[k - 1], r[k], h, c);
    }
    assert HeldChan(r[k].harts[h].pc) == Some(c);
  }

  lemma Harts(s: State, s': State)
    requires Next(s, s')
    ensures |s'.harts| == |s.harts|
  {
    hide HartStep;
    var m: nat :| m < |s.harts| && HartStep(s, s', m);
    OneMoves(s, s', m);
  }

  /** About to call sched(). */
  ghost predicate CallsSched(s: State, x: Hart) {
    x.pc.Sched? || (x.pc.ExitWake? && x.pc.i >= |s.procs|)
  }

  /** What a hart that is about to call sched() has locked. */
  lemma SchedHolds(s: State, h: nat)
    requires Inv(s) && h < |s.harts| && CallsSched(s, s.harts[h])
    ensures var x := s.harts[h];
            && x.proc.Some? && x.proc.value < |s.procs|
            && s.procs[x.proc.value].lock == Some(h) && Held(x) == {x.proc.value}
            && s.procs[x.proc.value].state != RUNNING
    ensures forall c :: Lk(s, c) == Some(h) <==> Doomed(s.harts[h], c)
  {
    var x := s.harts[h];
    assert PointOk(s, x);
    assert forall c :: Lk(s, c) == Some(h) <==> HeldChan(x.pc) == Some(c);
    hide ChansOk;
    hide PointsOk;
    hide ProcsOk;
  }

  /** The checks of sched(), over every run: it is called with the own process locked, no other
      process locked and a state other than RUNNING; a second lock is held, on which it
      panics, iff the process left sleep() killed. */
  lemma SchedPanicsIff(r: seq<State>, i: nat, h: nat)
    requires IsRun(r) && i < |r| && h < |r[i].harts| && CallsSched(r[i], r[i].harts[h])
    ensures var x := r[i].harts[h];
            && x.proc.Some? && x.proc.value < |r[i].procs|
            && r[i].procs[x.proc.value].lock == Some(h) && Held(x) == {x.proc.value}
            && r[i].procs[x.proc.value].state != RUNNING
    ensures (exists c :: Lk(r[i], c) == Some(h)) <==> (exists c, j: nat :: j < i && LeftKilled(r, j, h, c))
  {
    RunInv(r, i);
    var s := r[i];
    SchedHolds(s, h);
    hide Inv;
    hide CallsSched;
    hide LeftKilled;
    hide Doomed;
    hide Lk;
    if c :| Lk(s, c) == Some(h) {
      DoomIff(r, i, h, c);
    }
    if c, j: nat :| j < i && LeftKilled(r, j, h, c) {
      DoomIff(r, i, h, c);
    }
  }
}
