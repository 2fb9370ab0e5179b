/**
  Progress of the process protocol: a hart that waits for nobody can move unless it has
  panicked, so that without a circle of waits every hart's waiting leads to one that moves.
 */
module SchedulerProgress {
  import opened Wrappers
  import opened Scheduler
  import opened SchedulerInv
  import opened SchedulerWait

  // ---------------------------------------------------------------------- progress

  ghost predicate CanStep(s: State, h: nat)
    requires h < |s.harts|
  {
    exists s': State :: HartStep(s, s', h)
  }

  /** Nobody holds the lock a hart spins on. */
  ghost predicate Unblocked(s: State, h: nat)
    requires h < |s.harts|
  {
    Want(s.harts[h]).Some? ==> Exists(s, Want(s.harts[h]).value) && Holder(s, Want(s.harts[h]).value) == None
  }

  lemma SearchCan(s: State, h: nat)
    requires h < |s.harts| && PointOk(s, s.harts[h]) && Unblocked(s, h)
    requires var pc := s.harts[h].pc; pc.Scan? || pc.ScanLock? || pc.ScanCheck? || pc.Dispatch? || pc.Back?
    ensures exists s': State :: SchedulerStep(s, s', h)
  {
    match s.harts[h].pc
    case Scan(i, best) =>
      var pc := if i >= |s.procs| then (match best case None => Scan(0, None) case Some(b) => Dispatch(b))
                else if s.procs[i].state != RUNNABLE then Scan(i + 1, best) else ScanLock(i, best);
      assert SchedulerStep(s, SetPC(s, h, pc), h);
    case ScanLock(i, best) =>
      assert SchedulerStep(s, SetPC(SetP(s, i, s.procs[i].(lock := Some(h))), h, ScanCheck(i, best)), h);
    case ScanCheck(i, best) =>
      var s' := if best == None && s.procs[i].state == RUNNABLE then SetPC(s, h, Scan(i + 1, Some(i)))
                else SetPC(SetP(s, i, s.procs[i].(lock := None)), h, Scan(i + 1, best));
      assert SchedulerStep(s, s', h);
    case Dispatch(b) =>
      assert SchedulerStep(s, SetH(SetP(s, b, s.procs[b].(state := RUNNING)), h,
                                   Hart(Some(b), Switched(s.procs[b]))), h);
    case Back(p) =>
      assert SchedulerStep(s, SetH(SetP(s, p, s.procs[p].(lock := None)), h, Hart(None, Age(0))), h);
  }

  lemma AgeCan(s: State, h: nat)
    requires h < |s.harts| && PointOk(s, s.harts[h]) && Unblocked(s, h)
    requires var pc := s.harts[h].pc; pc.Age? || pc.AgeLock? || pc.AgeHold?
    ensures exists s': State :: SchedulerStep(s, s', h)
  {
    match s.harts[h].pc
    case Age(i) =>
      var pc := if i >= |s.procs| then Scan(0, None)
        else if s.procs[i].state != RUNNABLE then Age(i + 1) else AgeLock(i);
      assert SchedulerStep(s, SetPC(s, h, pc), h);
    case AgeLock(i) =>
      assert SchedulerStep(s, SetPC(SetP(s, i, s.procs[i].(lock := Some(h))), h, AgeHold(i)), h);
    case AgeHold(i) =>
      assert SchedulerStep(s, SetPC(SetP(s, i, s.procs[i].(lock := None)), h, Age(i + 1)), h);
  }

  lemma HandlerCan(s: State, h: nat)
    requires h < |s.harts| && PointOk(s, s.harts[h]) && Unblocked(s, h)
    requires s.harts[h].pc.IntrLock? || s.harts[h].pc.IntrHold?
    ensures exists s': State :: HandlerStep(s, s', h)
  {
    match s.harts[h].pc
    case IntrLock(c, ret) =>
      assert HandlerStep(s, SetLk(SetPC(s, h, IntrHold(c, ret)), c, Some(h)), h);
    case IntrHold(c, ret) =>
      var s' := if c == Tick then SetPC(s.(ticks := s.ticks + 1), h, IntrWake(c, 0, ret))
        else SetLk(SetPC(s, h, ret), c, None);
      assert HandlerStep(s, s', h);
  }

  lemma WakeCan(s: State, h: nat)
    requires h < |s.harts| && PointOk(s, s.harts[h]) && Unblocked(s, h)
    requires s.harts[h].pc.IntrWake? || s.harts[h].pc.IntrWakeLock? || s.harts[h].pc.IntrWakeHold?
    ensures exists s': State :: HandlerStep(s, s', h)
  {
    match s.harts[h].pc
    case IntrWake(c, i, ret) =>
      var s' := if i >= |s.procs| then SetLk(SetPC(s, h, ret), c, None)
                else if s.harts[h].proc == Some(i) then SetPC(s, h, IntrWake(c, i + 1, ret))
                else SetPC(s, h, IntrWakeLock(c, i, ret));
      assert HandlerStep(s, s', h);
    case IntrWakeLock(c, i, ret) =>
      assert HandlerStep(s, SetPC(SetP(s, i, s.procs[i].(lock := Some(h))), h, IntrWakeHold(c, i, ret)), h);
    case IntrWakeHold(c, i, ret) =>
      assert HandlerStep(s, SetPC(SetP(s, i, Woken(s.procs[i], c).(lock := None)), h, IntrWake(c, i + 1, ret)), h);
  }

  lemma ExitCan(s: State, h: nat, p: nat)
    requires h < |s.harts| && PointOk(s, s.harts[h]) && Unblocked(s, h) && s.harts[h].proc == Some(p) && p < |s.procs|
    requires var pc := s.harts[h].pc;
             pc.ExitLock? || pc.ExitHold? || pc.ExitWake? || pc.ExitWakeLock? || pc.ExitWakeHold?
    ensures exists s': State :: LifeStep(s, s', h, p)
  {
    match s.harts[h].pc
    case ExitLock(lk) =>
      assert LifeStep(s, SetPC(SetP(s, p, s.procs[p].(lock := Some(h))), h, ExitHold(lk)), h, p);
    case ExitHold(lk) =>
      assert LifeStep(s, SetPC(SetP(s, p, s.procs[p].(state := ZOMBIE)), h, ExitWake(0, lk)), h, p);
    case ExitWake(i, lk) =>
      var pc := if i >= |s.procs| then (if lk == None then Sched(Dead) else Panicked(lk))
        else if i == p then ExitWake(i + 1, lk) else ExitWakeLock(i, lk);
      assert LifeStep(s, SetPC(s, h, pc), h, p);
    case ExitWakeLock(i, lk) =>
      assert LifeStep(s, SetPC(SetP(s, i, s.procs[i].(lock := Some(h))), h, ExitWakeHold(i, lk)), h, p);
    case ExitWakeHold(i, lk) =>
      assert LifeStep(s, SetPC(SetP(s, i, Woken(s.procs[i], Pool).(lock := None)), h, ExitWake(i + 1, lk)), h, p);
  }

  lemma SlotCan(s: State, h: nat, p: nat)
    requires h < |s.harts| && PointOk(s, s.harts[h]) && Unblocked(s, h) && s.harts[h].proc == Some(p) && p < |s.procs|
    requires var pc := s.harts[h].pc;
             pc.AllocLock? || pc.AllocHold? || pc.AllocPid? || pc.AllocPidHold? || pc.AllocFill?
    ensures exists s': State :: LifeStep(s, s', h, p)
  {
    match s.harts[h].pc
    case AllocLock(i) =>
      assert LifeStep(s, SetPC(SetP(s, i, s.procs[i].(lock := Some(h))), h, AllocHold(i)), h, p);
    case AllocHold(i) =>
      var s' := if s.procs[i].state == UNUSED then SetPC(s, h, AllocPid(i))
        else SetPC(SetP(s, i, s.procs[i].(lock := None)), h, Run);
      assert LifeStep(s, s', h, p);
    case AllocPid(i) =>
      assert LifeStep(s, SetLk(SetPC(s, h, AllocPidHold(i)), Pool, Some(h)), h, p);
    case AllocPidHold(i) =>
      var x := s.procs[i].(state := SLEEPING, chan := None, killed := false);
      assert LifeStep(s, SetLk(SetPC(SetP(s, i, x), h, AllocFill(i)), Pool, None), h, p);
    case AllocFill(i) =>
      assert Filled(s.procs[i], s.procs[i]);
      assert LifeStep(s, SetPC(SetP(s, i, s.procs[i].(lock := None)), h, Run), h, p);
  }

  lemma ReapCan(s: State, h: nat, p: nat)
    requires h < |s.harts| && PointOk(s, s.harts[h]) && Unblocked(s, h) && s.harts[h].proc == Some(p) && p < |s.procs|
    requires s.harts[h].pc.ReapLock? || s.harts[h].pc.ReapHold?
    ensures exists s': State :: LifeStep(s, s', h, p)
  {
    match s.harts[h].pc
    case ReapLock(i) =>
      assert LifeStep(s, SetPC(SetP(s, i, s.procs[i].(lock := Some(h))), h, ReapHold(i)), h, p);
    case ReapHold(i) =>
      var x := Reaped(s.procs[i]).(lock := None);
      var s' := if s.procs[i].state == ZOMBIE then SetPC(SetP(s, i, x), h, CondDone(Pool))
        else SetPC(SetP(s, i, s.procs[i].(lock := None)), h, SleepLock(Pool));
      assert LifeStep(s, s', h, p);
  }

  lemma KillCan(s: State, h: nat, p: nat)
    requires h < |s.harts| && PointOk(s, s.harts[h]) && Unblocked(s, h) && s.harts[h].proc == Some(p) && p < |s.procs|
    requires s.harts[h].pc.KillLock? || s.harts[h].pc.KillHold? || s.harts[h].pc.KillDone?
    ensures exists s': State :: KillStep(s, s', h, p)
  {
    match s.harts[h].pc
    case KillLock(i) =>
      assert KillStep(s, SetPC(SetP(s, i, s.procs[i].(lock := Some(h))), h, KillHold(i)), h, p);
    case KillHold(i) =>
      var s' := if s.procs[i].state == ZOMBIE || s.procs[i].state == UNUSED
        then SetPC(SetP(s, i, s.procs[i].(lock := None)), h, CondDone(Pool))
        else SetPC(SetP(s, i, Killed(s.procs[i]).(lock := None)), h, KillDone);
      assert KillStep(s, s', h, p);
    case KillDone =>
      assert KillStep(s, SetLk(SetPC(s, h, KillWake(0)), Pool, None), h, p);
  }

  lemma KillWakeCan(s: State, h: nat, p: nat)
    requires h < |s.harts| && PointOk(s, s.harts[h]) && Unblocked(s, h) && s.harts[h].proc == Some(p) && p < |s.procs|
    requires s.harts[h].pc.KillWake? || s.harts[h].pc.KillWakeLock? || s.harts[h].pc.KillWakeHold?
    ensures exists s': State :: KillStep(s, s', h, p)
  {
    match s.harts[h].pc
    case KillWake(i) =>
      var pc := if i >= |s.procs| then Run else if i == p then KillWake(i + 1) else KillWakeLock(i);
      assert KillStep(s, SetPC(s, h, pc), h, p);
    case KillWakeLock(i) =>
      assert KillStep(s, SetPC(SetP(s, i, s.procs[i].(lock := Some(h))), h, KillWakeHold(i)), h, p);
    case KillWakeHold(i) =>
      assert KillStep(s, SetPC(SetP(s, i, Woken(s.procs[i], Pool).(lock := None)), h, KillWake(i + 1)), h, p);
  }

  lemma ThreadCan(s: State, h: nat, p: nat)
    requires h < |s.harts| && PointOk(s, s.harts[h]) && Unblocked(s, h) && s.harts[h].proc == Some(p) && p < |s.procs|
    requires var pc := s.harts[h].pc;
             pc.Resumed? || pc.Run? || pc.YieldLock? || pc.YieldHold? || pc.Sched? || pc.SleepSet?
    ensures exists s': State :: ThreadStep(s, s', h, p)
  {
    match s.harts[h].pc
    case Resumed(r) =>
      var s' := if r == Dead then SetPC(s, h, Panicked(None))
                else if r.Slept? then SetPC(SetP(s, p, s.procs[p].(chan := None, lock := None)), h, Relock(r.c))
                else SetPC(SetP(s, p, s.procs[p].(lock := None)), h, Run);
      assert ThreadStep(s, s', h, p);
    case Run =>
      assert ThreadStep(s, SetPC(s, h, YieldLock), h, p);
    case YieldLock =>
      assert ThreadStep(s, SetPC(SetP(s, p, s.procs[p].(lock := Some(h))), h, YieldHold), h, p);
    case YieldHold =>
      assert ThreadStep(s, SetPC(SetP(s, p, s.procs[p].(state := RUNNABLE)), h, Sched(Yielded)), h, p);
    case SleepSet(c) =>
      assert ThreadStep(s, SetPC(SetP(s, p, s.procs[p].(state := SLEEPING, chan := Some(c))), h, Sched(Slept(c))), h,
                        p);
    case Sched(r) =>
      assert ThreadStep(s, SetPC(SetP(s, p, s.procs[p].(ctx := r)), h, Back(p)), h, p);
  }

  lemma CondCan(s: State, h: nat, p: nat)
    requires h < |s.harts| && PointOk(s, s.harts[h]) && Unblocked(s, h) && s.harts[h].proc == Some(p) && p < |s.procs|
    requires var pc := s.harts[h].pc;
             pc.CondLock? || pc.Cond? || pc.CondDone? || pc.SleepLock? || pc.SleepHold? || pc.Relock? || pc.Woke?
    ensures exists s': State :: ThreadStep(s, s', h, p)
  {
    match s.harts[h].pc
    case CondLock(c) =>
      var n := s.procs[p].want;
      assert ThreadStep(s, SetLk(SetPC(SetP(s, p, s.procs[p].(want := n)), h, Cond(c)), c, Some(h)), h, p);
    case Cond(c) =>
      if CondTrue(s, c, p) && c == Cons {
        assert ThreadStep(s, SetPC(s.(avail := s.avail), h, CondDone(c)), h, p);
      } else if c == Pool || CondTrue(s, c, p) || (c == Tick && s.procs[p].killed) {
        assert ThreadStep(s, SetPC(s, h, CondDone(c)), h, p);
      } else {
        assert ThreadStep(s, SetPC(s, h, SleepLock(c)), h, p);
      }
    case CondDone(c) =>
      assert ThreadStep(s, SetLk(SetPC(s, h, Run), c, None), h, p);
    case SleepLock(c) =>
      assert ThreadStep(s, SetPC(SetP(s, p, s.procs[p].(lock := Some(h))), h, SleepHold(c)), h, p);
    case SleepHold(c) =>
      assert ThreadStep(s, SetLk(SetPC(s, h, SleepSet(c)), c, None), h, p);
    case Relock(c) =>
      assert ThreadStep(s, SetLk(SetPC(s, h, Woke(c)), c, Some(h)), h, p);
    case Woke(c) =>
      assert ThreadStep(s, SetPC(s, h, if s.procs[p].killed then ExitLock(Some(c)) else Cond(c)), h, p);
  }

  lemma StepsBySearch(s: State, h: nat)
    requires h < |s.harts| && exists s': State :: SchedulerStep(s, s', h)
    ensures CanStep(s, h)
  {
    hide SchedulerStep;
    var s': State :| SchedulerStep(s, s', h);
    assert HartStep(s, s', h);
  }

  lemma StepsByHandler(s: State, h: nat)
    requires h < |s.harts| && exists s': State :: HandlerStep(s, s', h)
    ensures CanStep(s, h)
  {
    hide HandlerStep;
    var s': State :| HandlerStep(s, s', h);
    assert HartStep(s, s', h);
  }

  lemma StepsByThread(s: State, h: nat, p: nat)
    requires h < |s.harts| && p < |s.procs| && s.harts[h].proc == Some(p)
    requires exists s': State :: ThreadStep(s, s', h, p) || LifeStep(s, s', h, p) || KillStep(s, s', h, p)
    ensures CanStep(s, h)
  {
    hide ThreadStep;
    hide LifeStep;
    hide KillStep;
    var s': State :| ThreadStep(s, s', h, p) || LifeStep(s, s', h, p) || KillStep(s, s', h, p);
    assert HartStep(s, s', h);
  }

  /** A hart that waits for nobody and has not panicked can move. */
  lemma FreeSteps(s: State, h: nat)
    requires h < |s.harts| && PointOk(s, s.harts[h]) && Unblocked(s, h) && !Halted(s.harts[h])
    ensures CanStep(s, h)
  {
    var pc := s.harts[h].pc;
    if pc.Scan? || pc.ScanLock? || pc.ScanCheck? || pc.Dispatch? || pc.Back? {
      SearchCan(s, h);
      hide *;
      StepsBySearch(s, h);
    } else if pc.Age? || pc.AgeLock? || pc.AgeHold? {
      AgeCan(s, h);
      hide *;
      StepsBySearch(s, h);
    } else if pc.IntrWake? || pc.IntrWakeLock? || pc.IntrWakeHold? {
      WakeCan(s, h);
      hide *;
      StepsByHandler(s, h);
    } else if pc.IntrLock? || pc.IntrHold? {
      HandlerCan(s, h);
      hide *;
      StepsByHandler(s, h);
    } else {
      ProcSteps(s, h);
    }
  }

  lemma ProcSteps(s: State, h: nat)
    requires h < |s.harts| && PointOk(s, s.harts[h]) && Unblocked(s, h) && !Halted(s.harts[h])
    requires var pc := s.harts[h].pc;
             !(pc.Scan? || pc.ScanLock? || pc.ScanCheck? || pc.Dispatch? || pc.Back?
               || pc.Age? || pc.AgeLock? || pc.AgeHold?
               || pc.IntrLock? || pc.IntrHold? || pc.IntrWake? || pc.IntrWakeLock? || pc.IntrWakeHold?)
    ensures CanStep(s, h)
  {
    var pc := s.harts[h].pc;
    assert s.harts[h].proc.Some? && s.harts[h].proc.value < |s.procs|;
    var p := s.harts[h].proc.value;
    hide PointOk;
    hide Unblocked;
    hide CanStep;
    hide ThreadStep;
    hide LifeStep;
    hide KillStep;
    if pc.Resumed? || pc.Run? || pc.YieldLock? || pc.YieldHold? || pc.Sched? || pc.SleepSet? {
      ThreadCan(s, h, p);
    } else if pc.CondLock? || pc.Cond? || pc.CondDone? || pc.SleepLock? || pc.SleepHold? || pc.Relock? || pc.Woke? {
      CondCan(s, h, p);
    } else if pc.ExitLock? || pc.ExitHold? || pc.ExitWake? || pc.ExitWakeLock? || pc.ExitWakeHold? {
      ExitCan(s, h, p);
    } else if pc.KillLock? || pc.KillHold? || pc.KillDone? {
      KillCan(s, h, p);
    } else if pc.KillWake? || pc.KillWakeLock? || pc.KillWakeHold? {
      KillWakeCan(s, h, p);
    } else if pc.ReapLock? || pc.ReapHold? {
      ReapCan(s, h, p);
    } else {
      SlotCan(s, h, p);
    }
    StepsByThread(s, h, p);
  }

  /** The lock a hart spins on exists, and whoever holds it is a hart. */
  lemma WantExists(s: State, h: nat)
    requires Inv(s) && h < |s.harts| && Want(s.harts[h]).Some?
    ensures Exists(s, Want(s.harts[h]).value)
    ensures Holder(s, Want(s.harts[h]).value).Some? ==> Holder(s, Want(s.harts[h]).value).value < |s.harts|
    ensures Rank(Want(s.harts[h]).value) <= |s.procs|
  {
    assert PointOk(s, s.harts[h]);
    hide PointsOk;
    hide ProcsOk;
  }

  function NextIn(ws: seq<nat>, t: nat): nat
    requires t + 1 < |ws|
  {
    ws[t + 1]
  }

  /** Each hart of ws waits for the next one. */
  ghost predicate Linked(s: State, ws: seq<nat>) {
    forall t: nat {:trigger NextIn(ws, t)} :: t + 1 < |ws| ==> Waits(s, ws[t], NextIn(ws, t))
  }

  /** ws leads from its first hart, each waiting for the next, to one that can move. */
  ghost predicate LeadsToMove(s: State, ws: seq<nat>) {
    && |ws| > 0 && Linked(s, ws)
    && ws[|ws| - 1] < |s.harts| && CanStep(s, ws[|ws| - 1])
  }

  /** A hart that has panicked or is lost in a dispatch. */
  predicate Halted(x: Hart) { x.pc.Panicked? || x.pc.Faulted? }

  /** ws leads from its first hart to one that has halted. */
  ghost predicate LeadsToHalt(s: State, ws: seq<nat>) {
    && |ws| > 0 && Linked(s, ws)
    && ws[|ws| - 1] < |s.harts| && Halted(s.harts[ws[|ws| - 1]])
  }

  /** ws leads from its first hart into a circle. */
  ghost predicate LeadsToCycle(s: State, ws: seq<nat>) {
    && |ws| > 0 && Linked(s, ws)
    && exists k: nat :: k in ws && Waits(s, ws[|ws| - 1], k)
  }

  /** Hart h waits, through finitely many others, for a halted one or in a circle. */
  ghost predicate Stuck(s: State, h: nat) {
    exists ws: seq<nat> :: (LeadsToHalt(s, ws) || LeadsToCycle(s, ws)) && ws[0] == h
  }

  ghost predicate Moving(s: State, h: nat) {
    exists ws: seq<nat> :: LeadsToMove(s, ws) && ws[0] == h
  }

  ghost predicate NoBackward(s: State) {
    forall h: nat :: h < |s.harts| ==> !Backward(s.harts[h])
  }

  ghost predicate NoneHalted(s: State) {
    forall h: nat :: h < |s.harts| ==> !Halted(s.harts[h])
  }

  lemma PointAt(s: State, h: nat)
    requires Inv(s) && h < |s.harts|
    ensures PointOk(s, s.harts[h])
  {
  }

  // ---------------------------------------------------------- moving or going in circles

  /** A walk along the waits that visits no hart twice. */
  ghost predicate Walk(s: State, ws: seq<nat>) {
    && |ws| > 0 && Linked(s, ws)
    && (forall t: nat :: t < |ws| ==> ws[t] < |s.harts|)
    && (forall t: nat, u: nat :: t < u < |ws| ==> ws[t] != ws[u])
  }

  lemma {:induction false} DistinctBelow(ws: seq<nat>, n: nat)
    requires (forall t: nat :: t < |ws| ==> ws[t] < n) && (forall t: nat, u: nat :: t < u < |ws| ==> ws[t] != ws[u])
    ensures |ws| <= n
    decreases n
  {
    if n > 0 {
      if n - 1 in ws {
        var t: nat :| t < |ws| && ws[t] == n - 1;
        var rest := ws[..t] + ws[t + 1..];
        assert forall u: nat :: u < |rest| ==> rest[u] == ws[if u < t then u else u + 1];
        DistinctBelow(rest, n - 1);
      } else {
        DistinctBelow(ws, n - 1);
      }
    }
  }

  /** A walk that comes back to a hart it has visited closes a cycle. */
  lemma Closes(s: State, ws: seq<nat>, k: nat) returns (hs: seq<nat>)
    requires |ws| > 0 && Linked(s, ws) && k in ws && Waits(s, ws[|ws| - 1], k)
    ensures Cycle(s, hs) && |hs| <= |ws| && hs == ws[|ws| - |hs|..]
  {
    hide Waits;
    var t: nat :| t < |ws| && ws[t] == k;
    hs := ws[t..];
    forall u: nat | u < |hs|
      ensures Waits(s, hs[u], After(hs, u))
    {
      if u + 1 < |hs| {
        assert NextIn(ws, t + u) == hs[u + 1];
      }
    }
  }

  lemma WalkMore(s: State, ws: seq<nat>, k: nat)
    requires Walk(s, ws) && k !in ws && Waits(s, ws[|ws| - 1], k) && k < |s.harts|
    ensures Walk(s, ws + [k])
  {
    hide Waits;
    var ws' := ws + [k];
    forall t: nat | t + 1 < |ws'|
      ensures Waits(s, ws'[t], NextIn(ws', t))
    {
      if t + 1 < |ws| {
        assert NextIn(ws, t) == NextIn(ws', t);
      }
    }
  }

  lemma {:induction false} WalkOn(s: State, ws: seq<nat>) returns (ends: seq<nat>)
    requires Inv(s) && Walk(s, ws)
    ensures |ends| > 0 && ends[0] == ws[0]
    ensures LeadsToMove(s, ends) || LeadsToHalt(s, ends) || LeadsToCycle(s, ends)
    decreases |s.harts| + 1 - |ws|
  {
    DistinctBelow(ws, |s.harts|);
    var h := ws[|ws| - 1];
    PointAt(s, h);
    hide Inv;
    hide PointOk;
    hide Want;
    hide CanStep;
    ends := ws;
    if Want(s.harts[h]).Some? {
      WantExists(s, h);
      var o := Holder(s, Want(s.harts[h]).value);
      if o.Some? {
        var k := o.value;
        assert Waits(s, h, k);
        if k !in ws {
          WalkMore(s, ws, k);
          ends := WalkOn(s, ws + [k]);
        }
        return;
      }
    }
    if !Halted(s.harts[h]) {
      FreeSteps(s, h);
    }
  }

  // ------------------------------------------------------------------ stuck for ever

  /** Nobody waits for two harts, and a halted one for none. */
  lemma OneWait(s: State, h: nat, k: nat, k': nat)
    requires Waits(s, h, k) && Waits(s, h, k')
    ensures k == k' && !Halted(s.harts[h])
  {
  }

  /** Whoever a hart on such a walk waits for is on it too. */
  lemma StaysOn(s: State, vs: seq<nat>, x: nat, y: nat)
    requires (LeadsToHalt(s, vs) || LeadsToCycle(s, vs)) && x in vs && Waits(s, x, y)
    ensures y in vs
  {
    hide Waits;
    hide Halted;
    var t: nat :| t < |vs| && vs[t] == x;
    OneWait(s, x, y, y);
    if t + 1 < |vs| {
      OneWait(s, x, y, NextIn(vs, t));
    } else {
      var k: nat :| k in vs && Waits(s, vs[|vs| - 1], k);
      OneWait(s, x, y, k);
    }
  }

  lemma {:induction false} WalksTogether(s: State, vs: seq<nat>, ws: seq<nat>, t: nat)
    requires (LeadsToHalt(s, vs) || LeadsToCycle(s, vs)) && Linked(s, ws) && t < |ws| && ws[0] in vs
    ensures ws[t] in vs
    decreases t
  {
    hide Waits;
    hide LeadsToHalt;
    hide LeadsToCycle;
    if t > 0 {
      WalksTogether(s, vs, ws, t - 1);
      assert NextIn(ws, t - 1) == ws[t];
      StaysOn(s, vs, ws[t - 1], ws[t]);
    }
  }

  /** No hart on such a walk can move. */
  lemma NoneSteps(s: State, s': State, vs: seq<nat>, m: nat)
    requires (LeadsToHalt(s, vs) || LeadsToCycle(s, vs)) && m < |s.harts| && HartStep(s, s', m)
    ensures m !in vs
  {
    OneMoves(s, s', m);
    HaltedStays(s, s', m);
    hide HartStep;
    hide Waits;
    hide Halted;
    forall t: nat | t < |vs|
      ensures vs[t] != m
    {
      if t + 1 < |vs| {
        var y := NextIn(vs, t);
        assert Waits(s, vs[t], y);
      }
    }
  }

  lemma HaltedStays(s: State, s': State, m: nat)
    requires m < |s.harts| && HartStep(s, s', m)
    ensures !Halted(s.harts[m])
  {
  }

  lemma NotBoth(s: State, vs: seq<nat>, ws: seq<nat>)
    requires (LeadsToHalt(s, vs) || LeadsToCycle(s, vs)) && |ws| > 0 && ws[0] == vs[0]
    ensures !LeadsToMove(s, ws)
  {
    if LeadsToMove(s, ws) {
      var m := ws[|ws| - 1];
      WalkSome(s, vs);
      hide LeadsToHalt;
      hide LeadsToCycle;
      hide HartStep;
      hide Linked;
      WalksTogether(s, vs, ws, |ws| - 1);
      var s': State :| HartStep(s, s', m);
      NoneSteps(s, s', vs, m);
    }
  }

  /** Each hart leads to one that can move or is stuck, and never both. */
  lemma StuckExact(s: State, h: nat)
    requires Inv(s) && h < |s.harts|
    ensures Moving(s, h) <==> !Stuck(s, h)
  {
    assert Walk(s, [h]);
    var ends := WalkOn(s, [h]);
    hide LeadsToHalt;
    hide LeadsToCycle;
    hide LeadsToMove;
    hide Inv;
    hide Walk;
    forall vs: seq<nat>, ws: seq<nat> | (LeadsToHalt(s, vs) || LeadsToCycle(s, vs)) && LeadsToMove(s, ws)
      ensures |vs| > 0 && |ws| > 0 && ws[0] != vs[0]
    {
      WalkSome(s, vs);
      MoveSome(s, ws);
      if ws[0] == vs[0] {
        NotBoth(s, vs, ws);
      }
    }
  }

  lemma MoveSome(s: State, ws: seq<nat>)
    requires LeadsToMove(s, ws)
    ensures |ws| > 0
  {
  }

  /** A step leaves such a walk as it is. */
  lemma StuckNext(s: State, s': State, vs: seq<nat>)
    requires Inv(s) && Next(s, s') && (LeadsToHalt(s, vs) || LeadsToCycle(s, vs))
    ensures LeadsToHalt(s, vs) ==> LeadsToHalt(s', vs)
    ensures LeadsToCycle(s, vs) ==> LeadsToCycle(s', vs)
    ensures forall t: nat :: t < |vs| ==> vs[t] < |s.harts| && vs[t] < |s'.harts| && s'.harts[vs[t]] == s.harts[vs[t]]
  {
    NextKeeps(s, s');
    hide Inv;
    hide HartStep;
    var m: nat :| m < |s.harts| && HartStep(s, s', m);
    OneMoves(s, s', m);
    NoneSteps(s, s', vs, m);
    WalkBound(s, vs);
    forall t: nat | t + 1 < |vs|
      ensures Waits(s', vs[t], NextIn(vs, t))
    {
      assert Waits(s, vs[t], NextIn(vs, t));
      WaitStays(s, s', vs[t], NextIn(vs, t), m);
    }
    if LeadsToCycle(s, vs) {
      var k: nat :| k in vs && Waits(s, vs[|vs| - 1], k);
      WaitStays(s, s', vs[|vs| - 1], k, m);
    }
  }

  lemma WalkBound(s: State, vs: seq<nat>)
    requires LeadsToHalt(s, vs) || LeadsToCycle(s, vs)
    ensures forall t: nat :: t < |vs| ==> vs[t] < |s.harts|
  {
    forall t: nat | t < |vs|
      ensures vs[t] < |s.harts|
    {
      if t + 1 < |vs| {
        assert Waits(s, vs[t], NextIn(vs, t));
      }
    }
  }

  // -------------------------------------------------------------------- theorems

  /** Over every run: a hart leads to one that can move iff it is not stuck. */
  lemma StuckIff(r: seq<State>, i: nat, h: nat)
    requires IsRun(r) && i < |r| && h < |r[i].harts|
    ensures Moving(r[i], h) <==> !Stuck(r[i], h)
  {
    RunInv(r, i);
    hide *;
    StuckExact(r[i], h);
  }

  /** Over every run: a stuck hart never moves again. */
  lemma {:induction false} StuckForever(r: seq<State>, i: nat, k: nat, h: nat, vs: seq<nat>)
    requires IsRun(r) && i <= k < |r| && (LeadsToHalt(r[i], vs) || LeadsToCycle(r[i], vs)) && vs[0] == h
    ensures LeadsToHalt(r[k], vs) || LeadsToCycle(r[k], vs)
    ensures h < |r[i].harts| && h < |r[k].harts| && r[k].harts[h] == r[i].harts[h]
    decreases k
  {
    hide Next;
    hide Init;
    if i < k {
      StuckForever(r, i, k - 1, h, vs);
      RunInv(r, k - 1);
      hide Inv;
      hide LeadsToHalt;
      hide LeadsToCycle;
      assert Next(r[k - 1], r[k - 1 + 1]);
      WalkSome(r[k - 1], vs);
      StuckNext(r[k - 1], r[k], vs);
    } else {
      WalkBound(r[i], vs);
    }
  }

  lemma WalkSome(s: State, vs: seq<nat>)
    requires LeadsToHalt(s, vs) || LeadsToCycle(s, vs)
    ensures |vs| > 0
  {
  }

  /** Over every run: what a stuck hart leads to is a halted hart, or a circle at the end of its
      walk, one of whose harts waits backward. */
  lemma StuckWhy(r: seq<State>, i: nat, vs: seq<nat>) returns (hs: seq<nat>)
    requires IsRun(r) && i < |r| && LeadsToCycle(r[i], vs)
    ensures |hs| <= |vs| && hs == vs[|vs| - |hs|..] && Cycle(r[i], hs) && AnyBackward(r[i], hs)
  {
    RunInv(r, i);
    hide Inv;
    var k: nat :| k in vs && Waits(r[i], vs[|vs| - 1], k);
    hs := Closes(r[i], vs, k);
    hide Linked;
    CycleNeedsBackward(r[i], hs);
  }

  /** Over every run: as long as no hart has halted and no wait goes backward, each hart can
      move or waits, through finitely many others, for one that can. */
  lemma NobodyStuck(r: seq<State>, i: nat, h: nat)
    requires IsRun(r) && i < |r| && h < |r[i].harts| && NoBackward(r[i]) && NoneHalted(r[i])
    ensures Moving(r[i], h)
  {
    StuckIff(r, i, h);
    hide Linked;
    hide IsRun;
    hide Moving;
    if Stuck(r[i], h) {
      var vs: seq<nat> :| (LeadsToHalt(r[i], vs) || LeadsToCycle(r[i], vs)) && vs[0] == h;
      var hs := StuckWhy(r, i, vs);
    }
  }
}
