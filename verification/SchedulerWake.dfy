/**
  No lost wakeup on the tick and console channels: under every interleaving, a
  process that sleeps although its condition holds has a waker on the way to it,
  and that waker still holds the condition lock.
 */
module SchedulerWake {
  import opened Wrappers
  import opened Scheduler
  import opened SchedulerInv

  ghost predicate Asleep(s: State, c: Chan, p: nat) {
    p < |s.procs| && s.procs[p].state == SLEEPING && s.procs[p].chan == Some(c)
  }

  /** Hart h has released the condition lock on behalf of p and is about to mark it SLEEPING. */
  ghost predicate Dozing(s: State, h: nat, c: Chan, p: nat) {
    h < |s.harts| && s.harts[h] == Hart(Some(p), SleepSet(c))
  }

  /** Hart h has found the condition of p false and still holds the condition lock. */
  ghost predicate Deciding(s: State, h: nat, c: Chan, p: nat) {
    h < |s.harts| && (s.harts[h] == Hart(Some(p), SleepLock(c)) || s.harts[h] == Hart(Some(p), SleepHold(c)))
  }

  /** The waker's loop over the process table is at slot i. */
  predicate WakerAt(pc: PC, c: Chan, i: nat) {
    match pc
    case IntrWake(c', i', _) => c' == c && i' == i
    case IntrWakeLock(c', i', _) => c' == c && i' == i
    case IntrWakeHold(c', i', _) => c' == c && i' == i
    case _ => false
  }

  /** The holder of the condition lock is waking and has not passed p. */
  ghost predicate Coming(s: State, c: Chan, p: nat) {
    Lk(s, c).Some? && Lk(s, c).value < |s.harts| && exists i: nat :: i <= p && WakerAt(s.harts[Lk(s, c).value].pc, c, i)
  }

  ghost predicate SleepersOk(s: State) {
    forall c: Chan, p: nat :: Asleep(s, c, p) && CondTrue(s, c, p) ==> Coming(s, c, p)
  }

  ghost predicate DozersOk(s: State) {
    forall h: nat, c: Chan, p: nat :: Dozing(s, h, c, p) && p < |s.procs| && CondTrue(s, c, p) ==> Coming(s, c, p)
  }

  ghost predicate DecidersOk(s: State) {
    forall h: nat, c: Chan, p: nat :: Deciding(s, h, c, p) && p < |s.procs| ==> !CondTrue(s, c, p)
  }

  ghost predicate WakeOk(s: State) {
    SleepersOk(s) && DozersOk(s) && DecidersOk(s)
  }

  // ---------------------------------------------------------------- quiet steps

  /** Nobody sleeps, or is about to, on c as p. */
  ghost predicate Unbound(s: State, c: Chan, p: nat) {
    !Asleep(s, c, p) && forall x: nat :: !Dozing(s, x, c, p)
  }

  /** A condition becomes true only for processes that are not bound to it or that a
      waker is coming for. */
  ghost predicate Announced(s: State, s': State) {
    forall c: Chan, p: nat :: p < |s.procs| && p < |s'.procs| && CondTrue(s', c, p)
      ==> CondTrue(s, c, p) || Unbound(s', c, p) || Coming(s', c, p)
  }

  /** A waker passes only processes that are not bound to its channel. */
  ghost predicate NonePassed(s: State, s': State) {
    forall c: Chan, p: nat :: Coming(s, c, p) ==> Coming(s', c, p) || Unbound(s', c, p)
  }

  /** Hart h puts q to sleep only by the steps of sleep(). */
  ghost predicate Careful(s: State, s': State, h: nat, q: nat) {
    && (forall c: Chan :: Asleep(s', c, q) ==> Asleep(s, c, q) || Dozing(s, h, c, q))
    && (forall c: Chan, p: nat :: Dozing(s', h, c, p) ==> Deciding(s, h, c, p))
    && (forall c: Chan, p: nat :: Deciding(s', h, c, p) && p < |s'.procs| ==> !CondTrue(s', c, p))
  }

  /** No other hart's decision is overtaken. */
  ghost predicate Undisturbed(s: State, s': State, h: nat) {
    forall x: nat, c: Chan, p: nat ::
      Deciding(s', x, c, p) && x != h && p < |s.procs| && p < |s'.procs| && CondTrue(s', c, p) ==> CondTrue(s, c, p)
  }

  lemma OthersSame(s: State, s': State, h: nat, q: nat)
    requires Local(s, s', h, q)
    ensures forall x: nat, c: Chan, p: nat :: Dozing(s', x, c, p) && x != h ==> Dozing(s, x, c, p)
    ensures forall x: nat, c: Chan, p: nat :: Deciding(s', x, c, p) && x != h ==> Deciding(s, x, c, p)
    ensures forall c: Chan, p: nat :: Asleep(s', c, p) && p != q ==> Asleep(s, c, p)
  {
  }

  lemma QuietKeeps(s: State, s': State, h: nat, q: nat)
    requires WakeOk(s) && Local(s, s', h, q)
    requires Announced(s, s') && NonePassed(s, s') && Careful(s, s', h, q) && Undisturbed(s, s', h)
    ensures WakeOk(s')
  {
    OthersSame(s, s', h, q);
    hide CondTrue;
    hide Coming;
    hide Deciding;
    hide Dozing;
    forall c: Chan, p: nat | Asleep(s', c, p) && CondTrue(s', c, p)
      ensures Coming(s', c, p)
    {
      assert Asleep(s, c, p) || Dozing(s, h, c, p);
    }
    forall x: nat, c: Chan, p: nat | Dozing(s', x, c, p) && p < |s'.procs| && CondTrue(s', c, p)
      ensures Coming(s', c, p)
    {
      assert Dozing(s, x, c, p) || Deciding(s, x, c, p);
    }
  }

  // -------------------------------------------------------- steps without the waker

  /** A hart that is no waker cannot end a waker's approach. */
  lemma ComingStays(s: State, s': State, h: nat)
    requires ChansOk(s) && h < |s.harts| && |s'.harts| == |s.harts|
    requires forall x: nat :: x < |s.harts| && x != h ==> s'.harts[x] == s.harts[x]
    requires forall c: Chan :: Lk(s, c).Some? && Lk(s, c) != Some(h) ==> Lk(s', c) == Lk(s, c)
    requires forall c: Chan, i: nat :: !WakerAt(s.harts[h].pc, c, i)
    ensures NonePassed(s, s')
  {
    hide WakerAt;
    hide Lk;
    hide Unbound;
    forall c: Chan, p: nat | Coming(s, c, p)
      ensures Coming(s', c, p)
    {
      var i: nat :| i <= p && WakerAt(s.harts[Lk(s, c).value].pc, c, i);
      assert Lk(s, c).value != h;
      assert WakerAt(s'.harts[Lk(s', c).value].pc, c, i);
    }
  }

  /** Everything but the wakers: no condition becomes true. */
  lemma StillKeeps(s: State, s': State, h: nat, q: nat)
    requires ChansOk(s) && WakeOk(s) && Local(s, s', h, q)
    requires s'.ticks == s.ticks && s'.avail <= s.avail && s'.procs[q].want == s.procs[q].want
    requires forall c: Chan :: Lk(s, c).Some? && Lk(s, c) != Some(h) ==> Lk(s', c) == Lk(s, c)
    requires forall c: Chan, i: nat :: !WakerAt(s.harts[h].pc, c, i)
    requires Careful(s, s', h, q)
    ensures WakeOk(s')
  {
    ComingStays(s, s', h);
    CondNotRaised(s, s', h, q);
    hide CondTrue;
    hide Coming;
    hide WakerAt;
    QuietKeeps(s, s', h, q);
  }

  lemma CondNotRaised(s: State, s': State, h: nat, q: nat)
    requires Local(s, s', h, q)
    requires s'.ticks == s.ticks && s'.avail <= s.avail && s'.procs[q].want == s.procs[q].want
    ensures forall c: Chan, p: nat :: p < |s.procs| && CondTrue(s', c, p) ==> CondTrue(s, c, p)
  {
  }

  /** Steps that put nobody to sleep. */
  lemma PlainKeeps(s: State, s': State, h: nat, q: nat)
    requires ChansOk(s) && WakeOk(s) && Local(s, s', h, q)
    requires s'.ticks == s.ticks && s'.avail <= s.avail && s'.procs[q].want == s.procs[q].want
    requires forall c: Chan :: Lk(s, c).Some? && Lk(s, c) != Some(h) ==> Lk(s', c) == Lk(s, c)
    requires forall c: Chan, i: nat :: !WakerAt(s.harts[h].pc, c, i)
    requires forall c: Chan :: Asleep(s', c, q) ==> Asleep(s, c, q)
    requires !s'.harts[h].pc.SleepSet? && !s'.harts[h].pc.SleepLock? && !s'.harts[h].pc.SleepHold?
    ensures WakeOk(s')
  {
    hide WakerAt;
    hide Lk;
    hide WakeOk;
    hide CondTrue;
    StillKeeps(s, s', h, q);
  }

  lemma InterruptWake(s: State, s': State, h: nat)
    requires Inv(s) && WakeOk(s) && h < |s.harts| && InterruptStep(s, s', h)
    ensures WakeOk(s')
  {
    hide WakeOk;
    hide PointsOk;
    hide LocksOk;
    hide ChansOk;
    hide ProcsOk;
    PlainKeeps(s, s', h, 0);
  }

  lemma SchedulerWake(s: State, s': State, h: nat)
    requires Inv(s) && WakeOk(s) && h < |s.harts| && SchedulerStep(s, s', h)
    ensures WakeOk(s')
  {
    hide WakeOk;
    hide LocksOk;
    hide ChansOk;
    hide ProcsOk;
    assert PointOk(s, s.harts[h]);
    hide PointsOk;
    match s.harts[h].pc
    case Scan(i, best) =>
      PlainKeeps(s, s', h, 0);
    case ScanLock(i, best) =>
      PlainKeeps(s, s', h, i);
    case ScanCheck(i, best) =>
      ScanCheckWake(s, s', h, i, best);
    case Dispatch(b) =>
      PlainKeeps(s, s', h, b);
    case Back(p) =>
      PlainKeeps(s, s', h, p);
    case Age(i) =>
      PlainKeeps(s, s', h, 0);
    case AgeLock(i) =>
      PlainKeeps(s, s', h, i);
    case AgeHold(i) =>
      PlainKeeps(s, s', h, i);
  }

  lemma ScanCheckWake(s: State, s': State, h: nat, i: nat, best: Option<nat>)
    requires Inv(s) && WakeOk(s) && h < |s.harts| && s.harts[h].pc == ScanCheck(i, best) && SchedulerStep(s, s', h)
    ensures WakeOk(s')
  {
    hide WakeOk;
    hide LocksOk;
    hide ChansOk;
    hide ProcsOk;
    hide PointsOk;
    if best.Some? && s'.harts[h].pc == Scan(i + 1, Some(i)) {
      PlainKeeps(s, s', h, best.value);
    } else {
      PlainKeeps(s, s', h, i);
    }
  }

  lemma LifeWake(s: State, s': State, h: nat, p: nat)
    requires Inv(s) && WakeOk(s) && h < |s.harts| && p < |s.procs| && s.harts[h].proc == Some(p)
    requires LifeStep(s, s', h, p)
    ensures WakeOk(s')
  {
    hide WakeOk;
    hide LocksOk;
    hide ChansOk;
    hide ProcsOk;
    assert PointOk(s, s.harts[h]);
    hide PointsOk;
    match s.harts[h].pc
    case ExitLock(_) =>
      PlainKeeps(s, s', h, p);
    case ExitHold(_) =>
      PlainKeeps(s, s', h, p);
    case ExitWake(_, _) =>
      PlainKeeps(s, s', h, p);
    case ExitWakeLock(i, _) =>
      PlainKeeps(s, s', h, i);
    case ExitWakeHold(i, _) =>
      PlainKeeps(s, s', h, i);
    case ReapLock(_) =>
      ReapWake(s, s', h, p);
    case ReapHold(_) =>
      ReapWake(s, s', h, p);
    case _ =>
      AllocWake(s, s', h, p);
  }

  lemma AllocWake(s: State, s': State, h: nat, p: nat)
    requires Inv(s) && WakeOk(s) && h < |s.harts| && p < |s.procs| && s.harts[h].proc == Some(p)
    requires LifeStep(s, s', h, p)
    requires var pc := s.harts[h].pc;
             pc.AllocLock? || pc.AllocHold? || pc.AllocPid? || pc.AllocPidHold? || pc.AllocFill?
    ensures WakeOk(s')
  {
    assert forall k: Chan :: HeldChan(s.harts[h].pc) == Some(k) ==> Lk(s, k) == Some(h);
    hide WakeOk;
    hide LocksOk;
    hide ChansOk;
    hide ProcsOk;
    assert PointOk(s, s.harts[h]);
    hide PointsOk;
    match s.harts[h].pc
    case AllocLock(i) =>
      PlainKeeps(s, s', h, i);
    case AllocHold(i) =>
      PlainKeeps(s, s', h, i);
    case AllocPid(i) =>
      PlainKeeps(s, s', h, i);
    case AllocPidHold(i) =>
      PlainKeeps(s, s', h, i);
    case AllocFill(i) =>
      PlainKeeps(s, s', h, i);
  }

  lemma ReapWake(s: State, s': State, h: nat, p: nat)
    requires Inv(s) && WakeOk(s) && h < |s.harts| && p < |s.procs| && s.harts[h].proc == Some(p)
    requires LifeStep(s, s', h, p)
    requires s.harts[h].pc.ReapLock? || s.harts[h].pc.ReapHold?
    ensures WakeOk(s')
  {
    assert forall k: Chan :: HeldChan(s.harts[h].pc) == Some(k) ==> Lk(s, k) == Some(h);
    hide WakeOk;
    hide LocksOk;
    hide ChansOk;
    hide ProcsOk;
    assert PointOk(s, s.harts[h]);
    hide PointsOk;
    match s.harts[h].pc
    case ReapLock(i) =>
      PlainKeeps(s, s', h, i);
    case ReapHold(i) =>
      StillKeeps(s, s', h, i);
  }

  lemma VictimWake(s: State, s': State, h: nat, p: nat)
    requires Inv(s) && WakeOk(s) && h < |s.harts| && p < |s.procs| && s.harts[h].proc == Some(p)
    requires KillStep(s, s', h, p)
    requires s.harts[h].pc.KillLock? || s.harts[h].pc.KillHold? || s.harts[h].pc.KillDone?
    ensures WakeOk(s')
  {
    assert forall k: Chan :: HeldChan(s.harts[h].pc) == Some(k) ==> Lk(s, k) == Some(h);
    hide WakeOk;
    hide LocksOk;
    hide ChansOk;
    hide ProcsOk;
    assert PointOk(s, s.harts[h]);
    hide PointsOk;
    match s.harts[h].pc
    case KillLock(i) =>
      PlainKeeps(s, s', h, i);
    case KillHold(i) =>
      PlainKeeps(s, s', h, i);
    case KillDone =>
      PlainKeeps(s, s', h, p);
  }

  lemma LoopWake(s: State, s': State, h: nat, p: nat)
    requires Inv(s) && WakeOk(s) && h < |s.harts| && p < |s.procs| && s.harts[h].proc == Some(p)
    requires KillStep(s, s', h, p)
    requires s.harts[h].pc.KillWake? || s.harts[h].pc.KillWakeLock? || s.harts[h].pc.KillWakeHold?
    ensures WakeOk(s')
  {
    assert forall k: Chan :: HeldChan(s.harts[h].pc) == Some(k) ==> Lk(s, k) == Some(h);
    hide WakeOk;
    hide LocksOk;
    hide ChansOk;
    hide ProcsOk;
    assert PointOk(s, s.harts[h]);
    hide PointsOk;
    match s.harts[h].pc
    case KillWake(_) =>
      PlainKeeps(s, s', h, p);
    case KillWakeLock(i) =>
      PlainKeeps(s, s', h, i);
    case KillWakeHold(i) =>
      PlainKeeps(s, s', h, i);
  }

  lemma KillWakes(s: State, s': State, h: nat, p: nat)
    requires Inv(s) && WakeOk(s) && h < |s.harts| && p < |s.procs| && s.harts[h].proc == Some(p)
    requires KillStep(s, s', h, p)
    ensures WakeOk(s')
  {
    var pc := s.harts[h].pc;
    if pc.KillLock? || pc.KillHold? || pc.KillDone? {
      hide *;
      VictimWake(s, s', h, p);
    } else {
      assert pc.KillWake? || pc.KillWakeLock? || pc.KillWakeHold?;
      hide *;
      LoopWake(s, s', h, p);
    }
  }

  lemma ThreadWake(s: State, s': State, h: nat, p: nat)
    requires Inv(s) && WakeOk(s) && h < |s.harts| && p < |s.procs| && s.harts[h].proc == Some(p)
    requires ThreadStep(s, s', h, p)
    ensures WakeOk(s')
  {
    match s.harts[h].pc
    case CondLock(c) =>
      CondLockWake(s, s', h, p, c);
    case Cond(c) =>
      CondWake(s, s', h, p, c);
    case SleepLock(c) =>
      SleepWake(s, s', h, p, c);
    case SleepHold(c) =>
      SleepWake(s, s', h, p, c);
    case SleepSet(c) =>
      SleepWake(s, s', h, p, c);
    case Resumed(r) =>
      SwitchWake(s, s', h, p);
    case Run =>
      SwitchWake(s, s', h, p);
    case YieldLock =>
      SwitchWake(s, s', h, p);
    case YieldHold =>
      SwitchWake(s, s', h, p);
    case CondDone(c) =>
      CondLockMoves(s, s', h, p);
    case Relock(c) =>
      CondLockMoves(s, s', h, p);
    case Woke(c) =>
      SwitchWake(s, s', h, p);
    case Sched(r) =>
      SwitchWake(s, s', h, p);
  }

  lemma SwitchWake(s: State, s': State, h: nat, p: nat)
    requires Inv(s) && WakeOk(s) && h < |s.harts| && p < |s.procs| && s.harts[h].proc == Some(p)
    requires ThreadStep(s, s', h, p)
    requires var pc := s.harts[h].pc;
             pc.Resumed? || pc.Run? || pc.YieldLock? || pc.YieldHold? || pc.Sched? || pc.Woke?
    ensures WakeOk(s')
  {
    hide WakeOk;
    hide LocksOk;
    hide ChansOk;
    hide ProcsOk;
    hide PointsOk;
    PlainKeeps(s, s', h, p);
  }

  /** Taking or giving back the condition lock outside sleep(). */
  lemma CondLockMoves(s: State, s': State, h: nat, p: nat)
    requires Inv(s) && WakeOk(s) && h < |s.harts| && p < |s.procs| && s.harts[h].proc == Some(p)
    requires ThreadStep(s, s', h, p)
    requires s.harts[h].pc.CondDone? || s.harts[h].pc.Relock?
    ensures WakeOk(s')
  {
    assert forall k: Chan :: HeldChan(s.harts[h].pc) == Some(k) ==> Lk(s, k) == Some(h);
    hide WakeOk;
    hide LocksOk;
    hide ChansOk;
    hide ProcsOk;
    hide PointsOk;
    PlainKeeps(s, s', h, p);
  }

  /** The sleeper sets its own deadline while it is running. */
  lemma CondLockWake(s: State, s': State, h: nat, p: nat, c: Chan)
    requires Inv(s) && WakeOk(s) && h < |s.harts| && p < |s.procs| && s.harts[h] == Hart(Some(p), CondLock(c))
    requires ThreadStep(s, s', h, p)
    ensures WakeOk(s')
  {
    assert PointOk(s, s.harts[h]);
    ComingStays(s, s', h);
    NotBound(s, s', h, p);
    assert forall k: Chan, x: nat :: x < |s.procs| && x != p ==> (CondTrue(s', k, x) <==> CondTrue(s, k, x));
    hide CondTrue;
    hide Coming;
    hide Inv;
    QuietKeeps(s, s', h, p);
  }

  /** A process that runs on hart h, away from sleep(), is bound to no channel. */
  lemma NotBound(s: State, s': State, h: nat, p: nat)
    requires Inv(s) && Local(s, s', h, p) && OnHart(s, h, p) && s'.procs[p].state == RUNNING
    requires !s'.harts[h].pc.SleepSet? && !s'.harts[h].pc.SleepLock? && !s'.harts[h].pc.SleepHold?
    ensures forall c: Chan :: Unbound(s', c, p)
    ensures forall c: Chan, x: nat :: !Deciding(s', x, c, p)
  {
    forall x: nat | x < |s.harts| && x != h
      ensures s'.harts[x].proc != Some(p)
    {
      assert s'.harts[x] == s.harts[x] && !OnHart(s, x, p);
    }
    hide Inv;
  }

  lemma CondWake(s: State, s': State, h: nat, p: nat, c: Chan)
    requires Inv(s) && WakeOk(s) && h < |s.harts| && p < |s.procs| && s.harts[h] == Hart(Some(p), Cond(c))
    requires ThreadStep(s, s', h, p)
    ensures WakeOk(s')
  {
    hide WakeOk;
    hide LocksOk;
    hide ChansOk;
    hide ProcsOk;
    hide PointsOk;
    StillKeeps(s, s', h, p);
  }

  lemma SleepWake(s: State, s': State, h: nat, p: nat, c: Chan)
    requires Inv(s) && WakeOk(s) && h < |s.harts| && p < |s.procs| && s.harts[h].proc == Some(p)
    requires ThreadStep(s, s', h, p)
    requires s.harts[h].pc == SleepLock(c) || s.harts[h].pc == SleepHold(c) || s.harts[h].pc == SleepSet(c)
    ensures WakeOk(s')
  {
    assert Deciding(s, h, c, p) ==> !CondTrue(s, c, p);
    hide WakeOk;
    hide LocksOk;
    hide ChansOk;
    hide ProcsOk;
    hide PointsOk;
    StillKeeps(s, s', h, p);
  }

  // ---------------------------------------------------------------------- wakers

  lemma HandlerWake(s: State, s': State, h: nat)
    requires Inv(s) && WakeOk(s) && h < |s.harts| && HandlerStep(s, s', h)
    ensures WakeOk(s')
  {
    match s.harts[h].pc
    case IntrLock(c, ret) =>
      EnterWake(s, s', h);
    case IntrHold(c, ret) =>
      if s'.harts[h].pc == IntrWake(c, 0, ret) {
        RaiseWake(s, s', h, c, ret);
      } else {
        EnterWake(s, s', h);
      }
    case IntrWake(c, i, ret) =>
      PassWake(s, s', h, c, i);
    case IntrWakeLock(c, i, ret) =>
      PassWake(s, s', h, c, i);
    case IntrWakeHold(c, i, ret) =>
      PassWake(s, s', h, c, i);
  }

  lemma EnterWake(s: State, s': State, h: nat)
    requires Inv(s) && WakeOk(s) && h < |s.harts| && HandlerStep(s, s', h)
    requires s.harts[h].pc.IntrLock? || s.harts[h].pc.IntrHold?
    requires s.harts[h].pc.IntrHold? ==> s'.harts[h].pc == s.harts[h].pc.ret
    ensures WakeOk(s')
  {
    assert forall k: Chan :: HeldChan(s.harts[h].pc) == Some(k) ==> Lk(s, k) == Some(h);
    hide WakeOk;
    hide LocksOk;
    hide ChansOk;
    hide ProcsOk;
    assert PointOk(s, s.harts[h]);
    hide PointsOk;
    PlainKeeps(s, s', h, 0);
  }

  /** Whoever holds the condition lock is the only one who can be deciding. */
  lemma NobodyDeciding(s: State, h: nat, c: Chan)
    requires ChansOk(s) && h < |s.harts| && s.harts[h].pc.IntrHold? && s.harts[h].pc.c == c
    ensures forall x: nat, p: nat :: !Deciding(s, x, c, p)
  {
    assert HeldChan(s.harts[h].pc) == Some(c);
    assert forall x: nat, p: nat :: Deciding(s, x, c, p) ==> HeldChan(s.harts[x].pc) == Some(c);
  }

  /** The handler makes the condition true and starts at the first slot. */
  lemma RaiseWake(s: State, s': State, h: nat, c: Chan, ret: PC)
    requires Inv(s) && WakeOk(s) && h < |s.harts| && HandlerStep(s, s', h)
    requires s.harts[h].pc == IntrHold(c, ret) && s'.harts[h].pc == IntrWake(c, 0, ret)
    ensures WakeOk(s')
  {
    assert c != Pool by {
      assert PointOk(s, s.harts[h]);
    }
    ComingStays(s, s', h);
    NobodyDeciding(s, h, c);
    hide PointOk;
    assert WakerAt(s'.harts[h].pc, c, 0);
    assert forall p: nat :: Coming(s', c, p);
    assert forall k: Chan, x: nat :: x < |s.procs| && k != c ==> (CondTrue(s', k, x) <==> CondTrue(s, k, x));
    assert Local(s, s', h, 0);
    OthersSame(s, s', h, 0);
    hide CondTrue;
    hide Coming;
    hide Inv;
    QuietKeeps(s, s', h, 0);
  }

  /** A waker that moves on leaves behind nobody bound to its channel. */
  lemma PassWake(s: State, s': State, h: nat, c: Chan, i: nat)
    requires Inv(s) && WakeOk(s) && h < |s.harts| && HandlerStep(s, s', h) && WakerAt(s.harts[h].pc, c, i)
    ensures WakeOk(s')
  {
    var q := if i < |s.procs| then i else 0;
    WakerMoves(s, s', h, c, i, q);
    hide HandlerStep;
    hide Inv;
    CondNotRaised(s, s', h, q);
    hide CondTrue;
    hide Coming;
    QuietKeeps(s, s', h, q);
  }

  lemma WakerMoves(s: State, s': State, h: nat, c: Chan, i: nat, q: nat)
    requires Inv(s) && h < |s.harts| && HandlerStep(s, s', h) && WakerAt(s.harts[h].pc, c, i)
    requires q == if i < |s.procs| then i else 0
    ensures Local(s, s', h, q) && s'.ticks == s.ticks && s'.avail == s.avail && s'.procs[q].want == s.procs[q].want
    ensures NonePassed(s, s') && Careful(s, s', h, q)
  {
    assert PointOk(s, s.harts[h]);
    WakerPasses(s, s', h, c, i);
    hide LocksOk;
    hide ChansOk;
    hide ProcsOk;
    hide PointsOk;
    hide Coming;
    hide CondTrue;
  }

  lemma WakerPasses(s: State, s': State, h: nat, c: Chan, i: nat)
    requires Inv(s) && h < |s.harts| && HandlerStep(s, s', h) && WakerAt(s.harts[h].pc, c, i)
    ensures NonePassed(s, s')
  {
    assert HeldChan(s.harts[h].pc) == Some(c) && Lk(s, c) == Some(h);
    WakerSteps(s, s', h, c, i);
    hide HandlerStep;
    hide Unbound;
    forall k: Chan, p: nat | Coming(s, k, p)
      ensures Coming(s', k, p) || Unbound(s', k, p)
    {
      if k != c {
        OtherComing(s, s', h, c, k, p);
      } else {
        assert i <= p;
        if Lk(s', c) == Some(h) && (WakerAt(s'.harts[h].pc, c, i) || (i < p && WakerAt(s'.harts[h].pc, c, i + 1))) {
          assert Coming(s', c, p);
        } else if i >= |s.procs| {
          BeyondTable(s, s', h, c, p);
        } else {
          PassedUnbound(s, s', h, c, i);
        }
      }
    }
  }

  /** The waker stays at its slot, moves to the next one, or is done. */
  lemma WakerSteps(s: State, s': State, h: nat, c: Chan, i: nat)
    requires h < |s.harts| && HandlerStep(s, s', h) && WakerAt(s.harts[h].pc, c, i) && Lk(s, c) == Some(h)
    ensures |s'.harts| == |s.harts|
    ensures i < |s.procs| ==>
              Lk(s', c) == Some(h) && (WakerAt(s'.harts[h].pc, c, i) || WakerAt(s'.harts[h].pc, c, i + 1))
  {
  }

  /** Another channel's waker is another hart. */
  lemma OtherComing(s: State, s': State, h: nat, c: Chan, k: Chan, p: nat)
    requires Inv(s) && h < |s.harts| && HandlerStep(s, s', h) && HeldChan(s.harts[h].pc) == Some(c)
    requires !s.harts[h].pc.IntrHold?
    requires Coming(s, k, p) && k != c
    ensures Coming(s', k, p)
  {
    var x := Lk(s, k).value;
    assert x != h by { assert Lk(s, k) == Some(x); }
    hide Inv;
    assert Lk(s', k) == Lk(s, k) && s'.harts[x] == s.harts[x];
    var i: nat :| i <= p && WakerAt(s.harts[x].pc, k, i);
    assert WakerAt(s'.harts[Lk(s', k).value].pc, k, i);
  }

  /** There is no process beyond the table. */
  lemma BeyondTable(s: State, s': State, h: nat, c: Chan, p: nat)
    requires Inv(s) && h < |s.harts| && HandlerStep(s, s', h) && !s.harts[h].pc.IntrLock? && !s.harts[h].pc.IntrHold?
    requires |s.procs| <= p
    ensures Unbound(s', c, p)
  {
    assert PointOk(s, s.harts[h]);
    assert |s'.procs| == |s.procs|;
    forall x: nat
      ensures !Dozing(s', x, c, p)
    {
      assert x < |s.harts| ==> PointOk(s, s.harts[x]);
    }
  }

  /** The slot just passed: the hart's own running process, or one woken under its lock. */
  lemma PassedUnbound(s: State, s': State, h: nat, c: Chan, i: nat)
    requires Inv(s) && h < |s.harts| && i < |s.procs| && HandlerStep(s, s', h) && WakerAt(s.harts[h].pc, c, i)
    requires !WakerAt(s'.harts[h].pc, c, i)
    ensures Unbound(s', c, i)
  {
    if s.harts[h].pc.IntrWake? {
      PassedOwn(s, s', h, c, i);
    } else {
      PassedOther(s, s', h, c, i);
    }
  }

  lemma PassedOwn(s: State, s': State, h: nat, c: Chan, i: nat)
    requires Inv(s) && h < |s.harts| && i < |s.procs| && HandlerStep(s, s', h) && WakerAt(s.harts[h].pc, c, i)
    requires !WakerAt(s'.harts[h].pc, c, i) && s.harts[h].pc.IntrWake?
    ensures Unbound(s', c, i)
  {
    assert PointOk(s, s.harts[h]);
    hide Inv;
    assert OnHart(s, h, i);
    NotBound(s, s', h, i);
  }

  lemma PassedOther(s: State, s': State, h: nat, c: Chan, i: nat)
    requires Inv(s) && h < |s.harts| && i < |s.procs| && HandlerStep(s, s', h) && WakerAt(s.harts[h].pc, c, i)
    requires !WakerAt(s'.harts[h].pc, c, i) && !s.harts[h].pc.IntrWake?
    ensures Unbound(s', c, i)
  {
    hide PointsOk;
    hide ProcsOk;
    hide ChansOk;
    assert i in Held(s.harts[h]) && s.procs[i].lock == Some(h);
    forall x: nat
      ensures !Dozing(s', x, c, i)
    {
      assert x < |s.harts| && s.harts[x] == Hart(Some(i), SleepSet(c)) ==> i in Held(s.harts[x]);
    }
  }

  // -------------------------------------------------------------------- theorems

  lemma NextWake(s: State, s': State)
    requires Inv(s) && WakeOk(s) && Next(s, s')
    ensures WakeOk(s')
  {
    hide Inv;
    hide WakeOk;
    hide InterruptStep;
    hide SchedulerStep;
    hide HandlerStep;
    hide ThreadStep;
    hide LifeStep;
    hide KillStep;
    var h: nat :| h < |s.harts| && HartStep(s, s', h);
    if InterruptStep(s, s', h) {
      InterruptWake(s, s', h);
    } else if SchedulerStep(s, s', h) {
      SchedulerWake(s, s', h);
    } else if HandlerStep(s, s', h) {
      HandlerWake(s, s', h);
    } else if ThreadStep(s, s', h, s.harts[h].proc.value) {
      ThreadWake(s, s', h, s.harts[h].proc.value);
    } else if LifeStep(s, s', h, s.harts[h].proc.value) {
      LifeWake(s, s', h, s.harts[h].proc.value);
    } else {
      KillWakes(s, s', h, s.harts[h].proc.value);
    }
  }

  lemma {:induction false} RunWake(r: seq<State>, i: nat)
    requires IsRun(r) && i < |r|
    ensures Inv(r[i]) && WakeOk(r[i])
    decreases i
  {
    hide Inv;
    hide Next;
    RunInv(r, i);
    if i > 0 {
      hide WakeOk;
      RunWake(r, i - 1);
      assert Next(r[i - 1], r[i - 1 + 1]);
      NextWake(r[i - 1], r[i]);
    }
  }

  /** In every state of every run: a process asleep on the tick or console channel
      although its condition holds has a waker on the way, which still holds the
      condition lock.  So once the lock is free no sleeper's condition is true. */
  lemma NoLostWakeup(r: seq<State>, i: nat, c: Chan, p: nat)
    requires IsRun(r) && i < |r| && Asleep(r[i], c, p) && CondTrue(r[i], c, p)
    ensures Lk(r[i], c) != None && Coming(r[i], c, p)
  {
    RunWake(r, i);
    hide Inv;
  }
}
