/**
  The invariant of the process protocol and its consequences for every run: no two
  harts ever run the same process.
 */
module SchedulerInv {
  import opened Wrappers
  import opened Scheduler

  // ------------------------------------------------------------------- invariant

  ghost predicate Running(s: State, x: Hart) {
    x.proc.Some? && x.proc.value < |s.procs| && s.procs[x.proc.value].state == RUNNING
  }

  /** The hart's process has left RUNNING but is still locked by it. */
  ghost predicate Stopped(s: State, x: Hart) {
    x.proc.Some? && x.proc.value < |s.procs| && s.procs[x.proc.value].state != RUNNING
  }

  ghost predicate Candidate(s: State, b: Option<nat>, i: nat) {
    b.Some? ==> b.value < i && b.value < |s.procs| && s.procs[b.value].state == RUNNABLE
  }

  ghost predicate RetOk(s: State, x: Hart, ret: PC) {
    Interruptible(ret) && if ret == Run || ret.KillWake? then Running(s, x) else x.proc == None
  }

  ghost predicate Other(s: State, x: Hart, i: nat) {
    i < |s.procs| && x.proc != Some(i)
  }

  /** What a hart at its control point may rely on. */
  ghost predicate PointOk(s: State, x: Hart) {
    match x.pc
    case Scan(i, best) => x.proc == None && Candidate(s, best, i)
    case ScanLock(i, best) => x.proc == None && Candidate(s, best, i) && i < |s.procs|
    case ScanCheck(i, best) => x.proc == None && Candidate(s, best, i) && i < |s.procs|
    case Dispatch(b) => x.proc == None && b < |s.procs| && s.procs[b].state == RUNNABLE
    case Faulted => x.proc.Some? && x.proc.value < |s.procs|
    case Back(p) => x.proc == Some(p) && Stopped(s, x)
    case Age(_) => x.proc == None
    case AgeLock(i) => x.proc == None && i < |s.procs|
    case AgeHold(i) => x.proc == None && i < |s.procs|
    case ExitWake(_, _) => Stopped(s, x)
    case ExitWakeLock(i, _) => Stopped(s, x) && Other(s, x, i)
    case ExitWakeHold(i, _) => Stopped(s, x) && Other(s, x, i)
    case Sched(_) => Stopped(s, x)
    case Panicked(_) => x.proc.Some? && x.proc.value < |s.procs|
    case AllocLock(i) => Running(s, x) && Other(s, x, i)
    case AllocHold(i) => Running(s, x) && Other(s, x, i)
    case AllocPid(i) => Running(s, x) && Other(s, x, i) && s.procs[i].state == UNUSED
    case AllocPidHold(i) => Running(s, x) && Other(s, x, i) && s.procs[i].state == UNUSED
    case AllocFill(i) => Running(s, x) && Other(s, x, i)
    case ReapLock(i) => Running(s, x) && Other(s, x, i)
    case ReapHold(i) => Running(s, x) && Other(s, x, i)
    case KillLock(i) => Running(s, x) && i < |s.procs|
    case KillHold(i) => Running(s, x) && i < |s.procs|
    case KillWakeLock(i) => Running(s, x) && Other(s, x, i)
    case KillWakeHold(i) => Running(s, x) && Other(s, x, i)
    case IntrLock(c, ret) => c != Pool && RetOk(s, x, ret)
    case IntrHold(c, ret) => c != Pool && RetOk(s, x, ret)
    case IntrWake(c, _, ret) => c != Pool && RetOk(s, x, ret)
    case IntrWakeLock(c, i, ret) => c != Pool && RetOk(s, x, ret) && Other(s, x, i)
    case IntrWakeHold(c, i, ret) => c != Pool && RetOk(s, x, ret) && Other(s, x, i)
    case _ => Running(s, x)
  }

  ghost predicate PointsOk(s: State) {
    forall h :: 0 <= h < |s.harts| ==> PointOk(s, s.harts[h])
  }

  /** The lock words agree with what the harts hold. */
  ghost predicate LocksOk(s: State) {
    && (forall p, h :: 0 <= p < |s.procs| && 0 <= h < |s.harts| ==>
          (s.procs[p].lock == Some(h) <==> p in Held(s.harts[h])))
    && (forall p :: 0 <= p < |s.procs| && s.procs[p].lock.Some? ==> s.procs[p].lock.value < |s.harts|)
  }

  ghost predicate ChansOk(s: State) {
    && (forall c, h :: 0 <= h < |s.harts| ==> (Lk(s, c) == Some(h) <==> HeldChan(s.harts[h].pc) == Some(c)))
    && (forall c :: Lk(s, c).Some? ==> Lk(s, c).value < |s.harts|)
  }

  ghost predicate OnHart(s: State, h: nat, p: nat) {
    h < |s.harts| && s.harts[h].proc == Some(p)
  }

  /** A RUNNING process is on some hart, and no process is on two. */
  ghost predicate ProcsOk(s: State) {
    && (forall p :: 0 <= p < |s.procs| && s.procs[p].state == RUNNING ==> exists h :: OnHart(s, h, p))
    && (forall h, h', p :: OnHart(s, h, p) && OnHart(s, h', p) ==> h == h')
  }

  ghost predicate Inv(s: State) {
    |s.procs| > 0 && PointsOk(s) && LocksOk(s) && ChansOk(s) && ProcsOk(s)
  }

  // --------------------------------------------------------------- local changes

  /** Only hart h and PCB q changed. */
  ghost predicate Local(s: State, s': State, h: nat, q: nat) {
    && h < |s.harts| && q < |s.procs|
    && |s'.harts| == |s.harts| && |s'.procs| == |s.procs|
    && (forall x :: 0 <= x < |s.harts| && x != h ==> s'.harts[x] == s.harts[x])
    && (forall x :: 0 <= x < |s.procs| && x != q ==> s'.procs[x] == s.procs[x])
  }

  /** The lock of q is left alone, taken or given back, and the hart knows it. */
  ghost predicate LockChange(s: State, s': State, h: nat, q: nat)
    requires Local(s, s', h, q)
  {
    var a, b := Held(s.harts[h]), Held(s'.harts[h]);
    var k, k' := s.procs[q].lock, s'.procs[q].lock;
    || (k' == k && b == a)
    || (k == None && k' == Some(h) && b == a + {q})
    || (k == Some(h) && k' == None && b == a - {q})
  }

  /** A PCB's state changes only under its lock, and RUNNING is left only by its hart. */
  ghost predicate StateChange(s: State, s': State, h: nat, q: nat)
    requires Local(s, s', h, q)
  {
    var x, y := s.procs[q].state, s'.procs[q].state;
    x == y || (q in Held(s.harts[h]) && (x == RUNNING ==> s.harts[h].proc == Some(q)))
  }

  /** c->proc changes only at dispatch and after the switch back. */
  ghost predicate ProcChange(s: State, s': State, h: nat, q: nat)
    requires Local(s, s', h, q)
  {
    var a, b := s.harts[h].proc, s'.harts[h].proc;
    var x, y := s.procs[q].state, s'.procs[q].state;
    || (a == b && (y == RUNNING ==> x == RUNNING))
    || (a == None && b == Some(q) && x == RUNNABLE && y == RUNNING && q in Held(s.harts[h]))
    || (a == Some(q) && b == None && y != RUNNING)
  }

  lemma LocksKept(s: State, s': State, h: nat, q: nat)
    requires LocksOk(s) && Local(s, s', h, q) && LockChange(s, s', h, q)
    ensures LocksOk(s')
  {
    hide Held;
  }

  /** Taking a lock disturbs no point. */
  lemma PointLocked(s: State, s': State, x: Hart)
    requires PointOk(s, x) && |s'.procs| == |s.procs|
    requires forall p :: 0 <= p < |s.procs| ==> s'.procs[p].state == s.procs[p].state
    ensures PointOk(s', x)
  {
  }

  /** A change of q's state disturbs no hart that neither locks nor runs q. */
  lemma PointElsewhere(s: State, s': State, x: Hart, q: nat)
    requires PointOk(s, x) && |s'.procs| == |s.procs| && q < |s.procs| && q !in Held(x)
    requires forall p :: 0 <= p < |s.procs| && p != q ==> s'.procs[p].state == s.procs[p].state
    requires x.proc == Some(q) ==> s.procs[q].state != RUNNING
    ensures PointOk(s', x)
  {
  }

  /** The point of another hart is not disturbed. */
  lemma PointStable(s: State, s': State, h: nat, q: nat, x: nat)
    requires Inv(s) && Local(s, s', h, q) && StateChange(s, s', h, q) && x < |s.harts| && x != h
    ensures PointOk(s', s'.harts[x])
  {
    assert PointOk(s, s.harts[x]);
    assert q in Held(s.harts[h]) ==> q !in Held(s.harts[x]);
    assert s.harts[h].proc == Some(q) ==> OnHart(s, h, q);
    assert s.harts[x].proc == Some(q) ==> OnHart(s, x, q);
    hide Held;
    hide PointOk;
    if s'.procs[q].state == s.procs[q].state {
      PointLocked(s, s', s.harts[x]);
    } else {
      PointElsewhere(s, s', s.harts[x], q);
    }
  }

  lemma PointsKept(s: State, s': State, h: nat, q: nat)
    requires Inv(s) && Local(s, s', h, q) && StateChange(s, s', h, q) && PointOk(s', s'.harts[h])
    ensures PointsOk(s')
  {
    hide Inv;
    hide StateChange;
    hide PointOk;
    forall x | 0 <= x < |s'.harts|
      ensures PointOk(s', s'.harts[x])
    {
      if x != h {
        PointStable(s, s', h, q, x);
      }
    }
  }

  /** A process on a hart is RUNNING or locked by that hart. */
  lemma OnHartHolds(s: State, h: nat, p: nat)
    requires PointsOk(s) && OnHart(s, h, p)
    ensures p < |s.procs| && (s.procs[p].state == RUNNING || p in Held(s.harts[h]))
  {
    assert PointOk(s, s.harts[h]);
  }

  lemma ProcsKept(s: State, s': State, h: nat, q: nat)
    requires Inv(s) && Local(s, s', h, q) && StateChange(s, s', h, q) && ProcChange(s, s', h, q)
    ensures ProcsOk(s')
  {
    hide PointOk;
    hide Held;
    hide ChansOk;
    forall p | 0 <= p < |s'.procs| && s'.procs[p].state == RUNNING
      ensures exists x :: OnHart(s', x, p)
    {
      if s.procs[p].state == RUNNING {
        var x :| OnHart(s, x, p);
        assert OnHart(s', if x == h then h else x, p);
      } else {
        assert OnHart(s', h, p);
      }
    }
    forall x, x', p | OnHart(s', x, p) && OnHart(s', x', p)
      ensures x == x'
    {
      UniqueAfter(s, s', h, q, x, x', p);
    }
  }

  lemma UniqueAfter(s: State, s': State, h: nat, q: nat, x: nat, x': nat, p: nat)
    requires Inv(s) && Local(s, s', h, q) && StateChange(s, s', h, q) && ProcChange(s, s', h, q)
    requires OnHart(s', x, p) && OnHart(s', x', p)
    ensures x == x'
  {
    hide PointOk;
    hide Held;
    hide ChansOk;
    if x != h && x' != h {
      assert OnHart(s, x, p) && OnHart(s, x', p);
    } else if x != x' {
      assert s.harts[h].proc == s'.harts[h].proc ==> OnHart(s, h, p);
      var o := if x == h then x' else x;
      assert OnHart(s, o, p);
      OnHartHolds(s, o, p);
    }
  }

  /** Everything about process locks at once. */
  lemma LocalKeeps(s: State, s': State, h: nat, q: nat)
    requires Inv(s) && Local(s, s', h, q)
    requires LockChange(s, s', h, q) && StateChange(s, s', h, q) && ProcChange(s, s', h, q)
    requires PointOk(s', s'.harts[h]) && ChansOk(s')
    ensures Inv(s')
  {
    hide PointOk;
    hide Held;
    hide ChansOk;
    LocksKept(s, s', h, q);
    PointsKept(s, s', h, q);
    ProcsKept(s, s', h, q);
  }

  // ------------------------------------------------------------- condition locks

  /** No condition lock changes hands. */
  lemma ChansSame(s: State, s': State, h: nat)
    requires ChansOk(s) && h < |s.harts| && |s'.harts| == |s.harts|
    requires forall x :: 0 <= x < |s.harts| && x != h ==> s'.harts[x] == s.harts[x]
    requires forall c :: Lk(s', c) == Lk(s, c)
    requires HeldChan(s'.harts[h].pc) == HeldChan(s.harts[h].pc)
    ensures ChansOk(s')
  {
    hide HeldChan;
    hide Lk;
  }

  lemma ChansTake(s: State, s': State, h: nat, c: Chan)
    requires ChansOk(s) && h < |s.harts| && |s'.harts| == |s.harts|
    requires forall x :: 0 <= x < |s.harts| && x != h ==> s'.harts[x] == s.harts[x]
    requires Lk(s, c) == None && Lk(s', c) == Some(h) && forall c' :: c' != c ==> Lk(s', c') == Lk(s, c')
    requires HeldChan(s.harts[h].pc) == None && HeldChan(s'.harts[h].pc) == Some(c)
    ensures ChansOk(s')
  {
    hide HeldChan;
    hide Lk;
  }

  lemma ChansGive(s: State, s': State, h: nat, c: Chan)
    requires ChansOk(s) && h < |s.harts| && |s'.harts| == |s.harts|
    requires forall x :: 0 <= x < |s.harts| && x != h ==> s'.harts[x] == s.harts[x]
    requires Lk(s', c) == None && forall c' :: c' != c ==> Lk(s', c') == Lk(s, c')
    requires HeldChan(s.harts[h].pc) == Some(c) && HeldChan(s'.harts[h].pc) == None
    ensures ChansOk(s')
  {
    hide HeldChan;
    hide Lk;
  }

  // ------------------------------------------------------------- every step keeps it

  /** A step that moves only the control point, to one that holds the same locks. */
  lemma MoveKeeps(s: State, s': State, h: nat, pc: PC)
    requires Inv(s) && h < |s.harts| && Moves(s, s', h, pc)
    requires Held(s.harts[h].(pc := pc)) == Held(s.harts[h]) && HeldChan(pc) == HeldChan(s.harts[h].pc)
    requires PointOk(s, s.harts[h].(pc := pc))
    ensures Inv(s')
  {
    hide PointOk;
    hide Held;
    hide HeldChan;
    hide PointsOk;
    hide LocksOk;
    hide ProcsOk;
    hide ChansOk;
    PointSame(s, s', s.harts[h].(pc := pc));
    ChansSame(s, s', h);
    LocalKeeps(s, s', h, 0);
  }

  /** A point depends only on the PCBs. */
  lemma PointSame(s: State, s': State, x: Hart)
    requires PointOk(s, x) && s'.procs == s.procs
    ensures PointOk(s', x)
  {
  }

  lemma AcquireKeeps(s: State, s': State, h: nat, q: nat, pc: PC)
    requires Inv(s) && h < |s.harts| && Acquires(s, s', h, q, pc)
    requires Held(s.harts[h].(pc := pc)) == Held(s.harts[h]) + {q} && HeldChan(pc) == HeldChan(s.harts[h].pc)
    requires PointOk(s, s.harts[h].(pc := pc))
    ensures Inv(s')
  {
    hide PointOk;
    hide Held;
    hide HeldChan;
    hide PointsOk;
    hide LocksOk;
    hide ProcsOk;
    hide ChansOk;
    PointLocked(s, s', s.harts[h].(pc := pc));
    ChansSame(s, s', h);
    LocalKeeps(s, s', h, q);
  }

  lemma ReleaseKeeps(s: State, s': State, h: nat, q: nat, x: Proc, pc: PC)
    requires Inv(s) && h < |s.harts| && Releases(s, s', h, q, x, pc) && q in Held(s.harts[h])
    requires Held(s.harts[h].(pc := pc)) == Held(s.harts[h]) - {q} && HeldChan(pc) == HeldChan(s.harts[h].pc)
    requires x.state != s.procs[q].state ==> x.state != RUNNING && s.procs[q].state != RUNNING
    requires PointOk(s', s.harts[h].(pc := pc))
    ensures Inv(s')
  {
    hide PointOk;
    hide Held;
    hide HeldChan;
    hide PointsOk;
    hide ProcsOk;
    hide ChansOk;
    assert s.procs[q].lock == Some(h);
    hide LocksOk;
    ChansSame(s, s', h);
    LocalKeeps(s, s', h, q);
  }

  lemma InterruptKeeps(s: State, s': State, h: nat)
    requires Inv(s) && h < |s.harts| && InterruptStep(s, s', h)
    ensures Inv(s')
  {
    hide LocksOk;
    hide ProcsOk;
    hide ChansOk;
    assert PointOk(s, s.harts[h]);
    hide PointsOk;
    var c :| c != Pool && Moves(s, s', h, IntrLock(c, s.harts[h].pc));
    MoveKeeps(s, s', h, IntrLock(c, s.harts[h].pc));
  }

  lemma SchedulerKeeps(s: State, s': State, h: nat)
    requires Inv(s) && h < |s.harts| && SchedulerStep(s, s', h)
    ensures Inv(s')
  {
    hide LocksOk;
    hide ProcsOk;
    hide ChansOk;
    assert PointOk(s, s.harts[h]);
    hide PointsOk;
    match s.harts[h].pc
    case Scan(i, best) =>
      MoveKeeps(s, s', h, s'.harts[h].pc);
    case ScanLock(i, best) =>
      AcquireKeeps(s, s', h, i, ScanCheck(i, best));
    case ScanCheck(i, best) =>
      CheckKeeps(s, s', h, i, best);
    case Dispatch(b) =>
      DispatchKeeps(s, s', h, b);
    case Back(p) =>
      BackKeeps(s, s', h, p);
    case Age(i) =>
      MoveKeeps(s, s', h, s'.harts[h].pc);
    case AgeLock(i) =>
      AcquireKeeps(s, s', h, i, AgeHold(i));
    case AgeHold(i) =>
      ReleaseKeeps(s, s', h, i, s.procs[i], Age(i + 1));
  }

  lemma CheckKeeps(s: State, s': State, h: nat, i: nat, best: Option<nat>)
    requires Inv(s) && h < |s.harts| && s.harts[h].pc == ScanCheck(i, best) && SchedulerStep(s, s', h)
    ensures Inv(s')
  {
    hide LocksOk;
    hide ProcsOk;
    hide ChansOk;
    assert PointOk(s, s.harts[h]);
    hide PointsOk;
    if best == None && s'.harts[h].pc == Scan(i + 1, Some(i)) {
      MoveKeeps(s, s', h, Scan(i + 1, Some(i)));
    } else if s'.harts[h].pc == Scan(i + 1, Some(i)) {
      ReleaseKeeps(s, s', h, best.value, s.procs[best.value], Scan(i + 1, Some(i)));
    } else {
      ReleaseKeeps(s, s', h, i, s.procs[i], Scan(i + 1, best));
    }
  }

  lemma DispatchKeeps(s: State, s': State, h: nat, b: nat)
    requires Inv(s) && h < |s.harts| && s.harts[h].pc == Dispatch(b) && SchedulerStep(s, s', h)
    ensures Inv(s')
  {
    hide LocksOk;
    hide ProcsOk;
    hide ChansOk;
    assert PointOk(s, s.harts[h]);
    hide PointsOk;
    ChansSame(s, s', h);
    LocalKeeps(s, s', h, b);
  }

  lemma BackKeeps(s: State, s': State, h: nat, p: nat)
    requires Inv(s) && h < |s.harts| && s.harts[h].pc == Back(p) && SchedulerStep(s, s', h)
    ensures Inv(s')
  {
    assert PointOk(s, s.harts[h]);
    assert p in Held(s.harts[h]) && s.procs[p].lock == Some(h);
    hide LocksOk;
    hide ProcsOk;
    hide ChansOk;
    hide PointsOk;
    ChansSame(s, s', h);
    LocalKeeps(s, s', h, p);
  }

  /** A step of the thread on its own locked PCB. */
  lemma OwnKeeps(s: State, s': State, h: nat, p: nat, x: Proc, pc: PC)
    requires Inv(s) && h < |s.harts| && p < |s.procs| && s.harts[h].proc == Some(p) && p in Held(s.harts[h])
    requires s' == SetPC(SetP(s, p, x), h, pc) && x.lock == s.procs[p].lock
    requires x.state == RUNNING ==> s.procs[p].state == RUNNING
    requires Held(s.harts[h].(pc := pc)) == Held(s.harts[h]) && HeldChan(pc) == HeldChan(s.harts[h].pc)
    requires PointOk(s', s.harts[h].(pc := pc))
    ensures Inv(s')
  {
    hide PointOk;
    hide Held;
    hide HeldChan;
    hide PointsOk;
    hide LocksOk;
    hide ProcsOk;
    hide ChansOk;
    ChansSame(s, s', h);
    LocalKeeps(s, s', h, p);
  }

  /** A step that takes or gives back a condition lock. */
  lemma ChanStepKeeps(s: State, s': State, h: nat, p: nat)
    requires Inv(s) && h < |s.harts| && p < |s.procs| && Local(s, s', h, p) && ChansOk(s')
    requires s'.harts[h].proc == s.harts[h].proc && Held(s'.harts[h]) == Held(s.harts[h])
    requires s'.procs[p].state == s.procs[p].state && s'.procs[p].lock == s.procs[p].lock
    requires PointOk(s', s'.harts[h])
    ensures Inv(s')
  {
    hide PointOk;
    hide Held;
    hide PointsOk;
    hide LocksOk;
    hide ProcsOk;
    hide ChansOk;
    LocalKeeps(s, s', h, p);
  }

  lemma ThreadKeeps(s: State, s': State, h: nat, p: nat)
    requires Inv(s) && h < |s.harts| && p < |s.procs| && s.harts[h].proc == Some(p) && ThreadStep(s, s', h, p)
    ensures Inv(s')
  {
    var pc := s.harts[h].pc;
    if pc.Resumed? {
      hide *;
      ResumedKeeps(s, s', h, p);
    } else if pc.Run? || pc.YieldLock? || pc.YieldHold? {
      hide *;
      YieldKeeps(s, s', h, p);
    } else if pc.Relock? || pc.Woke? || pc.Sched? {
      hide *;
      WokenKeeps(s, s', h, p);
    } else if pc.SleepLock? || pc.SleepHold? || pc.SleepSet? {
      hide *;
      SleepKeeps(s, s', h, p);
    } else {
      assert pc.CondLock? || pc.Cond? || pc.CondDone?;
      hide *;
      CondKeeps(s, s', h, p);
    }
  }

  lemma ResumedKeeps(s: State, s': State, h: nat, p: nat)
    requires Inv(s) && h < |s.harts| && p < |s.procs| && s.harts[h].proc == Some(p) && ThreadStep(s, s', h, p)
    requires s.harts[h].pc.Resumed?
    ensures Inv(s')
  {
    hide LocksOk;
    hide ProcsOk;
    hide ChansOk;
    assert PointOk(s, s.harts[h]);
    hide PointsOk;
    if s.harts[h].pc.r == Dead {
      MoveKeeps(s, s', h, Panicked(None));
    } else {
      ReleaseKeeps(s, s', h, p, s'.procs[p], s'.harts[h].pc);
    }
  }

  lemma YieldKeeps(s: State, s': State, h: nat, p: nat)
    requires Inv(s) && h < |s.harts| && p < |s.procs| && s.harts[h].proc == Some(p) && ThreadStep(s, s', h, p)
    requires s.harts[h].pc.Run? || s.harts[h].pc.YieldLock? || s.harts[h].pc.YieldHold?
    ensures Inv(s')
  {
    hide LocksOk;
    hide ProcsOk;
    hide ChansOk;
    assert PointOk(s, s.harts[h]);
    hide PointsOk;
    match s.harts[h].pc
    case Run =>
      MoveKeeps(s, s', h, s'.harts[h].pc);
    case YieldLock =>
      AcquireKeeps(s, s', h, p, YieldHold);
    case YieldHold =>
      OwnKeeps(s, s', h, p, s.procs[p].(state := RUNNABLE), Sched(Yielded));
  }

  lemma SleepKeeps(s: State, s': State, h: nat, p: nat)
    requires Inv(s) && h < |s.harts| && p < |s.procs| && s.harts[h].proc == Some(p) && ThreadStep(s, s', h, p)
    requires var pc := s.harts[h].pc; pc.SleepLock? || pc.SleepHold? || pc.SleepSet?
    ensures Inv(s')
  {
    hide LocksOk;
    hide ProcsOk;
    hide ChansOk;
    assert PointOk(s, s.harts[h]);
    hide PointsOk;
    match s.harts[h].pc
    case SleepLock(c) =>
      AcquireKeeps(s, s', h, p, SleepHold(c));
    case SleepHold(c) =>
      ChansGive(s, s', h, c);
      ChanStepKeeps(s, s', h, p);
    case SleepSet(c) =>
      OwnKeeps(s, s', h, p, s.procs[p].(state := SLEEPING, chan := Some(c)), Sched(Slept(c)));
  }

  lemma WokenKeeps(s: State, s': State, h: nat, p: nat)
    requires Inv(s) && h < |s.harts| && p < |s.procs| && s.harts[h].proc == Some(p) && ThreadStep(s, s', h, p)
    requires var pc := s.harts[h].pc; pc.Relock? || pc.Woke? || pc.Sched?
    ensures Inv(s')
  {
    hide LocksOk;
    hide ProcsOk;
    hide ChansOk;
    assert PointOk(s, s.harts[h]);
    hide PointsOk;
    match s.harts[h].pc
    case Relock(c) =>
      ChansTake(s, s', h, c);
      ChanStepKeeps(s, s', h, p);
    case Woke(c) =>
      MoveKeeps(s, s', h, s'.harts[h].pc);
    case Sched(r) =>
      OwnKeeps(s, s', h, p, s.procs[p].(ctx := r), Back(p));
  }

  lemma CondKeeps(s: State, s': State, h: nat, p: nat)
    requires Inv(s) && h < |s.harts| && p < |s.procs| && s.harts[h].proc == Some(p) && ThreadStep(s, s', h, p)
    requires var pc := s.harts[h].pc; pc.CondLock? || pc.Cond? || pc.CondDone?
    ensures Inv(s')
  {
    hide LocksOk;
    hide ProcsOk;
    hide ChansOk;
    assert PointOk(s, s.harts[h]);
    hide PointsOk;
    match s.harts[h].pc
    case CondLock(c) =>
      ChansTake(s, s', h, c);
      ChanStepKeeps(s, s', h, p);
    case Cond(c) =>
      if c == Pool {
        hide ThreadStep;
        PoolKeeps(s, s', h, p);
      } else {
        ChansSame(s, s', h);
        ChanStepKeeps(s, s', h, p);
      }
    case CondDone(c) =>
      ChansGive(s, s', h, c);
      ChanStepKeeps(s, s', h, p);
  }

  lemma PoolKeeps(s: State, s': State, h: nat, p: nat)
    requires Inv(s) && h < |s.harts| && p < |s.procs| && s.harts[h].proc == Some(p) && PoolStep(s, s', h, p)
    requires s.harts[h].pc == Cond(Pool)
    ensures Inv(s')
  {
    hide LocksOk;
    hide ProcsOk;
    hide ChansOk;
    assert PointOk(s, s.harts[h]);
    hide PointsOk;
    MoveKeeps(s, s', h, s'.harts[h].pc);
  }

  lemma LifeKeeps(s: State, s': State, h: nat, p: nat)
    requires Inv(s) && h < |s.harts| && p < |s.procs| && s.harts[h].proc == Some(p) && LifeStep(s, s', h, p)
    ensures Inv(s')
  {
    var pc := s.harts[h].pc;
    if pc.AllocPid? || pc.AllocPidHold? {
      hide *;
      PidKeeps(s, s', h, p);
    } else if pc.ReapLock? || pc.ReapHold? {
      hide *;
      ReapKeeps(s, s', h, p);
    } else if pc.AllocLock? || pc.AllocHold? || pc.AllocFill? {
      hide *;
      AllocKeeps(s, s', h, p);
    } else {
      assert pc.ExitLock? || pc.ExitHold? || pc.ExitWake? || pc.ExitWakeLock? || pc.ExitWakeHold?;
      hide *;
      ExitKeeps(s, s', h, p);
    }
  }

  lemma ExitKeeps(s: State, s': State, h: nat, p: nat)
    requires Inv(s) && h < |s.harts| && p < |s.procs| && s.harts[h].proc == Some(p) && LifeStep(s, s', h, p)
    requires var pc := s.harts[h].pc;
             pc.ExitLock? || pc.ExitHold? || pc.ExitWake? || pc.ExitWakeLock? || pc.ExitWakeHold?
    ensures Inv(s')
  {
    hide LocksOk;
    hide ProcsOk;
    hide ChansOk;
    assert PointOk(s, s.harts[h]);
    hide PointsOk;
    match s.harts[h].pc
    case ExitLock(lk) =>
      AcquireKeeps(s, s', h, p, ExitHold(lk));
    case ExitHold(lk) =>
      OwnKeeps(s, s', h, p, s.procs[p].(state := ZOMBIE), ExitWake(0, lk));
    case ExitWake(i, lk) =>
      MoveKeeps(s, s', h, s'.harts[h].pc);
    case ExitWakeLock(i, lk) =>
      AcquireKeeps(s, s', h, i, ExitWakeHold(i, lk));
    case ExitWakeHold(i, lk) =>
      ReleaseKeeps(s, s', h, i, Woken(s.procs[i], Pool), ExitWake(i + 1, lk));
  }

  lemma AllocKeeps(s: State, s': State, h: nat, p: nat)
    requires Inv(s) && h < |s.harts| && p < |s.procs| && s.harts[h].proc == Some(p) && LifeStep(s, s', h, p)
    requires var pc := s.harts[h].pc; pc.AllocLock? || pc.AllocHold? || pc.AllocFill?
    ensures Inv(s')
  {
    hide LocksOk;
    hide ProcsOk;
    hide ChansOk;
    assert PointOk(s, s.harts[h]);
    hide PointsOk;
    match s.harts[h].pc
    case AllocLock(i) =>
      AcquireKeeps(s, s', h, i, AllocHold(i));
    case AllocHold(i) =>
      if s.procs[i].state == UNUSED {
        MoveKeeps(s, s', h, AllocPid(i));
      } else {
        ReleaseKeeps(s, s', h, i, s.procs[i], Run);
      }
    case AllocFill(i) =>
      var x :| Filled(s.procs[i], x) && Releases(s, s', h, i, x, Run);
      ReleaseKeeps(s, s', h, i, x, Run);
  }

  lemma PidKeeps(s: State, s': State, h: nat, p: nat)
    requires Inv(s) && h < |s.harts| && p < |s.procs| && s.harts[h].proc == Some(p) && LifeStep(s, s', h, p)
    requires s.harts[h].pc.AllocPid? || s.harts[h].pc.AllocPidHold?
    ensures Inv(s')
  {
    hide LocksOk;
    hide ProcsOk;
    hide ChansOk;
    assert PointOk(s, s.harts[h]);
    hide PointsOk;
    match s.harts[h].pc
    case AllocPid(i) =>
      ChansTake(s, s', h, Pool);
      ChanStepKeeps(s, s', h, i);
    case AllocPidHold(i) =>
      ChansGive(s, s', h, Pool);
      LocalKeeps(s, s', h, i);
  }

  lemma ReapKeeps(s: State, s': State, h: nat, p: nat)
    requires Inv(s) && h < |s.harts| && p < |s.procs| && s.harts[h].proc == Some(p) && LifeStep(s, s', h, p)
    requires s.harts[h].pc.ReapLock? || s.harts[h].pc.ReapHold?
    ensures Inv(s')
  {
    hide LocksOk;
    hide ProcsOk;
    hide ChansOk;
    assert PointOk(s, s.harts[h]);
    hide PointsOk;
    match s.harts[h].pc
    case ReapLock(i) =>
      AcquireKeeps(s, s', h, i, ReapHold(i));
    case ReapHold(i) =>
      ReleaseKeeps(s, s', h, i, s'.procs[i], s'.harts[h].pc);
  }

  lemma KillKeeps(s: State, s': State, h: nat, p: nat)
    requires Inv(s) && h < |s.harts| && p < |s.procs| && s.harts[h].proc == Some(p) && KillStep(s, s', h, p)
    ensures Inv(s')
  {
    var pc := s.harts[h].pc;
    if pc.KillHold? {
      hide *;
      MarkKeeps(s, s', h, p);
    } else if pc.KillLock? || pc.KillDone? {
      hide *;
      VictimKeeps(s, s', h, p);
    } else {
      assert pc.KillWake? || pc.KillWakeLock? || pc.KillWakeHold?;
      hide *;
      KillWakeKeeps(s, s', h, p);
    }
  }

  lemma VictimKeeps(s: State, s': State, h: nat, p: nat)
    requires Inv(s) && h < |s.harts| && p < |s.procs| && s.harts[h].proc == Some(p) && KillStep(s, s', h, p)
    requires s.harts[h].pc.KillLock? || s.harts[h].pc.KillDone?
    ensures Inv(s')
  {
    hide LocksOk;
    hide ProcsOk;
    hide ChansOk;
    assert PointOk(s, s.harts[h]);
    hide PointsOk;
    match s.harts[h].pc
    case KillLock(i) =>
      AcquireKeeps(s, s', h, i, KillHold(i));
    case KillDone =>
      ChansGive(s, s', h, Pool);
      ChanStepKeeps(s, s', h, p);
  }

  lemma MarkKeeps(s: State, s': State, h: nat, p: nat)
    requires Inv(s) && h < |s.harts| && p < |s.procs| && s.harts[h].proc == Some(p) && KillStep(s, s', h, p)
    requires s.harts[h].pc.KillHold?
    ensures Inv(s')
  {
    hide LocksOk;
    hide ProcsOk;
    hide ChansOk;
    assert PointOk(s, s.harts[h]);
    hide PointsOk;
    var i := s.harts[h].pc.i;
    if s.procs[i].state == ZOMBIE || s.procs[i].state == UNUSED {
      ReleaseKeeps(s, s', h, i, s.procs[i], CondDone(Pool));
    } else {
      ReleaseKeeps(s, s', h, i, Killed(s.procs[i]), KillDone);
    }
  }

  lemma KillWakeKeeps(s: State, s': State, h: nat, p: nat)
    requires Inv(s) && h < |s.harts| && p < |s.procs| && s.harts[h].proc == Some(p) && KillStep(s, s', h, p)
    requires var pc := s.harts[h].pc; pc.KillWake? || pc.KillWakeLock? || pc.KillWakeHold?
    ensures Inv(s')
  {
    hide LocksOk;
    hide ProcsOk;
    hide ChansOk;
    assert PointOk(s, s.harts[h]);
    hide PointsOk;
    match s.harts[h].pc
    case KillWake(i) =>
      MoveKeeps(s, s', h, s'.harts[h].pc);
    case KillWakeLock(i) =>
      AcquireKeeps(s, s', h, i, KillWakeHold(i));
    case KillWakeHold(i) =>
      ReleaseKeeps(s, s', h, i, Woken(s.procs[i], Pool), KillWake(i + 1));
  }

  lemma HandlerKeeps(s: State, s': State, h: nat)
    requires Inv(s) && h < |s.harts| && HandlerStep(s, s', h)
    ensures Inv(s')
  {
    hide LocksOk;
    hide ProcsOk;
    hide ChansOk;
    assert PointOk(s, s.harts[h]);
    hide PointsOk;
    match s.harts[h].pc
    case IntrLock(c, ret) =>
      ChansTake(s, s', h, c);
      ChanStepKeeps(s, s', h, 0);
    case IntrHold(c, ret) =>
      if HeldChan(s'.harts[h].pc) == None {
        ChansGive(s, s', h, c);
      } else {
        ChansSame(s, s', h);
      }
      ChanStepKeeps(s, s', h, 0);
    case _ =>
      WakeupKeeps(s, s', h);
  }

  lemma WakeupKeeps(s: State, s': State, h: nat)
    requires Inv(s) && h < |s.harts| && HandlerStep(s, s', h)
    requires s.harts[h].pc.IntrWake? || s.harts[h].pc.IntrWakeLock? || s.harts[h].pc.IntrWakeHold?
    ensures Inv(s')
  {
    hide LocksOk;
    hide ProcsOk;
    hide ChansOk;
    assert PointOk(s, s.harts[h]);
    hide PointsOk;
    match s.harts[h].pc
    case IntrWake(c, i, ret) =>
      if i >= |s.procs| {
        ChansGive(s, s', h, c);
        ChanStepKeeps(s, s', h, 0);
      } else {
        MoveKeeps(s, s', h, s'.harts[h].pc);
      }
    case IntrWakeLock(c, i, ret) =>
      AcquireKeeps(s, s', h, i, IntrWakeHold(c, i, ret));
    case IntrWakeHold(c, i, ret) =>
      ReleaseKeeps(s, s', h, i, Woken(s.procs[i], c), IntrWake(c, i + 1, ret));
  }

  /** Every step of every hart keeps the invariant. */
  lemma NextKeeps(s: State, s': State)
    requires Inv(s) && Next(s, s')
    ensures Inv(s')
  {
    hide Inv;
    hide InterruptStep;
    hide SchedulerStep;
    hide HandlerStep;
    hide ThreadStep;
    hide LifeStep;
    hide KillStep;
    var h :| 0 <= h < |s.harts| && HartStep(s, s', h);
    if InterruptStep(s, s', h) {
      InterruptKeeps(s, s', h);
    } else if SchedulerStep(s, s', h) {
      SchedulerKeeps(s, s', h);
    } else if HandlerStep(s, s', h) {
      HandlerKeeps(s, s', h);
    } else if ThreadStep(s, s', h, s.harts[h].proc.value) {
      ThreadKeeps(s, s', h, s.harts[h].proc.value);
    } else if LifeStep(s, s', h, s.harts[h].proc.value) {
      LifeKeeps(s, s', h, s.harts[h].proc.value);
    } else {
      KillKeeps(s, s', h, s.harts[h].proc.value);
    }
  }

  lemma InitInv(s: State)
    requires Init(s)
    ensures Inv(s)
  {
  }

  lemma {:induction false} RunInv(r: seq<State>, i: nat)
    requires IsRun(r) && i < |r|
    ensures Inv(r[i])
    decreases i
  {
    hide Inv;
    hide Next;
    if i == 0 {
      InitInv(r[0]);
    } else {
      RunInv(r, i - 1);
      assert Next(r[i - 1], r[i - 1 + 1]);
      NextKeeps(r[i - 1], r[i]);
    }
  }

  // ---------------------------------------------------------------------- theorems

  /** In every state of every run no two harts have the same process, and whenever the
      lock of a process is free the process is RUNNING exactly when some hart has it. */
  lemma OneHartPerProcess(r: seq<State>, i: nat, p: nat)
    requires IsRun(r) && i < |r| && p < |r[i].procs|
    ensures forall h, h' :: OnHart(r[i], h, p) && OnHart(r[i], h', p) ==> h == h'
    ensures r[i].procs[p].lock == None ==> (r[i].procs[p].state == RUNNING <==> exists h :: OnHart(r[i], h, p))
  {
    var s := r[i];
    RunInv(r, i);
    if s.procs[p].lock == None && exists h :: OnHart(s, h, p) {
      var h :| OnHart(s, h, p);
      OnHartHolds(s, h, p);
    }
  }

  /** Releasing is always done by the holder, on whichever side of swtch it happens. */
  lemma ResumedHoldsOwnLock(r: seq<State>, i: nat, h: nat)
    requires IsRun(r) && i < |r| && h < |r[i].harts|
    requires r[i].harts[h].pc.Resumed? || r[i].harts[h].pc.Back?
    ensures r[i].harts[h].proc.Some? && r[i].harts[h].proc.value < |r[i].procs|
    ensures r[i].procs[r[i].harts[h].proc.value].lock == Some(h)
  {
    RunInv(r, i);
    assert PointOk(r[i], r[i].harts[h]);
  }
}
