/**
  Who waits for whom: a hart that spins on a lock waits for the hart that holds it.  Every
  such wait goes to a later lock, with two exceptions: exit() also wakes the slots below its
  own, and allocproc() takes the pool's lock with a slot locked.
 */
module SchedulerWait {
  import opened Wrappers
  import opened Scheduler
  import opened SchedulerInv

  datatype Res = ProcLock(i: nat) | CondLockOf(c: Chan)

  function OwnLock(x: Hart): Option<Res> {
    match x.proc
    case None => None
    case Some(p) => Some(ProcLock(p))
  }

  /** The lock a hart spins on. */
  function Want(x: Hart): Option<Res> {
    match x.pc
    case ScanLock(i, _) => Some(ProcLock(i))
    case AgeLock(i) => Some(ProcLock(i))
    case YieldLock => OwnLock(x)
    case SleepLock(_) => OwnLock(x)
    case ExitLock(_) => OwnLock(x)
    case ExitWakeLock(i, _) => Some(ProcLock(i))
    case AllocLock(i) => Some(ProcLock(i))
    case AllocPid(_) => Some(CondLockOf(Pool))
    case ReapLock(i) => Some(ProcLock(i))
    case KillLock(i) => Some(ProcLock(i))
    case KillWakeLock(i) => Some(ProcLock(i))
    case IntrWakeLock(_, i, _) => Some(ProcLock(i))
    case CondLock(c) => Some(CondLockOf(c))
    case Relock(c) => Some(CondLockOf(c))
    case IntrLock(c, _) => Some(CondLockOf(c))
    case _ => None
  }

  ghost predicate Has(x: Hart, r: Res) {
    match r
    case ProcLock(i) => i in Held(x)
    case CondLockOf(c) => HeldChan(x.pc) == Some(c)
  }

  ghost predicate Exists(s: State, r: Res) {
    r.ProcLock? ==> r.i < |s.procs|
  }

  ghost function Holder(s: State, r: Res): Option<nat>
    requires Exists(s, r)
  {
    match r
    case ProcLock(i) => s.procs[i].lock
    case CondLockOf(c) => Lk(s, c)
  }

  /** Hart h spins on a lock that hart k holds. */
  ghost predicate Waits(s: State, h: nat, k: nat) {
    && h < |s.harts| && k < |s.harts| && Want(s.harts[h]).Some?
    && Exists(s, Want(s.harts[h]).value) && Holder(s, Want(s.harts[h]).value) == Some(k)
  }

  /** A condition lock is taken before any process lock, and those in slot order. */
  function Rank(r: Res): nat {
    match r
    case ProcLock(i) => i + 1
    case CondLockOf(_) => 0
  }

  /** exit() of a process waits for a slot below its own, or allocproc() waits for the pool. */
  predicate Backward(x: Hart) {
    || (x.pc.ExitWakeLock? && x.proc.Some? && x.pc.i < x.proc.value)
    || x.pc.AllocPid?
  }

  lemma HolderIff(s: State, k: nat, r: Res)
    requires Inv(s) && k < |s.harts| && Exists(s, r)
    ensures Holder(s, r) == Some(k) <==> Has(s.harts[k], r)
  {
    hide Held;
    hide HeldChan;
  }

  /** What a hart waits for comes after what it holds, unless it waits backward. */
  lemma WaitsUpward(s: State, k: nat, r: Res)
    requires Inv(s) && k < |s.harts| && Has(s.harts[k], r) && Want(s.harts[k]).Some? && !Backward(s.harts[k])
    ensures Rank(r) < Rank(Want(s.harts[k]).value)
  {
    assert PointOk(s, s.harts[k]);
    hide Inv;
  }

  // ----------------------------------------------------------------------- cycles

  function After(hs: seq<nat>, t: nat): nat
    requires t < |hs|
  {
    if t + 1 < |hs| then hs[t + 1] else hs[0]
  }

  /** Each hart of hs waits for the next one, and the last for the first. */
  ghost predicate Cycle(s: State, hs: seq<nat>) {
    |hs| > 0 && forall t: nat {:trigger After(hs, t)} :: t < |hs| ==> Waits(s, hs[t], After(hs, t))
  }

  ghost predicate AnyBackward(s: State, hs: seq<nat>) {
    exists t: nat :: t < |hs| && hs[t] < |s.harts| && Backward(s.harts[hs[t]])
  }

  lemma CycleAt(s: State, hs: seq<nat>, t: nat)
    requires Cycle(s, hs) && t < |hs|
    ensures Waits(s, hs[t], After(hs, t))
  {
    var a := After(hs, t);
  }

  lemma OneUp(s: State, h: nat, k: nat)
    requires Inv(s) && Waits(s, h, k) && Want(s.harts[k]).Some? && !Backward(s.harts[k])
    ensures Rank(Want(s.harts[h]).value) < Rank(Want(s.harts[k]).value)
  {
    hide Inv;
    hide Want;
    hide Backward;
    hide Has;
    var r := Want(s.harts[h]).value;
    HolderIff(s, k, r);
    WaitsUpward(s, k, r);
  }

  lemma {:induction false} Climbs(s: State, hs: seq<nat>, t: nat)
    requires Inv(s) && Cycle(s, hs) && !AnyBackward(s, hs) && t < |hs|
    ensures hs[t] < |s.harts| && hs[0] < |s.harts| && Want(s.harts[hs[t]]).Some? && Want(s.harts[hs[0]]).Some?
    ensures Rank(Want(s.harts[hs[t]]).value) >= Rank(Want(s.harts[hs[0]]).value) + t
    decreases t
  {
    hide Inv;
    hide Want;
    hide Backward;
    hide Rank;
    CycleAt(s, hs, t);
    if t > 0 {
      Climbs(s, hs, t - 1);
      CycleAt(s, hs, t - 1);
      assert After(hs, t - 1) == hs[t];
      OneUp(s, hs[t - 1], hs[t]);
    }
  }

  /** Among harts that wait for each other in a circle, one waits backward. */
  lemma CycleNeedsBackward(s: State, hs: seq<nat>)
    requires Inv(s) && Cycle(s, hs)
    ensures AnyBackward(s, hs)
  {
    if !AnyBackward(s, hs) {
      var n := |hs| - 1;
      Climbs(s, hs, n);
      hide Inv;
      hide Want;
      hide Backward;
      hide Rank;
      CycleAt(s, hs, n);
      assert After(hs, n) == hs[0];
      OneUp(s, hs[n], hs[0]);
    }
  }

  // ------------------------------------------------------------------ waiting for ever

  /** Nothing but hart h moved. */
  ghost predicate OnlyHart(s: State, s': State, h: nat) {
    && |s'.procs| == |s.procs| && |s'.harts| == |s.harts|
    && forall x: nat :: x < |s.harts| && x != h ==> s'.harts[x] == s.harts[x]
  }

  lemma ScheduleMoves(s: State, s': State, h: nat)
    requires h < |s.harts| && (SchedulerStep(s, s', h) || InterruptStep(s, s', h))
    ensures OnlyHart(s, s', h) && forall k: nat :: !Waits(s, h, k)
  {
  }

  lemma HandlerMoves(s: State, s': State, h: nat)
    requires h < |s.harts| && HandlerStep(s, s', h)
    ensures OnlyHart(s, s', h) && forall k: nat :: !Waits(s, h, k)
  {
  }

  lemma ThreadMoves(s: State, s': State, h: nat, p: nat)
    requires h < |s.harts| && p < |s.procs| && s.harts[h].proc == Some(p) && ThreadStep(s, s', h, p)
    ensures OnlyHart(s, s', h) && forall k: nat :: !Waits(s, h, k)
  {
  }

  lemma LifeMoves(s: State, s': State, h: nat, p: nat)
    requires h < |s.harts| && p < |s.procs| && s.harts[h].proc == Some(p) && LifeStep(s, s', h, p)
    ensures OnlyHart(s, s', h) && forall k: nat :: !Waits(s, h, k)
  {
  }

  lemma KillMoves(s: State, s': State, h: nat, p: nat)
    requires h < |s.harts| && p < |s.procs| && s.harts[h].proc == Some(p) && KillStep(s, s', h, p)
    ensures OnlyHart(s, s', h) && forall k: nat :: !Waits(s, h, k)
  {
  }

  /** A step moves one hart only, and not one that waits. */
  lemma OneMoves(s: State, s': State, h: nat)
    requires h < |s.harts| && HartStep(s, s', h)
    ensures OnlyHart(s, s', h) && forall k: nat :: !Waits(s, h, k)
  {
    hide InterruptStep;
    hide SchedulerStep;
    hide HandlerStep;
    hide ThreadStep;
    hide LifeStep;
    hide KillStep;
    hide OnlyHart;
    hide Waits;
    if SchedulerStep(s, s', h) || InterruptStep(s, s', h) {
      ScheduleMoves(s, s', h);
    } else if HandlerStep(s, s', h) {
      HandlerMoves(s, s', h);
    } else if ThreadStep(s, s', h, s.harts[h].proc.value) {
      ThreadMoves(s, s', h, s.harts[h].proc.value);
    } else if LifeStep(s, s', h, s.harts[h].proc.value) {
      LifeMoves(s, s', h, s.harts[h].proc.value);
    } else {
      KillMoves(s, s', h, s.harts[h].proc.value);
    }
  }

  /** A wait ends only when the hart waited for moves. */
  lemma WaitStays(s: State, s': State, h: nat, k: nat, m: nat)
    requires Inv(s) && Inv(s') && Waits(s, h, k) && OnlyHart(s, s', m) && m != h && m != k
    ensures Waits(s', h, k)
  {
    hide Inv;
    hide Want;
    hide Has;
    hide Holder;
    var r := Want(s.harts[h]).value;
    HolderIff(s, k, r);
    HolderIff(s', k, r);
  }

  lemma CycleStays(s: State, s': State, hs: seq<nat>)
    requires Inv(s) && Cycle(s, hs) && Next(s, s')
    ensures Cycle(s', hs)
  {
    NextKeeps(s, s');
    hide Inv;
    hide HartStep;
    var m: nat :| m < |s.harts| && HartStep(s, s', m);
    OneMoves(s, s', m);
    hide Waits;
    hide OnlyHart;
    forall t: nat | t < |hs|
      ensures hs[t] != m
    {
      CycleAt(s, hs, t);
    }
    forall t: nat | t < |hs|
      ensures Waits(s', hs[t], After(hs, t))
    {
      CycleAt(s, hs, t);
      WaitStays(s, s', hs[t], After(hs, t), m);
    }
  }

  /** Over every run: harts that wait for each other in a circle do so for ever, and one of
      them is in exit(), waiting for a slot below its own, or in allocproc(), waiting for the
      pool. */
  lemma {:induction false} CycleForever(r: seq<State>, i: nat, k: nat, hs: seq<nat>)
    requires IsRun(r) && i <= k < |r| && Cycle(r[i], hs)
    ensures Cycle(r[k], hs) && AnyBackward(r[k], hs)
    decreases k
  {
    hide Next;
    hide Cycle;
    hide AnyBackward;
    RunInv(r, k);
    hide Inv;
    if i < k {
      CycleForever(r, i, k - 1, hs);
      RunInv(r, k - 1);
      assert Next(r[k - 1], r[k - 1 + 1]);
      CycleStays(r[k - 1], r[k], hs);
    }
    CycleNeedsBackward(r[k], hs);
  }
}
