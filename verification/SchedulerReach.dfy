/**
  Stretches of code that one hart can run from a reachable state, for building runs.
 */
module SchedulerReach {
  import opened Wrappers
  import opened Scheduler

  ghost predicate Reachable(s: State) {
    exists r: seq<State> :: IsRun(r) && r[|r| - 1] == s
  }

  lemma ReachNext(s: State, s': State, h: nat)
    requires Reachable(s) && h < |s.harts| && HartStep(s, s', h)
    ensures Reachable(s')
  {
    var r: seq<State> :| IsRun(r) && r[|r| - 1] == s;
    var r' := r + [s'];
    hide HartStep;
    assert Next(s, s');
    hide Next;
    hide Init;
    forall i | 0 <= i < |r'| - 1
      ensures Next(r'[i], r'[i + 1])
    {
      if i < |r| - 1 {
        assert Next(r[i], r[i + 1]);
      }
    }
    assert IsRun(r') && r'[|r'| - 1] == s';
  }

  lemma BySearch(s: State, s': State, h: nat)
    requires Reachable(s) && h < |s.harts| && SchedulerStep(s, s', h)
    ensures Reachable(s')
  {
    hide Reachable;
    hide SchedulerStep;
    ReachNext(s, s', h);
  }

  lemma ByThread(s: State, s': State, h: nat, p: nat)
    requires Reachable(s) && h < |s.harts| && p < |s.procs| && s.harts[h].proc == Some(p) && ThreadStep(s, s', h, p)
    ensures Reachable(s')
  {
    hide Reachable;
    hide ThreadStep;
    ReachNext(s, s', h);
  }

  lemma ByLife(s: State, s': State, h: nat, p: nat)
    requires Reachable(s) && h < |s.harts| && p < |s.procs| && s.harts[h].proc == Some(p) && LifeStep(s, s', h, p)
    ensures Reachable(s')
  {
    hide Reachable;
    hide LifeStep;
    ReachNext(s, s', h);
  }

  lemma ByKill(s: State, s': State, h: nat, p: nat)
    requires Reachable(s) && h < |s.harts| && p < |s.procs| && s.harts[h].proc == Some(p) && KillStep(s, s', h, p)
    ensures Reachable(s')
  {
    hide Reachable;
    hide KillStep;
    ReachNext(s, s', h);
  }

  /** s' is s with another hart h and another PCB i. */
  ghost predicate Becomes(s: State, s': State, h: nat, x: Hart, i: nat, y: Proc) {
    && h < |s.harts| && i < |s.procs|
    && s'.harts == s.harts[h := x] && s'.procs == s.procs[i := y]
    && s' == s.(harts := s'.harts, procs := s'.procs)
  }

  // --------------------------------------------------------------- the scheduler

  /** The search takes the first runnable slot. */
  lemma Found(s: State, s': State, h: nat, i: nat)
    requires Reachable(s) && h < |s.harts| && s.harts[h] == Hart(None, Scan(i, None))
    requires i < |s.procs| && s.procs[i].state == RUNNABLE && s.procs[i].lock == None
    requires Becomes(s, s', h, Hart(None, Scan(i + 1, Some(i))), i, s.procs[i].(lock := Some(h)))
    ensures Reachable(s')
  {
    hide Reachable;
    var s1 := SetPC(s, h, ScanLock(i, None));
    var s2 := SetPC(SetP(s1, i, s.procs[i].(lock := Some(h))), h, ScanCheck(i, None));
    var s3 := SetPC(s2, h, Scan(i + 1, Some(i)));
    BySearch(s, s1, h);
    BySearch(s1, s2, h);
    BySearch(s2, s3, h);
    assert s3.harts == s'.harts && s3.procs == s'.procs;
  }

  /** It skips a slot that is not runnable. */
  lemma Skipped(s: State, s': State, h: nat, i: nat, best: Option<nat>)
    requires Reachable(s) && h < |s.harts| && s.harts[h] == Hart(None, Scan(i, best))
    requires i < |s.procs| && s.procs[i].state != RUNNABLE
    requires Becomes(s, s', h, Hart(None, Scan(i + 1, best)), i, s.procs[i])
    ensures Reachable(s')
  {
    hide Reachable;
    var s1 := SetPC(s, h, Scan(i + 1, best));
    BySearch(s, s1, h);
    assert s1.harts == s'.harts && s1.procs == s'.procs;
  }

  /** It keeps its candidate b in spite of slot i. */
  lemma Passed(s: State, s': State, h: nat, i: nat, b: nat)
    requires Reachable(s) && h < |s.harts| && s.harts[h] == Hart(None, Scan(i, Some(b)))
    requires i < |s.procs| && s.procs[i].state == RUNNABLE && s.procs[i].lock == None
    requires Becomes(s, s', h, Hart(None, Scan(i + 1, Some(b))), i, s.procs[i])
    ensures Reachable(s')
  {
    hide Reachable;
    var s1 := SetPC(s, h, ScanLock(i, Some(b)));
    var s2 := SetPC(SetP(s1, i, s.procs[i].(lock := Some(h))), h, ScanCheck(i, Some(b)));
    var s3 := SetPC(SetP(s2, i, s2.procs[i].(lock := None)), h, Scan(i + 1, Some(b)));
    BySearch(s, s1, h);
    BySearch(s1, s2, h);
    BySearch(s2, s3, h);
    assert s3.harts == s'.harts && s3.procs == s'.procs;
  }

  /** It drops its candidate b for slot i. */
  lemma Preferred(s: State, s': State, h: nat, i: nat, b: nat, mid: State)
    requires Reachable(s) && h < |s.harts| && s.harts[h] == Hart(None, Scan(i, Some(b)))
    requires i < |s.procs| && s.procs[i].state == RUNNABLE && s.procs[i].lock == None && b < |s.procs| && b != i
    requires Becomes(s, mid, h, Hart(None, ScanCheck(i, Some(b))), i, s.procs[i].(lock := Some(h)))
    requires Becomes(mid, s', h, Hart(None, Scan(i + 1, Some(i))), b, s.procs[b].(lock := None))
    ensures Reachable(s')
  {
    hide Reachable;
    var s1 := SetPC(s, h, ScanLock(i, Some(b)));
    var s2 := SetPC(SetP(s1, i, s.procs[i].(lock := Some(h))), h, ScanCheck(i, Some(b)));
    BySearch(s, s1, h);
    BySearch(s1, s2, h);
    assert s2.harts == mid.harts && s2.procs == mid.procs;
    var s3 := SetPC(SetP(mid, b, mid.procs[b].(lock := None)), h, Scan(i + 1, Some(i)));
    BySearch(mid, s3, h);
    assert s3.harts == s'.harts && s3.procs == s'.procs;
  }

  /** The candidate is dispatched and leaves its lock: a new process runs, one that slept goes
      for the condition lock. */
  lemma Begins(s: State, s': State, h: nat, b: nat)
    requires Reachable(s) && h < |s.harts| && s.harts[h] == Hart(None, Scan(|s.procs|, Some(b)))
    requires b < |s.procs| && (s.procs[b].ctx == Fork || s.procs[b].ctx.Slept?) && s.procs[b].paged
    requires var c := s.procs[b].ctx;
             Becomes(s, s', h, Hart(Some(b), if c == Fork then Run else Relock(c.c)), b,
                     s.procs[b].(state := RUNNING, lock := None, chan := if c == Fork then s.procs[b].chan else None))
    ensures Reachable(s')
  {
    hide Reachable;
    var x := s.procs[b];
    var s1 := SetPC(s, h, Dispatch(b));
    var s2 := SetH(SetP(s1, b, x.(state := RUNNING)), h, Hart(Some(b), Resumed(x.ctx)));
    var s3 := if x.ctx == Fork then SetPC(SetP(s2, b, s2.procs[b].(lock := None)), h, Run)
      else SetPC(SetP(s2, b, s2.procs[b].(chan := None).(lock := None)), h, Relock(x.ctx.c));
    BySearch(s, s1, h);
    BySearch(s1, s2, h);
    ByThread(s2, s3, h, b);
    assert s3.harts == s'.harts && s3.procs == s'.procs;
  }

  /** Aging goes past slot i. */
  lemma Aged(s: State, s': State, h: nat, i: nat)
    requires Reachable(s) && h < |s.harts| && s.harts[h] == Hart(None, Age(i))
    requires i < |s.procs| && (s.procs[i].state == RUNNABLE ==> s.procs[i].lock == None)
    requires Becomes(s, s', h, Hart(None, Age(i + 1)), i, s.procs[i])
    ensures Reachable(s')
  {
    hide Reachable;
    if s.procs[i].state == RUNNABLE {
      var s1 := SetPC(s, h, AgeLock(i));
      var s2 := SetPC(SetP(s1, i, s.procs[i].(lock := Some(h))), h, AgeHold(i));
      var s3 := SetPC(SetP(s2, i, s2.procs[i].(lock := None)), h, Age(i + 1));
      BySearch(s, s1, h);
      BySearch(s1, s2, h);
      BySearch(s2, s3, h);
      assert s3.harts == s'.harts && s3.procs == s'.procs;
    } else {
      var s1 := SetPC(s, h, Age(i + 1));
      BySearch(s, s1, h);
      assert s1.harts == s'.harts && s1.procs == s'.procs;
    }
  }

  /** Aging is done, and the search starts again. */
  lemma Again(s: State, s': State, h: nat)
    requires Reachable(s) && h < |s.harts| && s.harts[h] == Hart(None, Age(|s.procs|)) && |s.procs| > 0
    requires Becomes(s, s', h, Hart(None, Scan(0, None)), 0, s.procs[0])
    ensures Reachable(s')
  {
    hide Reachable;
    var s1 := SetPC(s, h, Scan(0, None));
    BySearch(s, s1, h);
    assert s1.harts == s'.harts && s1.procs == s'.procs;
  }

  // ------------------------------------------------------------------------ exit

  ghost predicate OnRun(s: State, h: nat, p: nat, pc: PC) {
    h < |s.harts| && p < |s.procs| && s.harts[h] == Hart(Some(p), pc)
  }

  lemma Calls(s: State, s': State, h: nat, p: nat)
    requires Reachable(s) && OnRun(s, h, p, Run) && Becomes(s, s', h, Hart(Some(p), ExitLock(None)), p, s.procs[p])
    ensures Reachable(s')
  {
    hide Reachable;
    var s1 := SetPC(s, h, ExitLock(None));
    ByThread(s, s1, h, p);
    assert s1.harts == s'.harts && s1.procs == s'.procs;
  }

  /** exit() up to its wakeup loop. */
  lemma Exits(s: State, s': State, h: nat, p: nat, lk: Option<Chan>)
    requires Reachable(s) && OnRun(s, h, p, ExitLock(lk)) && s.procs[p].lock == None
    requires Becomes(s, s', h, Hart(Some(p), ExitWake(0, lk)), p, s.procs[p].(state := ZOMBIE, lock := Some(h)))
    ensures Reachable(s')
  {
    hide Reachable;
    var s1 := SetPC(SetP(s, p, s.procs[p].(lock := Some(h))), h, ExitHold(lk));
    var s2 := SetPC(SetP(s1, p, s1.procs[p].(state := ZOMBIE)), h, ExitWake(0, lk));
    ByLife(s, s1, h, p);
    ByLife(s1, s2, h, p);
    assert s2.harts == s'.harts && s2.procs == s'.procs;
  }

  /** Its loop goes past slot i: its own, or one that does not sleep. */
  lemma Wakes(s: State, s': State, h: nat, p: nat, i: nat, lk: Option<Chan>)
    requires Reachable(s) && OnRun(s, h, p, ExitWake(i, lk)) && i < |s.procs|
    requires i != p ==> s.procs[i].lock == None && s.procs[i].state != SLEEPING
    requires Becomes(s, s', h, Hart(Some(p), ExitWake(i + 1, lk)), i, s.procs[i])
    ensures Reachable(s')
  {
    hide Reachable;
    if i == p {
      var s1 := SetPC(s, h, ExitWake(i + 1, lk));
      ByLife(s, s1, h, p);
      assert s1.harts == s'.harts && s1.procs == s'.procs;
    } else {
      hide *;
      WakesOther(s, s', h, p, i, lk);
    }
  }

  lemma WakesOther(s: State, s': State, h: nat, p: nat, i: nat, lk: Option<Chan>)
    requires Reachable(s) && OnRun(s, h, p, ExitWake(i, lk)) && i < |s.procs| && i != p
    requires s.procs[i].lock == None && s.procs[i].state != SLEEPING
    requires Becomes(s, s', h, Hart(Some(p), ExitWake(i + 1, lk)), i, s.procs[i])
    ensures Reachable(s')
  {
    hide Reachable;
    var s1 := SetPC(s, h, ExitWakeLock(i, lk));
    var s2 := SetPC(SetP(s1, i, s.procs[i].(lock := Some(h))), h, ExitWakeHold(i, lk));
    var s3 := SetPC(SetP(s2, i, Woken(s2.procs[i], Pool).(lock := None)), h, ExitWake(i + 1, lk));
    ByLife(s, s1, h, p);
    ByLife(s1, s2, h, p);
    ByLife(s2, s3, h, p);
    assert s3.harts == s'.harts && s3.procs == s'.procs;
  }

  /** It spins on slot i. */
  lemma Spins(s: State, s': State, h: nat, p: nat, i: nat, lk: Option<Chan>)
    requires Reachable(s) && OnRun(s, h, p, ExitWake(i, lk)) && i < |s.procs| && i != p
    requires Becomes(s, s', h, Hart(Some(p), ExitWakeLock(i, lk)), i, s.procs[i])
    ensures Reachable(s')
  {
    hide Reachable;
    var s1 := SetPC(s, h, ExitWakeLock(i, lk));
    ByLife(s, s1, h, p);
    assert s1.harts == s'.harts && s1.procs == s'.procs;
  }

  /** The process is gone. */
  lemma Leaves(s: State, s': State, h: nat, p: nat)
    requires Reachable(s) && OnRun(s, h, p, ExitWake(|s.procs|, None))
    requires Becomes(s, s', h, Hart(None, Age(0)), p, s.procs[p].(ctx := Dead, lock := None))
    ensures Reachable(s')
  {
    hide Reachable;
    var s1 := SetPC(s, h, Sched(Dead));
    var s2 := SetPC(SetP(s1, p, s1.procs[p].(ctx := Dead)), h, Back(p));
    var s3 := SetH(SetP(s2, p, s2.procs[p].(lock := None)), h, Hart(None, Age(0)));
    ByLife(s, s1, h, p);
    ByThread(s1, s2, h, p);
    BySearch(s2, s3, h);
    assert s3.harts == s'.harts && s3.procs == s'.procs;
  }

  // ---------------------------------------------------------- sleep, wait and kill

  /** The condition lock c is taken. */
  lemma Takes(s: State, s': State, h: nat, p: nat, c: Chan, n: nat)
    requires Reachable(s) && OnRun(s, h, p, Run) && Lk(s, c) == None
    requires Becomes(SetLk(s, c, Some(h)), s', h, Hart(Some(p), Cond(c)), p, s.procs[p].(want := n))
    ensures Reachable(s')
  {
    hide Reachable;
    var s1 := SetPC(s, h, CondLock(c));
    var s2 := SetLk(SetPC(SetP(s1, p, s1.procs[p].(want := n)), h, Cond(c)), c, Some(h));
    ByThread(s, s1, h, p);
    ByThread(s1, s2, h, p);
    assert s2.harts == s'.harts && s2.procs == s'.procs;
  }

  /** From the decision to sleep until the hart is free for others. */
  lemma Sleeps(s: State, s': State, h: nat, p: nat, c: Chan)
    requires Reachable(s) && OnRun(s, h, p, SleepLock(c)) && s.procs[p].lock == None
    requires Becomes(SetLk(s, c, None), s', h, Hart(None, Age(0)), p,
                     s.procs[p].(state := SLEEPING, chan := Some(c), ctx := Slept(c)))
    ensures Reachable(s')
  {
    hide Reachable;
    var s1 := SetPC(SetP(s, p, s.procs[p].(lock := Some(h))), h, SleepHold(c));
    var s2 := SetLk(SetPC(s1, h, SleepSet(c)), c, None);
    ByThread(s, s1, h, p);
    ByThread(s1, s2, h, p);
    SleepsOn(s2, s', h, p, c, s.procs[p]);
  }

  lemma SleepsOn(s: State, s': State, h: nat, p: nat, c: Chan, x: Proc)
    requires Reachable(s) && OnRun(s, h, p, SleepSet(c)) && s.procs[p] == x.(lock := Some(h)) && x.lock == None
    requires Becomes(s, s', h, Hart(None, Age(0)), p, x.(state := SLEEPING, chan := Some(c), ctx := Slept(c)))
    ensures Reachable(s')
  {
    hide Reachable;
    var s3 := SetPC(SetP(s, p, s.procs[p].(state := SLEEPING, chan := Some(c))), h, Sched(Slept(c)));
    var s4 := SetPC(SetP(s3, p, s3.procs[p].(ctx := Slept(c))), h, Back(p));
    var s5 := SetH(SetP(s4, p, s4.procs[p].(lock := None)), h, Hart(None, Age(0)));
    ByThread(s, s3, h, p);
    ByThread(s3, s4, h, p);
    BySearch(s4, s5, h);
    assert s5.harts == s'.harts && s5.procs == s'.procs;
  }

  /** With proc_pool locked: kill() goes for slot i. */
  lemma Hunts(s: State, s': State, h: nat, p: nat)
    requires Reachable(s) && OnRun(s, h, p, Cond(Pool)) && s.procs[p].want < |s.procs|
    requires Becomes(s, s', h, Hart(Some(p), KillLock(s.procs[p].want)), p, s.procs[p])
    ensures Reachable(s')
  {
    hide Reachable;
    var s1 := SetPC(s, h, KillLock(s.procs[p].want));
    ByThread(s, s1, h, p);
    assert s1.harts == s'.harts && s1.procs == s'.procs;
  }

  /** It kills a living process. */
  lemma Kills(s: State, s': State, h: nat, p: nat, i: nat)
    requires Reachable(s) && OnRun(s, h, p, KillLock(i)) && i < |s.procs| && s.procs[i].lock == None
    requires s.procs[i].state != ZOMBIE && s.procs[i].state != UNUSED
    requires Becomes(s, s', h, Hart(Some(p), KillDone), i, Killed(s.procs[i]))
    ensures Reachable(s')
  {
    hide Reachable;
    var s1 := SetPC(SetP(s, i, s.procs[i].(lock := Some(h))), h, KillHold(i));
    var s2 := SetPC(SetP(s1, i, Killed(s1.procs[i]).(lock := None)), h, KillDone);
    ByKill(s, s1, h, p);
    ByKill(s1, s2, h, p);
    assert s2.harts == s'.harts && s2.procs == s'.procs;
  }

  /** A killed sleeper goes from its condition lock into exit(). */
  lemma Doomed(s: State, s': State, h: nat, p: nat, c: Chan)
    requires Reachable(s) && OnRun(s, h, p, Relock(c)) && Lk(s, c) == None && s.procs[p].killed
    requires Becomes(SetLk(s, c, Some(h)), s', h, Hart(Some(p), ExitLock(Some(c))), p, s.procs[p])
    ensures Reachable(s')
  {
    hide Reachable;
    var s1 := SetLk(SetPC(s, h, Woke(c)), c, Some(h));
    var s2 := SetPC(s1, h, ExitLock(Some(c)));
    ByThread(s, s1, h, p);
    ByThread(s1, s2, h, p);
    assert s2.harts == s'.harts && s2.procs == s'.procs;
  }

  /** allocproc() with an unused slot locked goes for a pid. */
  lemma Allocates(s: State, s': State, h: nat, p: nat, i: nat)
    requires Reachable(s) && OnRun(s, h, p, Run) && i < |s.procs| && i != p
    requires s.procs[i].state == UNUSED && s.procs[i].lock == None
    requires Becomes(s, s', h, Hart(Some(p), AllocPid(i)), i, s.procs[i].(lock := Some(h)))
    ensures Reachable(s')
  {
    hide Reachable;
    var s1 := SetPC(s, h, AllocLock(i));
    var s2 := SetPC(SetP(s1, i, s.procs[i].(lock := Some(h))), h, AllocHold(i));
    var s3 := SetPC(s2, h, AllocPid(i));
    ByThread(s, s1, h, p);
    ByLife(s1, s2, h, p);
    ByLife(s2, s3, h, p);
    assert s3.harts == s'.harts && s3.procs == s'.procs;
  }

  /** wait() reaps its dead child and is done. */
  lemma Reaps(s: State, s': State, h: nat, p: nat, i: nat)
    requires Reachable(s) && OnRun(s, h, p, Cond(Pool)) && s.procs[p].want == i && i < |s.procs| && i != p
    requires s.procs[i].state == ZOMBIE && s.procs[i].lock == None && s.poolLock == Some(h)
    requires Becomes(s.(poolLock := None), s', h, Hart(Some(p), Run), i, Reaped(s.procs[i]))
    ensures Reachable(s')
  {
    hide Reachable;
    var s1 := SetPC(s, h, ReapLock(i));
    var s2 := SetPC(SetP(s1, i, s.procs[i].(lock := Some(h))), h, ReapHold(i));
    ByThread(s, s1, h, p);
    ByLife(s1, s2, h, p);
    ReapsOn(s2, s', h, p, i, s.procs[i]);
  }

  lemma ReapsOn(s: State, s': State, h: nat, p: nat, i: nat, x: Proc)
    requires Reachable(s) && OnRun(s, h, p, ReapHold(i)) && i < |s.procs| && i != p
    requires s.procs[i] == x.(lock := Some(h)) && x.state == ZOMBIE && x.lock == None
    requires Becomes(s.(poolLock := None), s', h, Hart(Some(p), Run), i, Reaped(x))
    ensures Reachable(s')
  {
    hide Reachable;
    var y := Reaped(s.procs[i]);
    var s1 := SetPC(SetP(s, i, y.(lock := None)), h, CondDone(Pool));
    var s2 := SetLk(SetPC(s1, h, Run), Pool, None);
    ByLife(s, s1, h, p);
    ByThread(s1, s2, h, p);
    assert s2.harts == s'.harts && s2.procs == s'.procs;
  }

  /** allocproc() gets its pid, fails for want of memory and leaves the slot half-way. */
  lemma Strands(s: State, s': State, h: nat, p: nat, i: nat)
    requires Reachable(s) && OnRun(s, h, p, AllocPid(i)) && i < |s.procs| && i != p && s.poolLock == None
    requires Becomes(s, s', h, Hart(Some(p), Run), i,
                     s.procs[i].(state := SLEEPING, chan := None, killed := false, lock := None))
    ensures Reachable(s')
  {
    hide Reachable;
    var s1 := SetLk(SetPC(s, h, AllocPidHold(i)), Pool, Some(h));
    var x := s.procs[i].(state := SLEEPING, chan := None, killed := false);
    var s2 := SetLk(SetPC(SetP(s1, i, x), h, AllocFill(i)), Pool, None);
    var s3 := SetPC(SetP(s2, i, x.(lock := None)), h, Run);
    ByLife(s, s1, h, p);
    ByLife(s1, s2, h, p);
    assert s2.procs[i] == x && Filled(s2.procs[i], x) && Releases(s2, s3, h, i, x, Run);
    ByLife(s2, s3, h, p);
    assert s3.harts == s'.harts && s3.procs == s'.procs;
  }

  /** A slot without a page table is dispatched. */
  lemma Faults(s: State, s': State, h: nat, b: nat)
    requires Reachable(s) && h < |s.harts| && s.harts[h] == Hart(None, Scan(|s.procs|, Some(b)))
    requires b < |s.procs| && !s.procs[b].paged
    requires Becomes(s, s', h, Hart(Some(b), Faulted), b, s.procs[b].(state := RUNNING))
    ensures Reachable(s')
  {
    hide Reachable;
    var s1 := SetPC(s, h, Dispatch(b));
    var s2 := SetH(SetP(s1, b, s1.procs[b].(state := RUNNING)), h, Hart(Some(b), Faulted));
    BySearch(s, s1, h);
    BySearch(s1, s2, h);
    assert s2.harts == s'.harts && s2.procs == s'.procs;
  }
}
