/**
  How the protocol goes wrong, each as a run that ends there: circles of waits, a child's exit
  that wait() misses, a killed sleeper that panics with its condition lock, and a killed slot
  without a page table.
 */
module SchedulerStuck {
  import opened Wrappers
  import opened Scheduler
  import opened SchedulerWait
  import opened SchedulerMiss
  import opened SchedulerReach

  /** Two harts and three slots. */
  function St(a: Hart, b: Hart, p: Proc, q: Proc, u: Proc): State {
    State([p, q, u], [a, b], None, None, None, 0, 0)
  }

  function Pr(state: PState, lock: Option<nat>): Proc {
    Proc(state, None, lock, Fork, 0, false, state != UNUSED)
  }

  function At(pc: PC): Hart { Hart(None, pc) }

  const START: PC := Scan(0, None)
  const FREE: Proc := Pr(RUNNABLE, None)
  const RAN: Proc := Pr(RUNNING, None)
  const HOLE: Proc := Pr(UNUSED, None)

  lemma Booted()
    ensures Reachable(St(At(START), At(START), FREE, FREE, HOLE))
  {
    var s0 := St(At(START), At(START), FREE, FREE, HOLE);
    assert IsRun([s0]) && [s0][|[s0]| - 1] == s0;
  }

  /** Hart 0 takes process 0 ... */
  lemma FirstRuns()
    ensures Reachable(St(Hart(Some(0), Run), At(START), RAN, FREE, HOLE))
  {
    Booted();
    hide Reachable;
    var b, mine := At(START), Pr(RUNNABLE, Some(0));
    var s1 := St(At(Scan(1, Some(0))), b, mine, FREE, HOLE);
    var s2 := St(At(Scan(2, Some(0))), b, mine, FREE, HOLE);
    var s3 := St(At(Scan(3, Some(0))), b, mine, FREE, HOLE);
    Found(St(At(START), b, FREE, FREE, HOLE), s1, 0, 0);
    Passed(s1, s2, 0, 1, 0);
    Skipped(s2, s3, 0, 2, Some(0));
    Begins(s3, St(Hart(Some(0), Run), b, RAN, FREE, HOLE), 0, 0);
  }

  /** ... and hart 1 takes process 1. */
  lemma BothRun()
    ensures Reachable(St(Hart(Some(0), Run), Hart(Some(1), Run), RAN, RAN, HOLE))
  {
    FirstRuns();
    hide Reachable;
    var a, mine := Hart(Some(0), Run), Pr(RUNNABLE, Some(1));
    var s1 := St(a, At(Scan(1, None)), RAN, FREE, HOLE);
    var s2 := St(a, At(Scan(2, Some(1))), RAN, mine, HOLE);
    var s3 := St(a, At(Scan(3, Some(1))), RAN, mine, HOLE);
    Skipped(St(a, At(START), RAN, FREE, HOLE), s1, 1, 0, None);
    Found(s1, s2, 1, 1);
    Skipped(s2, s3, 1, 2, Some(1));
    Begins(s3, St(a, Hart(Some(1), Run), RAN, RAN, HOLE), 1, 1);
  }

  lemma TwoWait(s: State)
    requires Waits(s, 0, 1) && Waits(s, 1, 0)
    ensures Cycle(s, [0, 1])
  {
    hide Waits;
    assert After([0, 1], 0) == 1 && After([0, 1], 1) == 0;
  }

  // ------------------------------------------------------------------- two exits

  lemma BothExit()
    ensures Reachable(St(Hart(Some(0), ExitWake(0, None)), Hart(Some(1), ExitWake(0, None)),
                         Pr(ZOMBIE, Some(0)), Pr(ZOMBIE, Some(1)), HOLE))
  {
    BothRun();
    hide Reachable;
    var b, a' := Hart(Some(1), Run), Hart(Some(0), ExitWake(0, None));
    var p', q' := Pr(ZOMBIE, Some(0)), Pr(ZOMBIE, Some(1));
    var s1 := St(Hart(Some(0), ExitLock(None)), b, RAN, RAN, HOLE);
    var s2 := St(a', b, p', RAN, HOLE);
    var s3 := St(a', Hart(Some(1), ExitLock(None)), p', RAN, HOLE);
    Calls(St(Hart(Some(0), Run), b, RAN, RAN, HOLE), s1, 0, 0);
    Exits(s1, s2, 0, 0, None);
    Calls(s2, s3, 1, 1);
    Exits(s3, St(a', Hart(Some(1), ExitWake(0, None)), p', q', HOLE), 1, 1, None);
  }

  /** Two processes that exit at the same time can wait for each other. */
  lemma ExitsCanCross()
    ensures exists s: State ::
              |s.harts| == 2 && Reachable(s) && Cycle(s, [0, 1]) && s.harts[0].pc == ExitWakeLock(1, None)
  {
    BothExit();
    hide Reachable;
    var p, q := Pr(ZOMBIE, Some(0)), Pr(ZOMBIE, Some(1));
    var a, b := Hart(Some(0), ExitWakeLock(1, None)), Hart(Some(1), ExitWake(0, None));
    var s1 := St(Hart(Some(0), ExitWake(1, None)), b, p, q, HOLE);
    var s2 := St(a, b, p, q, HOLE);
    var s3 := St(a, Hart(Some(1), ExitWakeLock(0, None)), p, q, HOLE);
    Wakes(St(Hart(Some(0), ExitWake(0, None)), b, p, q, HOLE), s1, 0, 0, 0, None);
    Spins(s1, s2, 0, 0, 1, None);
    Spins(s2, s3, 1, 1, 0, None);
    TwoWait(s3);
  }

  // ------------------------------------------------------- the search and one exit

  /** Hart 1 prefers process 1 to process 0 and runs it. */
  lemma OtherChosen()
    ensures Reachable(St(At(START), At(Scan(3, Some(1))), FREE, Pr(RUNNABLE, Some(1)), HOLE))
  {
    Booted();
    hide Reachable;
    var a, mine := At(START), Pr(RUNNABLE, Some(1));
    var s1 := St(a, At(Scan(1, Some(0))), mine, FREE, HOLE);
    var s2 := St(a, At(ScanCheck(1, Some(0))), mine, mine, HOLE);
    var s3 := St(a, At(Scan(2, Some(1))), FREE, mine, HOLE);
    Found(St(a, At(START), FREE, FREE, HOLE), s1, 1, 0);
    Preferred(s1, s3, 1, 1, 0, s2);
    Skipped(s3, St(a, At(Scan(3, Some(1))), FREE, mine, HOLE), 1, 2, Some(1));
  }

  /** Hart 0 locks process 0 and sees process 1 runnable before that runs. */
  lemma SearchWaits()
    ensures Reachable(St(At(ScanLock(1, Some(0))), Hart(Some(1), Run), Pr(RUNNABLE, Some(0)), RAN, HOLE))
  {
    OtherChosen();
    hide Reachable;
    var b, p, q := At(Scan(3, Some(1))), Pr(RUNNABLE, Some(0)), Pr(RUNNABLE, Some(1));
    var s1 := St(At(Scan(1, Some(0))), b, p, q, HOLE);
    var s2 := St(At(ScanLock(1, Some(0))), b, p, q, HOLE);
    Found(St(At(START), b, FREE, q, HOLE), s1, 0, 0);
    BySearch(s1, s2, 0);
    Begins(s2, St(At(ScanLock(1, Some(0))), Hart(Some(1), Run), p, RAN, HOLE), 1, 1);
  }

  /** One exit() and the search of another hart can wait for each other. */
  lemma SearchCanCross()
    ensures exists s: State ::
              |s.harts| == 2 && Reachable(s) && Cycle(s, [0, 1]) && s.harts[0].pc == ScanLock(1, Some(0))
  {
    SearchWaits();
    hide Reachable;
    var a, p, q := At(ScanLock(1, Some(0))), Pr(RUNNABLE, Some(0)), Pr(ZOMBIE, Some(1));
    var s1 := St(a, Hart(Some(1), ExitLock(None)), p, RAN, HOLE);
    var s2 := St(a, Hart(Some(1), ExitWake(0, None)), p, q, HOLE);
    var s3 := St(a, Hart(Some(1), ExitWakeLock(0, None)), p, q, HOLE);
    Calls(St(a, Hart(Some(1), Run), p, RAN, HOLE), s1, 1, 1);
    Exits(s1, s2, 1, 1, None);
    Spins(s2, s3, 1, 1, 0, None);
    TwoWait(s3);
  }

  // -------------------------------------------------------------- spawn and kill

  /** A spawn() that has locked an unused slot and a kill() that goes for the same slot can
      wait for each other, without any exit. */
  lemma SpawnCanCross()
    ensures exists s: State :: |s.harts| == 2 && Reachable(s) && Cycle(s, [0, 1]) && s.harts[0].pc == AllocPid(2)
  {
    BothRun();
    hide Reachable;
    var a, b, u := Hart(Some(0), AllocPid(2)), Hart(Some(1), Run), Pr(UNUSED, Some(0));
    var s1 := St(a, b, RAN, RAN, u);
    var s2 := St(a, Hart(Some(1), Cond(Pool)), RAN, RAN.(want := 2), u).(poolLock := Some(1));
    var s3 := St(a, Hart(Some(1), KillLock(2)), RAN, RAN.(want := 2), u).(poolLock := Some(1));
    Allocates(St(Hart(Some(0), Run), b, RAN, RAN, HOLE), s1, 0, 0, 2);
    Takes(s1, s2, 1, 1, Pool, 2);
    Hunts(s2, s3, 1, 1);
    TwoWait(s3);
  }

  // ----------------------------------------------------------------- a missed exit

  /** Process 0 has found its child, process 1, alive, and is about to lock itself for sleep(). */
  lemma ParentDecides()
    ensures Reachable(St(Hart(Some(0), SleepLock(Pool)), Hart(Some(1), Run), RAN.(want := 1), RAN, HOLE)
                      .(poolLock := Some(0)))
  {
    BothRun();
    hide Reachable;
    var b, p := Hart(Some(1), Run), RAN.(want := 1);
    var s1 := St(Hart(Some(0), Cond(Pool)), b, p, RAN, HOLE).(poolLock := Some(0));
    var s2 := St(Hart(Some(0), SleepLock(Pool)), b, p, RAN, HOLE).(poolLock := Some(0));
    Takes(St(Hart(Some(0), Run), b, RAN, RAN, HOLE), s1, 0, 0, Pool, 1);
    ByThread(s1, s2, 0, 0);
  }

  const GONE: Proc := Pr(ZOMBIE, None).(ctx := Dead)

  /** The child exits: its wakeup loop passes the parent, which does not sleep yet. */
  lemma ChildLeaves()
    ensures Reachable(St(Hart(Some(0), SleepLock(Pool)), At(Age(0)), RAN.(want := 1), GONE, HOLE)
                      .(poolLock := Some(0)))
  {
    ParentDecides();
    hide Reachable;
    var a, p, q := Hart(Some(0), SleepLock(Pool)), RAN.(want := 1), Pr(ZOMBIE, Some(1));
    var s0 := St(a, Hart(Some(1), Run), p, RAN, HOLE).(poolLock := Some(0));
    var s1 := St(a, Hart(Some(1), ExitLock(None)), p, RAN, HOLE).(poolLock := Some(0));
    var s2 := St(a, Hart(Some(1), ExitWake(0, None)), p, q, HOLE).(poolLock := Some(0));
    var s3 := St(a, Hart(Some(1), ExitWake(1, None)), p, q, HOLE).(poolLock := Some(0));
    var s4 := St(a, Hart(Some(1), ExitWake(2, None)), p, q, HOLE).(poolLock := Some(0));
    var s5 := St(a, Hart(Some(1), ExitWake(3, None)), p, q, HOLE).(poolLock := Some(0));
    Calls(s0, s1, 1, 1);
    Exits(s1, s2, 1, 1, None);
    Wakes(s2, s3, 1, 1, 0, None);
    Wakes(s3, s4, 1, 1, 1, None);
    Wakes(s4, s5, 1, 1, 2, None);
    Leaves(s5, St(a, At(Age(0)), p, GONE, HOLE).(poolLock := Some(0)), 1, 1);
  }

  const MISSED: Proc := RAN.(want := 1, state := SLEEPING, chan := Some(Pool), ctx := Slept(Pool))

  /** The parent sleeps for a child that is gone, and nobody runs who could wake it. */
  lemma ExitCanBeMissed()
    ensures exists s: State :: Reachable(s) && Lost(s, 0, 1) && Silent(s)
  {
    ChildLeaves();
    hide Reachable;
    var s := St(Hart(Some(0), SleepLock(Pool)), At(Age(0)), RAN.(want := 1), GONE, HOLE).(poolLock := Some(0));
    var s' := St(At(Age(0)), At(Age(0)), MISSED, GONE, HOLE);
    Sleeps(s, s', 0, 0, Pool);
    assert Committed(s', 0);
    assert Lost(s', 0, 1) && Silent(s');
  }

  // -------------------------------------------------------------- a killed sleeper

  const ASLEEP: Proc := RAN.(want := 1, state := SLEEPING, chan := Some(Tick), ctx := Slept(Tick))

  /** Process 0 sleeps until tick 1. */
  lemma FirstSleeps()
    ensures Reachable(St(At(Age(0)), Hart(Some(1), Run), ASLEEP, RAN, HOLE))
  {
    BothRun();
    hide Reachable;
    var b, p := Hart(Some(1), Run), RAN.(want := 1);
    var s1 := St(Hart(Some(0), Cond(Tick)), b, p, RAN, HOLE).(tickLock := Some(0));
    var s2 := St(Hart(Some(0), SleepLock(Tick)), b, p, RAN, HOLE).(tickLock := Some(0));
    Takes(St(Hart(Some(0), Run), b, RAN, RAN, HOLE), s1, 0, 0, Tick, 1);
    ByThread(s1, s2, 0, 0);
    Sleeps(s2, St(At(Age(0)), b, ASLEEP, RAN, HOLE), 0, 0, Tick);
  }

  const HIT: Proc := ASLEEP.(state := RUNNABLE, killed := true)

  /** Process 1 kills it; the killer stops with proc_pool locked. */
  lemma FirstKilled()
    ensures Reachable(St(At(Age(0)), Hart(Some(1), KillDone), HIT, RAN, HOLE).(poolLock := Some(1)))
  {
    FirstSleeps();
    hide Reachable;
    var a := At(Age(0));
    var s1 := St(a, Hart(Some(1), Cond(Pool)), ASLEEP, RAN, HOLE).(poolLock := Some(1));
    var s2 := St(a, Hart(Some(1), KillLock(0)), ASLEEP, RAN, HOLE).(poolLock := Some(1));
    var s3 := St(a, Hart(Some(1), KillDone), HIT, RAN, HOLE).(poolLock := Some(1));
    Takes(St(a, Hart(Some(1), Run), ASLEEP, RAN, HOLE), s1, 1, 1, Pool, 0);
    Hunts(s1, s2, 1, 1);
    Kills(s2, s3, 1, 1, 0);
  }

  /** Hart 0 comes back to it ... */
  lemma KilledFound()
    ensures Reachable(St(At(Scan(1, Some(0))), Hart(Some(1), KillDone), HIT.(lock := Some(0)), RAN, HOLE)
                      .(poolLock := Some(1)))
  {
    FirstKilled();
    hide Reachable;
    var b := Hart(Some(1), KillDone);
    var s0 := St(At(Age(0)), b, HIT, RAN, HOLE).(poolLock := Some(1));
    var s1 := St(At(Age(1)), b, HIT, RAN, HOLE).(poolLock := Some(1));
    var s2 := St(At(Age(2)), b, HIT, RAN, HOLE).(poolLock := Some(1));
    var s3 := St(At(Age(3)), b, HIT, RAN, HOLE).(poolLock := Some(1));
    var s4 := St(At(START), b, HIT, RAN, HOLE).(poolLock := Some(1));
    Aged(s0, s1, 0, 0);
    Aged(s1, s2, 0, 1);
    Aged(s2, s3, 0, 2);
    Again(s3, s4, 0);
    Found(s4, St(At(Scan(1, Some(0))), b, HIT.(lock := Some(0)), RAN, HOLE).(poolLock := Some(1)), 0, 0);
  }

  const BACK: Proc := HIT.(state := RUNNING, chan := None)

  /** ... resumes it in sleep(), and it calls exit() with the tick lock held. */
  lemma KilledExits()
    ensures Reachable(St(Hart(Some(0), ExitLock(Some(Tick))), Hart(Some(1), KillDone), BACK, RAN, HOLE)
                      .(poolLock := Some(1), tickLock := Some(0)))
  {
    KilledFound();
    hide Reachable;
    var b, x := Hart(Some(1), KillDone), HIT.(lock := Some(0));
    var s0 := St(At(Scan(1, Some(0))), b, x, RAN, HOLE).(poolLock := Some(1));
    var s1 := St(At(Scan(2, Some(0))), b, x, RAN, HOLE).(poolLock := Some(1));
    var s2 := St(At(Scan(3, Some(0))), b, x, RAN, HOLE).(poolLock := Some(1));
    var s3 := St(Hart(Some(0), Relock(Tick)), b, BACK, RAN, HOLE).(poolLock := Some(1));
    var s4 := St(Hart(Some(0), ExitLock(Some(Tick))), b, BACK, RAN, HOLE).(poolLock := Some(1), tickLock := Some(0));
    Skipped(s0, s1, 0, 1, Some(0));
    Skipped(s1, s2, 0, 2, Some(0));
    Begins(s2, s3, 0, 0);
    Doomed(s3, s4, 0, 0, Tick);
  }

  /** Killing a sleeper can make sched() panic, with the tick lock held for ever. */
  lemma KillCanPanic()
    ensures exists s: State :: |s.harts| == 2 && Reachable(s) && s.harts[0] == Hart(Some(0), Panicked(Some(Tick)))
  {
    KilledExits();
    hide Reachable;
    var b, y := Hart(Some(1), KillDone), BACK.(state := ZOMBIE, lock := Some(0));
    var lk := Some(Tick);
    var s0 := St(Hart(Some(0), ExitLock(lk)), b, BACK, RAN, HOLE).(poolLock := Some(1), tickLock := Some(0));
    var s1 := St(Hart(Some(0), ExitWake(0, lk)), b, y, RAN, HOLE).(poolLock := Some(1), tickLock := Some(0));
    var s2 := St(Hart(Some(0), ExitWake(1, lk)), b, y, RAN, HOLE).(poolLock := Some(1), tickLock := Some(0));
    var s3 := St(Hart(Some(0), ExitWake(2, lk)), b, y, RAN, HOLE).(poolLock := Some(1), tickLock := Some(0));
    var s4 := St(Hart(Some(0), ExitWake(3, lk)), b, y, RAN, HOLE).(poolLock := Some(1), tickLock := Some(0));
    var s5 := St(Hart(Some(0), Panicked(lk)), b, y, RAN, HOLE).(poolLock := Some(1), tickLock := Some(0));
    Exits(s0, s1, 0, 0, lk);
    Wakes(s1, s2, 0, 0, 0, lk);
    Wakes(s2, s3, 0, 0, 1, lk);
    Wakes(s3, s4, 0, 0, 2, lk);
    ByLife(s4, s5, 0, 0);
  }

  // ------------------------------------------------------ a slot without a page table

  /** Process 1 exits and is gone. */
  lemma SecondLeaves()
    ensures Reachable(St(Hart(Some(0), Run), At(Age(0)), RAN, GONE, HOLE))
  {
    BothRun();
    hide Reachable;
    var a, q := Hart(Some(0), Run), Pr(ZOMBIE, Some(1));
    var s1 := St(a, Hart(Some(1), ExitLock(None)), RAN, RAN, HOLE);
    var s2 := St(a, Hart(Some(1), ExitWake(0, None)), RAN, q, HOLE);
    var s3 := St(a, Hart(Some(1), ExitWake(1, None)), RAN, q, HOLE);
    var s4 := St(a, Hart(Some(1), ExitWake(2, None)), RAN, q, HOLE);
    var s5 := St(a, Hart(Some(1), ExitWake(3, None)), RAN, q, HOLE);
    Calls(St(a, Hart(Some(1), Run), RAN, RAN, HOLE), s1, 1, 1);
    Exits(s1, s2, 1, 1, None);
    Wakes(s2, s3, 1, 1, 0, None);
    Wakes(s3, s4, 1, 1, 1, None);
    Wakes(s4, s5, 1, 1, 2, None);
    Leaves(s5, St(a, At(Age(0)), RAN, GONE, HOLE), 1, 1);
  }

  const CLEARED: Proc := Reaped(GONE)
  const HALF: Proc := CLEARED.(state := SLEEPING)
  const UP: Proc := HALF.(state := RUNNABLE, killed := true)

  /** Process 0 reaps it; a spawn() into the slot fails half-way. */
  lemma SlotStranded()
    ensures Reachable(St(Hart(Some(0), Run), At(Age(0)), RAN.(want := 1), HALF, HOLE))
  {
    SecondLeaves();
    hide Reachable;
    var b, p := At(Age(0)), RAN.(want := 1);
    var s1 := St(Hart(Some(0), Cond(Pool)), b, p, GONE, HOLE).(poolLock := Some(0));
    var s2 := St(Hart(Some(0), Run), b, p, CLEARED, HOLE);
    var s3 := St(Hart(Some(0), AllocPid(1)), b, p, CLEARED.(lock := Some(0)), HOLE);
    Takes(St(Hart(Some(0), Run), b, RAN, GONE, HOLE), s1, 0, 0, Pool, 1);
    Reaps(s1, s2, 0, 0, 1);
    Allocates(s2, s3, 0, 0, 1);
    Strands(s3, St(Hart(Some(0), Run), b, p, HALF, HOLE), 0, 0, 1);
  }

  /** kill() makes it runnable. */
  lemma SlotKilled()
    ensures Reachable(St(Hart(Some(0), KillDone), At(Age(0)), RAN.(want := 1), UP, HOLE).(poolLock := Some(0)))
  {
    SlotStranded();
    hide Reachable;
    var b, p := At(Age(0)), RAN.(want := 1);
    var s1 := St(Hart(Some(0), Cond(Pool)), b, p, HALF, HOLE).(poolLock := Some(0));
    var s2 := St(Hart(Some(0), KillLock(1)), b, p, HALF, HOLE).(poolLock := Some(0));
    Takes(St(Hart(Some(0), Run), b, p, HALF, HOLE), s1, 0, 0, Pool, 1);
    Hunts(s1, s2, 0, 0);
    Kills(s2, St(Hart(Some(0), KillDone), b, p, UP, HOLE).(poolLock := Some(0)), 0, 0, 1);
  }

  lemma SlotSought()
    ensures Reachable(St(Hart(Some(0), KillDone), At(START), RAN.(want := 1), UP, HOLE).(poolLock := Some(0)))
  {
    SlotKilled();
    hide Reachable;
    var a, p := Hart(Some(0), KillDone), RAN.(want := 1);
    var s0 := St(a, At(Age(0)), p, UP, HOLE).(poolLock := Some(0));
    var s1 := St(a, At(Age(1)), p, UP, HOLE).(poolLock := Some(0));
    var s2 := St(a, At(Age(2)), p, UP, HOLE).(poolLock := Some(0));
    var s3 := St(a, At(Age(3)), p, UP, HOLE).(poolLock := Some(0));
    Aged(s0, s1, 1, 0);
    Aged(s1, s2, 1, 1);
    Aged(s2, s3, 1, 2);
    Again(s3, St(a, At(START), p, UP, HOLE).(poolLock := Some(0)), 1);
  }

  /** Killing a slot that a failed spawn() left behind makes a hart load a null page table. */
  lemma KillCanFault()
    ensures exists s: State :: |s.harts| == 2 && Reachable(s) && s.harts[1] == Hart(Some(1), Faulted)
  {
    SlotSought();
    hide Reachable;
    var a, p, q := Hart(Some(0), KillDone), RAN.(want := 1), UP.(lock := Some(1));
    var s0 := St(a, At(START), p, UP, HOLE).(poolLock := Some(0));
    var s1 := St(a, At(Scan(1, None)), p, UP, HOLE).(poolLock := Some(0));
    var s2 := St(a, At(Scan(2, Some(1))), p, q, HOLE).(poolLock := Some(0));
    var s3 := St(a, At(Scan(3, Some(1))), p, q, HOLE).(poolLock := Some(0));
    var s4 := St(a, Hart(Some(1), Faulted), p, q.(state := RUNNING), HOLE).(poolLock := Some(0));
    Skipped(s0, s1, 1, 0, None);
    Found(s1, s2, 1, 1);
    Skipped(s2, s3, 1, 2, Some(1));
    Faults(s3, s4, 1, 1);
  }
}
