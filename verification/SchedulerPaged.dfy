/**
  Slots without a page table: a failed allocproc() leaves one SLEEPING, and kill() can make it
  runnable.  A hart that dispatches it loads a null page table and is lost.
 */
module SchedulerPaged {
  import opened Wrappers
  import opened Scheduler
  import opened SchedulerInv
  import opened SchedulerWait
  import opened SchedulerMiss

  /** Runnable or running without a page table. */
  ghost predicate Bare(s: State, p: nat) {
    p < |s.procs| && (s.procs[p].state == RUNNABLE || s.procs[p].state == RUNNING) && !s.procs[p].paged
  }

  /** A slot whose process runs, can run or sleeps on a channel has a page table. */
  predicate PagedOk(x: Proc) {
    && (x.state == RUNNABLE || x.state == RUNNING ==> x.paged)
    && (x.state == SLEEPING && x.chan.Some? ==> x.paged)
    && (x.state == UNUSED ==> !x.paged)
  }

  /** Hart h is in kill() with slot p locked, which sleeps without a page table. */
  ghost predicate Stranded(s: State, h: nat, p: nat) {
    && h < |s.harts| && p < |s.procs| && s.harts[h].pc == KillHold(p)
    && s.procs[p].state == SLEEPING && !s.procs[p].paged
  }

  // -------------------------------------------------------------------- one step

  /** What a step of hart h does to the PCB q it touches. */
  ghost predicate PageTurn(s: State, s': State, h: nat, q: nat) {
    && q < |s.procs| && q < |s'.procs| && h < |s.harts| && h < |s'.harts|
    && (Bare(s, q) && !Bare(s', q) ==> q in Held(s.harts[h]))
    && (s'.harts[h].pc == Faulted ==> s'.harts[h].proc == Some(q) && Bare(s', q) && s.harts[h].pc != Faulted)
    && (PagedOk(s.procs[q]) ==> PagedOk(s'.procs[q]) || Stranded(s, h, q))
    && (Stranded(s, h, q) ==> Bare(s', q))
  }

  predicate InWait(pc: PC) { pc.CondLock? || pc.Cond? || pc.CondDone? || pc.Relock? || pc.Woke? }

  lemma SearchPage(s: State, s': State, h: nat)
    requires h < |s.harts| && PointOk(s, s.harts[h]) && |s.procs| > 0 && SchedulerStep(s, s', h)
    ensures OnlyHart(s, s', h) && PageTurn(s, s', h, Target(s.harts[h], s'.harts[h]))
  {
  }

  lemma HandlerPage(s: State, s': State, h: nat)
    requires h < |s.harts| && PointOk(s, s.harts[h]) && |s.procs| > 0
    requires HandlerStep(s, s', h) || InterruptStep(s, s', h)
    ensures OnlyHart(s, s', h) && PageTurn(s, s', h, Target(s.harts[h], s'.harts[h]))
  {
  }

  lemma WaitPage(s: State, s': State, h: nat, p: nat)
    requires h < |s.harts| && PointOk(s, s.harts[h]) && p < |s.procs| && s.harts[h].proc == Some(p)
    requires ThreadStep(s, s', h, p)
    requires InWait(s.harts[h].pc)
    ensures OnlyHart(s, s', h) && PageTurn(s, s', h, Target(s.harts[h], s'.harts[h]))
  {
    hide CondTrue;
    hide Held;
  }

  lemma RunPage(s: State, s': State, h: nat, p: nat)
    requires h < |s.harts| && PointOk(s, s.harts[h]) && p < |s.procs| && s.harts[h].proc == Some(p)
    requires ThreadStep(s, s', h, p)
    requires !InWait(s.harts[h].pc)
    ensures OnlyHart(s, s', h) && PageTurn(s, s', h, Target(s.harts[h], s'.harts[h]))
  {
  }

  lemma ThreadPage(s: State, s': State, h: nat, p: nat)
    requires h < |s.harts| && PointOk(s, s.harts[h]) && p < |s.procs| && s.harts[h].proc == Some(p)
    requires ThreadStep(s, s', h, p)
    ensures OnlyHart(s, s', h) && PageTurn(s, s', h, Target(s.harts[h], s'.harts[h]))
  {
    hide *;
    if InWait(s.harts[h].pc) {
      WaitPage(s, s', h, p);
    } else {
      RunPage(s, s', h, p);
    }
  }

  lemma ExitPage(s: State, s': State, h: nat, p: nat)
    requires h < |s.harts| && PointOk(s, s.harts[h]) && p < |s.procs| && s.harts[h].proc == Some(p)
    requires LifeStep(s, s', h, p)
    requires InExit(s.harts[h].pc)
    ensures OnlyHart(s, s', h) && PageTurn(s, s', h, Target(s.harts[h], s'.harts[h]))
  {
  }

  lemma ReapPage(s: State, s': State, h: nat, p: nat)
    requires h < |s.harts| && PointOk(s, s.harts[h]) && p < |s.procs| && s.harts[h].proc == Some(p)
    requires LifeStep(s, s', h, p)
    requires Reaping(s.harts[h].pc)
    ensures OnlyHart(s, s', h) && PageTurn(s, s', h, Target(s.harts[h], s'.harts[h]))
  {
  }

  lemma FillPage(s: State, s': State, h: nat, p: nat)
    requires h < |s.harts| && PointOk(s, s.harts[h]) && p < |s.procs| && s.harts[h].proc == Some(p)
    requires LifeStep(s, s', h, p)
    requires s.harts[h].pc.AllocFill?
    ensures OnlyHart(s, s', h) && PageTurn(s, s', h, Target(s.harts[h], s'.harts[h]))
  {
    var i := s.harts[h].pc.i;
    var x :| Filled(s.procs[i], x) && Releases(s, s', h, i, x, Run);
    hide LifeStep;
    assert s'.procs[i] == x.(lock := None);
    assert i in Held(s.harts[h]);
  }

  lemma SlotPage(s: State, s': State, h: nat, p: nat)
    requires h < |s.harts| && PointOk(s, s.harts[h]) && p < |s.procs| && s.harts[h].proc == Some(p)
    requires LifeStep(s, s', h, p)
    requires !InExit(s.harts[h].pc) && !Reaping(s.harts[h].pc) && !s.harts[h].pc.AllocFill?
    ensures OnlyHart(s, s', h) && PageTurn(s, s', h, Target(s.harts[h], s'.harts[h]))
  {
  }

  lemma LifePage(s: State, s': State, h: nat, p: nat)
    requires h < |s.harts| && PointOk(s, s.harts[h]) && p < |s.procs| && s.harts[h].proc == Some(p)
    requires LifeStep(s, s', h, p)
    ensures OnlyHart(s, s', h) && PageTurn(s, s', h, Target(s.harts[h], s'.harts[h]))
  {
    hide *;
    if InExit(s.harts[h].pc) {
      ExitPage(s, s', h, p);
    } else if Reaping(s.harts[h].pc) {
      ReapPage(s, s', h, p);
    } else if s.harts[h].pc.AllocFill? {
      FillPage(s, s', h, p);
    } else {
      SlotPage(s, s', h, p);
    }
  }

  lemma KillPage(s: State, s': State, h: nat, p: nat)
    requires h < |s.harts| && PointOk(s, s.harts[h]) && p < |s.procs| && s.harts[h].proc == Some(p)
    requires KillStep(s, s', h, p)
    ensures OnlyHart(s, s', h) && PageTurn(s, s', h, Target(s.harts[h], s'.harts[h]))
  {
  }

  lemma StepPage(s: State, s': State, h: nat)
    requires Inv(s) && h < |s.harts| && HartStep(s, s', h)
    ensures |s'.harts| == |s.harts|
    ensures Local(s, s', h, Target(s.harts[h], s'.harts[h])) && PageTurn(s, s', h, Target(s.harts[h], s'.harts[h]))
  {
    StepTurn(s, s', h);
    assert PointOk(s, s.harts[h]) && |s.procs| > 0;
    assert Turn(s, s', h, Target(s.harts[h], s'.harts[h])) ==> Local(s, s', h, Target(s.harts[h], s'.harts[h]));
    if !SchedulerStep(s, s', h) && !HandlerStep(s, s', h) && !InterruptStep(s, s', h) {
      var p := s.harts[h].proc.value;
      assert ThreadStep(s, s', h, p) || LifeStep(s, s', h, p) || KillStep(s, s', h, p);
      hide *;
      if ThreadStep(s, s', h, p) {
        ThreadPage(s, s', h, p);
      } else if LifeStep(s, s', h, p) {
        LifePage(s, s', h, p);
      } else {
        KillPage(s, s', h, p);
      }
    } else {
      hide *;
      if SchedulerStep(s, s', h) {
        SearchPage(s, s', h);
      } else {
        HandlerPage(s, s', h);
      }
    }
  }

  /** Any slot stays in order unless kill() hits it stranded ... */
  lemma PageStep(s: State, s': State, p: nat)
    requires Inv(s) && Next(s, s') && p < |s.procs| && PagedOk(s.procs[p])
    ensures |s'.procs| == |s.procs|
    ensures PagedOk(s'.procs[p]) || exists h: nat :: Stranded(s, h, p) && Moved(s, s', h)
  {
    var m: nat :| m < |s.harts| && HartStep(s, s', m);
    StepPage(s, s', m);
    hide Inv;
    hide Target;
    hide PagedOk;
    hide Held;
    if !PagedOk(s'.procs[p]) {
      KillMovesOn(s, s', m, p);
    }
  }

  lemma StrandedTarget(s: State, s': State, h: nat, p: nat)
    requires Stranded(s, h, p) && h < |s'.harts|
    ensures Target(s.harts[h], s'.harts[h]) == p
  {
  }

  /** ... and then it is bare. */
  lemma BareStep(s: State, s': State, p: nat, h: nat)
    requires Inv(s) && Next(s, s') && Stranded(s, h, p) && Moved(s, s', h)
    ensures Bare(s', p)
  {
    hide Inv;
    hide HartStep;
    hide Target;
    hide PagedOk;
    hide Held;
    var m: nat :| m < |s.harts| && HartStep(s, s', m);
    OneMoves(s, s', m);
    assert m == h;
    StrandedTarget(s, s', h, p);
    StepPage(s, s', h);
  }

  lemma KillMovesOn(s: State, s': State, m: nat, p: nat)
    requires m < |s.harts| && HartStep(s, s', m) && s.harts[m].pc == KillHold(p)
    ensures Moved(s, s', m)
  {
  }

  // ------------------------------------------------------------------- whole runs

  /** Between states j and j + 1 kill() makes the stranded slot p runnable. */
  ghost predicate StrayKill(r: seq<State>, j: nat, p: nat) {
    j + 1 < |r| && exists h: nat :: Stranded(r[j], h, p) && Moved(r[j], r[j + 1], h)
  }

  lemma {:induction false} InOrder(r: seq<State>, i: nat, p: nat)
    requires IsRun(r) && i < |r| && p < |r[0].procs| && forall j: nat :: j < i ==> !StrayKill(r, j, p)
    ensures |r[i].procs| == |r[0].procs| && PagedOk(r[i].procs[p])
    decreases i
  {
    if i > 0 {
      InOrder(r, i - 1, p);
      RunInv(r, i - 1);
      assert Next(r[i - 1], r[i - 1 + 1]);
      hide Inv;
      hide Next;
      hide PagedOk;
      hide Stranded;
      PageStep(r[i - 1], r[i], p);
      assert !StrayKill(r, i - 1, p);
    }
  }

  lemma SlotsNext(s: State, s': State)
    requires Next(s, s')
    ensures |s'.procs| == |s.procs| && |s'.harts| == |s.harts|
  {
    hide HartStep;
    var m: nat :| m < |s.harts| && HartStep(s, s', m);
    OneMoves(s, s', m);
  }

  lemma {:induction false} SameSlots(r: seq<State>, i: nat)
    requires IsRun(r) && i < |r|
    ensures |r[i].procs| == |r[0].procs|
    decreases i
  {
    hide Next;
    hide Init;
    if i > 0 {
      SameSlots(r, i - 1);
      assert Next(r[i - 1], r[i - 1 + 1]);
      SlotsNext(r[i - 1], r[i]);
    }
  }

  lemma StrayBares(r: seq<State>, j: nat, p: nat)
    requires IsRun(r) && StrayKill(r, j, p)
    ensures j + 1 < |r| && Bare(r[j + 1], p)
  {
    RunInv(r, j);
    assert Next(r[j], r[j + 1]);
    hide Inv;
    hide Next;
    hide Bare;
    var h: nat :| Stranded(r[j], h, p) && Moved(r[j], r[j + 1], h);
    BareStep(r[j], r[j + 1], p, h);
  }

  /** Over every run: a slot is runnable or running without a page table at some time up to i iff
      kill() hit it before, stranded. */
  lemma BareIff(r: seq<State>, i: nat, p: nat)
    requires IsRun(r) && i < |r|
    ensures (exists k: nat :: k <= i && Bare(r[k], p)) <==> (exists j: nat :: j < i && StrayKill(r, j, p))
  {
    if j: nat :| j < i && StrayKill(r, j, p) {
      StrayBares(r, j, p);
    } else if k: nat :| k <= i && Bare(r[k], p) {
      SameSlots(r, k);
      InOrder(r, k, p);
    }
  }

  /** Over every run: a hart that has dispatched a slot without a page table stays lost, with the
      slot locked. */
  lemma {:induction false} FaultForever(r: seq<State>, i: nat, k: nat, h: nat)
    requires IsRun(r) && i <= k < |r| && h < |r[i].harts| && r[i].harts[h].pc == Faulted
    ensures h < |r[k].harts| && r[k].harts[h] == r[i].harts[h]
    ensures r[i].harts[h].proc.Some? && r[i].harts[h].proc.value < |r[k].procs|
    ensures r[k].procs[r[i].harts[h].proc.value].lock == Some(h)
    decreases k
  {
    hide Next;
    hide Init;
    RunInv(r, k);
    hide Inv;
    if i < k {
      FaultForever(r, i, k - 1, h);
      assert Next(r[k - 1], r[k - 1 + 1]);
      FaultNext(r[k - 1], r[k], h);
    }
    FaultedHolds(r[k], h);
  }

  lemma FaultNext(s: State, s': State, h: nat)
    requires Next(s, s') && h < |s.harts| && s.harts[h].pc == Faulted
    ensures h < |s'.harts| && s'.harts[h] == s.harts[h]
  {
    hide HartStep;
    var m: nat :| m < |s.harts| && HartStep(s, s', m);
    OneMoves(s, s', m);
    FaultedStays(s, s', m);
  }

  lemma FaultedStays(s: State, s': State, m: nat)
    requires m < |s.harts| && HartStep(s, s', m)
    ensures s.harts[m].pc != Faulted
  {
  }

  lemma FaultedHolds(s: State, h: nat)
    requires Inv(s) && h < |s.harts| && s.harts[h].pc == Faulted
    ensures s.harts[h].proc.Some? && s.harts[h].proc.value < |s.procs|
    ensures s.procs[s.harts[h].proc.value].lock == Some(h)
  {
    assert PointOk(s, s.harts[h]);
  }

  // ------------------------------------------------------------------ lost harts

  ghost predicate FaultOk(s: State) {
    forall h: nat :: h < |s.harts| && s.harts[h].pc == Faulted ==>
      s.harts[h].proc.Some? && Bare(s, s.harts[h].proc.value)
  }

  lemma FaultOkNext(s: State, s': State)
    requires Inv(s) && FaultOk(s) && Next(s, s')
    ensures FaultOk(s')
  {
    var m: nat :| m < |s.harts| && HartStep(s, s', m);
    StepPage(s, s', m);
    hide HartStep;
    forall h: nat | h < |s'.harts| && s'.harts[h].pc == Faulted
      ensures s'.harts[h].proc.Some? && Bare(s', s'.harts[h].proc.value)
    {
      if h != m {
        FaultedHolds(s, h);
        NotHeld(s, h, m, s.harts[h].proc.value);
      }
    }
  }

  lemma NotHeld(s: State, h: nat, m: nat, p: nat)
    requires Inv(s) && h < |s.harts| && m < |s.harts| && m != h && p < |s.procs| && s.procs[p].lock == Some(h)
    ensures p !in Held(s.harts[m])
  {
  }

  lemma {:induction false} RunFaultOk(r: seq<State>, i: nat)
    requires IsRun(r) && i < |r|
    ensures FaultOk(r[i])
    decreases i
  {
    hide Next;
    if i > 0 {
      RunFaultOk(r, i - 1);
      RunInv(r, i - 1);
      hide FaultOk;
      hide Inv;
      assert Next(r[i - 1], r[i - 1 + 1]);
      FaultOkNext(r[i - 1], r[i]);
    }
  }

  /** Over every run: a hart is lost only on a slot that kill() hit before, stranded. */
  lemma FaultNeedsKill(r: seq<State>, i: nat, h: nat, p: nat)
    requires IsRun(r) && i < |r| && h < |r[i].harts| && r[i].harts[h] == Hart(Some(p), Faulted)
    ensures exists j: nat :: j < i && StrayKill(r, j, p)
  {
    RunFaultOk(r, i);
    BareIff(r, i, p);
  }
}
