/**
  Spinlocks and nested interrupt disabling of kernelspace/lib/lock.c and
  kernelspace/core/intr.c, one step per memory operation.  Any number of harts take any
  number of locks, and are interrupted wherever interrupts are on.
 */
module SpinLock {
  import opened Wrappers

  /** lock->locked and lock->lock_count. */
  datatype Lock = Lock(locked: bool, owner: int)

  datatype PC =
    | Idle
    // push_off, on behalf of accquire_lock on j or on its own
    | PushRead(on: Option<nat>) | PushOff(on: Option<nat>, was: bool) | PushSave(on: Option<nat>, was: bool)
    | PushCount(on: Option<nat>)
    // the rest of accquire_lock
    | HoldLocked(j: nat) | HoldOwner(j: nat) | Spin(j: nat) | SetOwner(j: nat)
    // release_lock
    | RelLocked(j: nat) | RelOwner(j: nat) | ClearOwner(j: nat) | Unlock(j: nat)
    // pop_off
    | PopCheck | PopDec | PopOn
    | Panic

  /** What an interrupt suspends. */
  datatype Frame = Frame(pc: PC, base: bool)

  /** A hart: the interrupt-enable bit, cpus[id].nlock and .intena, its control point and
      suspended points.  `held` are the locks it has, `bare` counts its push_off calls without a
      lock, and `base` is the interrupt state outside all its critical sections. */
  datatype Hart =
    Hart(ie: bool, nlock: nat, intena: bool, pc: PC, frames: seq<Frame>, held: set<nat>, bare: nat, base: bool)

  datatype State = State(locks: seq<Lock>, harts: seq<Hart>)

  function SetH(s: State, h: nat, x: Hart): State
    requires h < |s.harts|
  {
    s.(harts := s.harts[h := x])
  }

  function SetL(s: State, j: nat, l: Lock): State
    requires j < |s.locks|
  {
    s.(locks := s.locks[j := l])
  }

  /** accquire_lock up to the exchange, including push_off. */
  function AcquireStep(s: State, h: nat): State
    requires h < |s.harts|
  {
    var x := s.harts[h];
    match x.pc
    case PushRead(on) => SetH(s, h, x.(pc := PushOff(on, x.ie)))
    case PushOff(on, was) => SetH(s, h, x.(ie := false, pc := PushSave(on, was)))
    case PushSave(on, was) => SetH(s, h, x.(intena := if x.nlock == 0 then was else x.intena, pc := PushCount(on)))
    case PushCount(on) =>
      (match on
       case Some(j) => SetH(s, h, x.(nlock := x.nlock + 1, pc := HoldLocked(j)))
       case None => SetH(s, h, x.(nlock := x.nlock + 1, bare := x.bare + 1, pc := Idle)))
    case HoldLocked(j) =>
      SetH(s, h, x.(pc := if j < |s.locks| && s.locks[j].locked then HoldOwner(j) else Spin(j)))
    case HoldOwner(j) =>
      SetH(s, h, x.(pc := if j < |s.locks| && s.locks[j].owner == h then Panic else Spin(j)))
    case Spin(j) =>
      if j < |s.locks| && !s.locks[j].locked
      then SetL(SetH(s, h, x.(pc := SetOwner(j))), j, s.locks[j].(locked := true)) else s
    case SetOwner(j) =>
      if j < |s.locks|
      then SetL(SetH(s, h, x.(pc := Idle, held := x.held + {j})), j, s.locks[j].(owner := h)) else s
    case _ => s
  }

  /** release_lock, including pop_off. */
  function ReleaseStep(s: State, h: nat): State
    requires h < |s.harts|
  {
    var x := s.harts[h];
    match x.pc
    case RelLocked(j) =>
      SetH(s, h, x.(pc := if j < |s.locks| && s.locks[j].locked then RelOwner(j) else Panic))
    case RelOwner(j) =>
      SetH(s, h, x.(pc := if j < |s.locks| && s.locks[j].owner == h then ClearOwner(j) else Panic))
    case ClearOwner(j) =>
      if j < |s.locks| then SetL(SetH(s, h, x.(pc := Unlock(j))), j, s.locks[j].(owner := -1)) else s
    case Unlock(j) =>
      if j < |s.locks|
      then SetL(SetH(s, h, x.(pc := PopCheck, held := x.held - {j})), j, s.locks[j].(locked := false)) else s
    case PopCheck => SetH(s, h, x.(pc := if x.ie || x.nlock < 1 then Panic else PopDec))
    case PopDec => if x.nlock < 1 then s else SetH(s, h, x.(nlock := x.nlock - 1, pc := PopOn))
    case PopOn => SetH(s, h, x.(ie := x.ie || (x.nlock == 0 && x.intena), pc := Idle))
    case _ => s
  }

  /** Starting a call, of a lock or of push_off and its pop_off alone, and switching
      interrupts outside all critical sections. */
  ghost predicate StartStep(s: State, s': State, h: nat)
    requires h < |s.harts|
  {
    var x := s.harts[h];
    && x.pc == Idle
    && (|| (exists j: nat ::
              && j < |s.locks|
              && (s' == SetH(s, h, x.(pc := PushRead(Some(j)))) || s' == SetH(s, h, x.(pc := RelLocked(j)))))
        || s' == SetH(s, h, x.(pc := PushRead(None)))
        || (x.bare > 0 && s' == SetH(s, h, x.(pc := PopCheck, bare := x.bare - 1)))
        || (x.nlock == 0 && exists b: bool :: s' == SetH(s, h, x.(ie := b, base := b))))
  }

  /** An interrupt, and its return. */
  ghost predicate TrapStep(s: State, s': State, h: nat)
    requires h < |s.harts|
  {
    var x := s.harts[h];
    || (x.pc != Panic && x.ie
        && s' == SetH(s, h, x.(ie := false, base := false, pc := Idle, frames := x.frames + [Frame(x.pc, x.base)])))
    || (x.pc == Idle && x.nlock == 0 && x.frames != []
        && var f := x.frames[|x.frames| - 1];
           s' == SetH(s, h, x.(ie := true, base := f.base, pc := f.pc, frames := x.frames[..|x.frames| - 1])))
  }

  ghost predicate Step(s: State, s': State, h: nat)
    requires h < |s.harts|
  {
    s' == AcquireStep(s, h) || s' == ReleaseStep(s, h) || StartStep(s, s', h) || TrapStep(s, s', h)
  }

  ghost predicate Next(s: State, s': State) {
    exists h: nat :: h < |s.harts| && Step(s, s', h)
  }

  /** Locks start free, with an owner field that is no hart's id. */
  ghost predicate Init(s: State) {
    && (forall j: nat :: j < |s.locks| ==> !s.locks[j].locked && !(0 <= s.locks[j].owner < |s.harts|))
    && (forall h: nat :: h < |s.harts| ==>
          && s.harts[h].pc == Idle && s.harts[h].nlock == 0 && s.harts[h].held == {} && s.harts[h].bare == 0
          && s.harts[h].frames == [] && s.harts[h].ie == s.harts[h].base)
  }

  ghost predicate IsRun(r: seq<State>) {
    |r| > 0 && Init(r[0]) && forall i :: 0 <= i < |r| - 1 ==> Next(r[i], r[i + 1])
  }

  // -------------------------------------------------------------------- invariant

  /** nlock counts this much beyond the locks held and the bare calls. */
  function Extra(pc: PC): nat {
    match pc
    case HoldLocked(_) => 1
    case HoldOwner(_) => 1
    case Spin(_) => 1
    case SetOwner(_) => 1
    case PopCheck => 1
    case PopDec => 1
    case _ => 0
  }

  /** Points where interrupts are as they are outside. */
  predicate Open(pc: PC) {
    pc.Idle? || pc.PushRead? || pc.PushOff? || pc.RelLocked? || pc.RelOwner?
  }

  /** The lock a point is about. */
  predicate About(pc: PC, n: nat) {
    match pc
    case PushRead(on) => on.Some? ==> on.value < n
    case PushOff(on, _) => on.Some? ==> on.value < n
    case PushSave(on, _) => on.Some? ==> on.value < n
    case PushCount(on) => on.Some? ==> on.value < n
    case HoldLocked(j) => j < n
    case HoldOwner(j) => j < n
    case Spin(j) => j < n
    case SetOwner(j) => j < n
    case RelLocked(j) => j < n
    case RelOwner(j) => j < n
    case ClearOwner(j) => j < n
    case Unlock(j) => j < n
    case _ => true
  }

  ghost predicate FrameOk(f: Frame, n: nat) {
    f.base && Open(f.pc) && (f.pc.PushOff? ==> f.pc.was) && About(f.pc, n)
  }

  /** What a hart that has not panicked may rely on, besides the locks. */
  ghost predicate PointOk(x: Hart) {
    && x.nlock == |x.held| + x.bare + Extra(x.pc)
    && (x.nlock > 0 || !Open(x.pc) ==> !x.ie)
    && (x.nlock == 0 && Open(x.pc) ==> x.ie == x.base)
    && (x.nlock > 0 || x.pc.PushCount? || x.pc.PopOn? ==> x.intena == x.base)
    && (x.nlock == 0 && (x.pc.PushOff? || x.pc.PushSave?) ==> x.pc.was == x.base)
    && (x.pc.Spin? || x.pc.SetOwner? ==> x.pc.j !in x.held)
    && (x.pc.ClearOwner? || x.pc.Unlock? ==> x.pc.j in x.held)
  }

  /** n is the number of locks. */
  ghost predicate HartOk(x: Hart, n: nat) {
    && (x.pc != Panic ==> PointOk(x))
    && About(x.pc, n) && (forall k: nat :: k < |x.frames| ==> FrameOk(x.frames[k], n))
  }

  /** Hart x is inside lock j. */
  ghost predicate Owns(x: Hart, j: nat) {
    j in x.held || x.pc == SetOwner(j)
  }

  ghost predicate LockOk(s: State, j: nat)
    requires j < |s.locks|
  {
    && (forall h: nat :: h < |s.harts| && Owns(s.harts[h], j) ==> s.locks[j].locked)
    && (forall h: nat, k: nat :: h < |s.harts| && k < |s.harts| && Owns(s.harts[h], j) && Owns(s.harts[k], j) ==>
          h == k)
    && (forall h: nat :: h < |s.harts| ==>
          (s.locks[j].owner == h <==> j in s.harts[h].held && s.harts[h].pc != Unlock(j)))
    && (s.locks[j].locked ==> exists h: nat :: h < |s.harts| && Owns(s.harts[h], j))
  }

  ghost predicate Inv(s: State) {
    && (forall h: nat :: h < |s.harts| ==> HartOk(s.harts[h], |s.locks|))
    && (forall j: nat :: j < |s.locks| ==> LockOk(s, j))
  }

  lemma InitInv(s: State)
    requires Init(s)
    ensures Inv(s)
  {
  }

  /** A step of hart h that changes no lock and neither what it owns nor whether it is at
      an unlock. */
  lemma LockFrame(s: State, s': State, h: nat, j: nat)
    requires j < |s.locks| && LockOk(s, j) && h < |s.harts|
    requires |s'.harts| == |s.harts| && |s'.locks| == |s.locks| && s'.locks[j] == s.locks[j]
    requires forall k: nat :: k < |s.harts| && k != h ==> s'.harts[k] == s.harts[k]
    requires Owns(s'.harts[h], j) <==> Owns(s.harts[h], j)
    requires (j in s'.harts[h].held && s'.harts[h].pc != Unlock(j))
             <==> (j in s.harts[h].held && s.harts[h].pc != Unlock(j))
    ensures LockOk(s', j)
  {
    hide Owns;
    if s.locks[j].locked {
      var k: nat :| k < |s.harts| && Owns(s.harts[k], j);
      assert Owns(s'.harts[k], j);
    }
  }

  /** Everything that leaves the locks alone. */
  lemma LocalKeeps(s: State, s': State, h: nat)
    requires Inv(s) && h < |s.harts| && s'.locks == s.locks && |s'.harts| == |s.harts|
    requires forall k: nat :: k < |s.harts| && k != h ==> s'.harts[k] == s.harts[k]
    requires HartOk(s'.harts[h], |s'.locks|) && s'.harts[h].held == s.harts[h].held
    requires !s.harts[h].pc.Unlock? && !s'.harts[h].pc.Unlock? && !s.harts[h].pc.SetOwner? && !s'.harts[h].pc.SetOwner?
    ensures Inv(s')
  {
    hide HartOk;
    forall j: nat | j < |s'.locks|
      ensures LockOk(s', j)
    {
      assert LockOk(s, j);
      hide LockOk;
      LockFrame(s, s', h, j);
    }
  }

  /** A step that changes lock j: the other locks are not concerned. */
  lemma OthersKeep(s: State, s': State, h: nat, j: nat)
    requires Inv(s) && h < |s.harts| && j < |s.locks| && |s'.harts| == |s.harts| && |s'.locks| == |s.locks|
    requires forall k: nat :: k < |s.harts| && k != h ==> s'.harts[k] == s.harts[k]
    requires forall k: nat :: k < |s.locks| && k != j ==> s'.locks[k] == s.locks[k]
    requires forall k: nat :: k != j ==> (k in s'.harts[h].held <==> k in s.harts[h].held)
    requires (s.harts[h].pc.SetOwner? || s.harts[h].pc.Unlock?) ==> s.harts[h].pc.j == j
    requires (s'.harts[h].pc.SetOwner? || s'.harts[h].pc.Unlock?) ==> s'.harts[h].pc.j == j
    requires HartOk(s'.harts[h], |s'.locks|) && LockOk(s', j)
    ensures Inv(s')
  {
    hide HartOk;
    forall k: nat | k < |s'.locks|
      ensures LockOk(s', k)
    {
      if k != j {
        assert LockOk(s, k);
        hide LockOk;
        LockFrame(s, s', h, k);
      }
    }
  }

  lemma AcquireKeeps(s: State, h: nat)
    requires Inv(s) && h < |s.harts|
    ensures Inv(AcquireStep(s, h))
  {
    var s' := AcquireStep(s, h);
    var x := s.harts[h];
    assert HartOk(x, |s.locks|);
    match x.pc
    case Spin(j) =>
      SpinKeeps(s, h, j);
    case SetOwner(j) =>
      OwnerKeeps(s, h, j);
    case PushRead(on) =>
      hide Inv;
      LocalKeeps(s, s', h);
    case PushOff(on, was) =>
      hide Inv;
      LocalKeeps(s, s', h);
    case PushSave(on, was) =>
      hide Inv;
      LocalKeeps(s, s', h);
    case PushCount(on) =>
      hide Inv;
      LocalKeeps(s, s', h);
    case HoldLocked(j) =>
      HoldKeeps(s, h, j);
    case HoldOwner(j) =>
      HoldKeeps(s, h, j);
    case _ =>
  }

  /** holding() tells correctly whether hart h has lock j. */
  lemma HoldingExact(s: State, h: nat, j: nat)
    requires Inv(s) && h < |s.harts| && j < |s.locks| && s.harts[h].pc != Unlock(j) && s.harts[h].pc != SetOwner(j)
    ensures s.locks[j].locked && s.locks[j].owner == h <==> j in s.harts[h].held
    ensures s.locks[j].owner == h ==> s.locks[j].locked
  {
    assert LockOk(s, j);
    assert j in s.harts[h].held ==> Owns(s.harts[h], j);
  }

  lemma HoldKeeps(s: State, h: nat, j: nat)
    requires Inv(s) && h < |s.harts| && (s.harts[h].pc == HoldLocked(j) || s.harts[h].pc == HoldOwner(j))
    ensures Inv(AcquireStep(s, h))
  {
    assert HartOk(s.harts[h], |s.locks|);
    HoldingExact(s, h, j);
    hide Inv;
    LocalKeeps(s, AcquireStep(s, h), h);
  }

  /** The exchange lets in one hart at most. */
  lemma SpinKeeps(s: State, h: nat, j: nat)
    requires Inv(s) && h < |s.harts| && s.harts[h].pc == Spin(j)
    ensures Inv(AcquireStep(s, h))
  {
    var s' := AcquireStep(s, h);
    assert HartOk(s.harts[h], |s.locks|);
    assert LockOk(s, j);
    if !s.locks[j].locked {
      assert Owns(s'.harts[h], j);
      assert LockOk(s', j);
      hide Inv;
      hide LockOk;
      OthersKeep(s, s', h, j);
    }
  }

  lemma OwnerKeeps(s: State, h: nat, j: nat)
    requires Inv(s) && h < |s.harts| && s.harts[h].pc == SetOwner(j)
    ensures Inv(AcquireStep(s, h))
  {
    var s' := AcquireStep(s, h);
    assert HartOk(s.harts[h], |s.locks|);
    assert LockOk(s, j);
    assert Owns(s.harts[h], j) && Owns(s'.harts[h], j);
    assert LockOk(s', j);
    hide Inv;
    hide LockOk;
    OthersKeep(s, s', h, j);
  }

  lemma ReleaseKeeps(s: State, h: nat)
    requires Inv(s) && h < |s.harts|
    ensures Inv(ReleaseStep(s, h))
  {
    var s' := ReleaseStep(s, h);
    var x := s.harts[h];
    assert HartOk(x, |s.locks|);
    match x.pc
    case RelLocked(j) =>
      HoldingExact(s, h, j);
      hide Inv;
      LocalKeeps(s, s', h);
    case RelOwner(j) =>
      HoldingExact(s, h, j);
      hide Inv;
      LocalKeeps(s, s', h);
    case ClearOwner(j) =>
      ClearKeeps(s, h, j);
    case Unlock(j) =>
      UnlockKeeps(s, h, j);
    case PopCheck =>
      hide Inv;
      LocalKeeps(s, s', h);
    case PopDec =>
      hide Inv;
      LocalKeeps(s, s', h);
    case PopOn =>
      hide Inv;
      LocalKeeps(s, s', h);
    case _ =>
  }

  lemma ClearKeeps(s: State, h: nat, j: nat)
    requires Inv(s) && h < |s.harts| && s.harts[h].pc == ClearOwner(j)
    ensures Inv(ReleaseStep(s, h))
  {
    var s' := ReleaseStep(s, h);
    assert HartOk(s.harts[h], |s.locks|);
    assert LockOk(s, j);
    assert Owns(s.harts[h], j) && Owns(s'.harts[h], j);
    assert LockOk(s', j);
    hide Inv;
    hide LockOk;
    OthersKeep(s, s', h, j);
  }

  lemma UnlockKeeps(s: State, h: nat, j: nat)
    requires Inv(s) && h < |s.harts| && s.harts[h].pc == Unlock(j)
    ensures Inv(ReleaseStep(s, h))
  {
    var s' := ReleaseStep(s, h);
    assert HartOk(s.harts[h], |s.locks|);
    assert LockOk(s, j);
    assert Owns(s.harts[h], j);
    assert |s'.harts[h].held| == |s.harts[h].held| - 1;
    assert LockOk(s', j);
    hide Inv;
    hide LockOk;
    OthersKeep(s, s', h, j);
  }

  lemma StartKeeps(s: State, s': State, h: nat)
    requires Inv(s) && h < |s.harts| && StartStep(s, s', h)
    ensures Inv(s')
  {
    assert HartOk(s.harts[h], |s.locks|);
    hide Inv;
    LocalKeeps(s, s', h);
  }

  lemma TrapKeeps(s: State, s': State, h: nat)
    requires Inv(s) && h < |s.harts| && TrapStep(s, s', h)
    ensures Inv(s')
  {
    assert HartOk(s.harts[h], |s.locks|);
    hide Inv;
    var x, y := s.harts[h], s'.harts[h];
    assert |y.frames| > |x.frames| ==> y.frames == x.frames + [Frame(x.pc, x.base)];
    assert |y.frames| < |x.frames| ==> FrameOk(x.frames[|x.frames| - 1], |s.locks|);
    LocalKeeps(s, s', h);
  }

  lemma NextKeeps(s: State, s': State)
    requires Inv(s) && Next(s, s')
    ensures Inv(s')
  {
    hide Inv;
    var h: nat :| h < |s.harts| && Step(s, s', h);
    hide StartStep;
    hide TrapStep;
    hide AcquireStep;
    hide ReleaseStep;
    if s' == AcquireStep(s, h) {
      AcquireKeeps(s, h);
    } else if s' == ReleaseStep(s, h) {
      ReleaseKeeps(s, h);
    } else if StartStep(s, s', h) {
      StartKeeps(s, s', h);
    } else {
      TrapKeeps(s, s', h);
    }
  }

  lemma {:induction false} RunInv(r: seq<State>, i: nat)
    requires IsRun(r) && i < |r|
    ensures Inv(r[i])
    decreases i
  {
    hide Inv;
    hide Next;
    if i == 0 {
      InitInv(r[0]);
    } else {
      RunInv(r, i - 1);
      assert Next(r[i - 1], r[i - 1 + 1]);
      NextKeeps(r[i - 1], r[i]);
    }
  }

  // --------------------------------------------------------------------- theorems

  /** Over every run: at most one hart is inside a lock, and a lock that some hart is
      inside is marked locked. */
  lemma MutualExclusion(r: seq<State>, i: nat, j: nat, h: nat, k: nat)
    requires IsRun(r) && i < |r| && j < |r[i].locks| && h < |r[i].harts| && k < |r[i].harts|
    requires Owns(r[i].harts[h], j) && Owns(r[i].harts[k], j)
    ensures h == k && r[i].locks[j].locked
  {
    RunInv(r, i);
    assert LockOk(r[i], j);
  }

  /** accquire_lock panics iff the hart has the lock already, and release_lock iff it does
      not have it: at the second read of holding() the answer is right. */
  lemma PanicsRightly(r: seq<State>, i: nat, h: nat, j: nat)
    requires IsRun(r) && i < |r| && h < |r[i].harts|
    ensures r[i].harts[h].pc == HoldOwner(j) ==>
              (AcquireStep(r[i], h).harts[h].pc == Panic <==> j in r[i].harts[h].held)
    ensures r[i].harts[h].pc == RelOwner(j) ==>
              (ReleaseStep(r[i], h).harts[h].pc == Panic <==> j !in r[i].harts[h].held)
    ensures r[i].harts[h].pc == HoldLocked(j) && j in r[i].harts[h].held ==>
              AcquireStep(r[i], h).harts[h].pc == HoldOwner(j)
    ensures r[i].harts[h].pc == RelLocked(j) && j in r[i].harts[h].held ==>
              ReleaseStep(r[i], h).harts[h].pc == RelOwner(j)
    ensures r[i].harts[h].pc == PopCheck ==> ReleaseStep(r[i], h).harts[h].pc == PopDec
  {
    RunInv(r, i);
    assert HartOk(r[i].harts[h], |r[i].locks|);
    if About(HoldOwner(j), |r[i].locks|) && r[i].harts[h].pc != Unlock(j) && r[i].harts[h].pc != SetOwner(j) {
      HoldingExact(r[i], h, j);
    }
  }

  /** Interrupts stay off while nlock > 0, nlock counts the locks held and the push_off calls
      without a lock, and after the last pop_off interrupts are as they were before the first
      push_off, whatever the nesting. */
  lemma InterruptsRestored(r: seq<State>, i: nat, h: nat)
    requires IsRun(r) && i < |r| && h < |r[i].harts| && r[i].harts[h].pc != Panic
    ensures r[i].harts[h].nlock > 0 ==> !r[i].harts[h].ie
    ensures r[i].harts[h].pc == Idle ==> r[i].harts[h].nlock == |r[i].harts[h].held| + r[i].harts[h].bare
    ensures r[i].harts[h].pc == Idle && r[i].harts[h].held == {} && r[i].harts[h].bare == 0 ==>
              r[i].harts[h].ie == r[i].harts[h].base
  {
    RunInv(r, i);
    assert HartOk(r[i].harts[h], |r[i].locks|);
  }

  /** What `base` stands for cannot change inside a critical section. */
  lemma BaseKept(r: seq<State>, i: nat, h: nat)
    requires IsRun(r) && i + 1 < |r| && h < |r[i].harts| && r[i].harts[h].nlock > 0 && r[i].harts[h].pc != Panic
    ensures |r[i + 1].harts| == |r[i].harts| && r[i + 1].harts[h].base == r[i].harts[h].base
  {
    RunInv(r, i);
    assert HartOk(r[i].harts[h], |r[i].locks|);
    assert Next(r[i], r[i + 1]);
  }
}
