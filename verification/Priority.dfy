/**
  Priorities of kernelspace/core/process.c on one hart: the choice of the scheduler's
  search loop, the charge for running, aging, and the bonus of wakeup.
 */
module Priority {
  import opened Wrappers

  datatype Pcb = Pcb(runnable: bool, pid: nat, prio: int, usage: nat, skipped: nat)

  const BASE_EFF_PRIO: int := 10

  /** a is chosen over b, or is b. */
  predicate Beats(a: Pcb, b: Pcb) {
    a.prio > b.prio || (a.prio == b.prio && a.pid <= b.pid)
  }

  ghost predicate IsBest(s: seq<Pcb>, b: nat) {
    b < |s| && s[b].runnable && forall k: nat :: k < |s| && s[k].runnable ==> Beats(s[b], s[k])
  }

  /** The search loop: the runnable process of greatest effective priority, then least pid;
      none iff nothing is runnable. */
  method Search(s: seq<Pcb>) returns (best: Option<nat>)
    ensures best.None? <==> forall k: nat :: k < |s| ==> !s[k].runnable
    ensures best.Some? ==> IsBest(s, best.value)
    ensures best.Some? ==> s[best.value].runnable && forall k: nat :: k < |s| && s[k].runnable ==>
                s[k].prio < s[best.value].prio || (s[k].prio == s[best.value].prio && s[best.value].pid <= s[k].pid)
  {
    best := None;
    var i := 0;
    while i < |s|
      invariant i <= |s|
      invariant best.None? ==> forall k: nat :: k < i ==> !s[k].runnable
      invariant best.Some? ==>
                && best.value < i
                && s[best.value].runnable
                && forall k: nat :: k < i && s[k].runnable ==> Beats(s[best.value], s[k])
    {
      if s[i].runnable {
        if best.None? || s[i].prio > s[best.value].prio {
          best := Some(i);
        } else if s[i].prio == s[best.value].prio && s[i].pid < s[best.value].pid {
          best := Some(i);
        }
      }
      i := i + 1;
    }
  }

  /** With distinct pids the choice is unique. */
  lemma BestUnique(s: seq<Pcb>, a: nat, b: nat)
    requires IsBest(s, a) && IsBest(s, b) && (a != b ==> s[a].pid != s[b].pid)
    ensures a == b
  {
    assert Beats(s[a], s[b]) && Beats(s[b], s[a]);
  }

  // ------------------------------------------------------------------- the updates

  /** After a run; `stays` says whether the process is still runnable. */
  function Charged(p: Pcb, stays: bool): Pcb {
    var u := p.usage + 1;
    p.(runnable := stays, skipped := 0, usage := if u >= 5 then 0 else u,
       prio := if u >= 5 && p.prio > 1 then p.prio - 1 else p.prio)
  }

  function Aged(p: Pcb): Pcb {
    if !p.runnable then p else
      var k := p.skipped + 1;
      var prio := if k >= 5 && p.prio < 100 then p.prio + 1 else p.prio;
      p.(skipped := if k >= 5 then 0 else k, prio := if prio < 3 then 3 else prio)
  }

  /** One PCB of wakeup. */
  function Woken(p: Pcb): Pcb {
    p.(runnable := true, skipped := 0, prio := if p.prio < BASE_EFF_PRIO + 5 then p.prio + 1 else p.prio)
  }

  function Allocated(p: Pcb, pid: nat): Pcb { p.(pid := pid, prio := 10, usage := 0, skipped := 0, runnable := true) }

  /** The steps outside a turn: a wakeup makes a process runnable and lifts it by one up to 15; a run
      at whose end it blocks costs one in five, down to 1; a new process starts at 10. */
  lemma OtherUpdates(p: Pcb, pid: nat)
    ensures var w := Woken(p);
            w.runnable && w.prio == (if p.prio <= 14 then p.prio + 1 else p.prio)
            && w.pid == p.pid && w.usage == p.usage && w.skipped == 0
    ensures var c := Charged(p, false);
            !c.runnable && c.pid == p.pid && c.skipped == 0
            && c.prio == (if p.usage >= 4 && p.prio > 1 then p.prio - 1 else p.prio)
            && c.usage == (if p.usage >= 4 then 0 else p.usage + 1)
    ensures Allocated(p, pid) == Pcb(true, pid, 10, 0, 0)
    ensures !p.runnable ==> Aged(p) == p
  {
  }

  /** The whole table after process b ran. */
  function Rounded(s: seq<Pcb>, b: nat, stays: bool): (r: seq<Pcb>)
    requires b < |s|
    ensures |r| == |s| && forall k: nat :: k < |s| ==> r[k] == Aged(if k == b then Charged(s[k], stays) else s[k])
  {
    seq(|s|, k requires 0 <= k < |s| => Aged(if k == b then Charged(s[k], stays) else s[k]))
  }

  class Table {
    const procs: array<Pcb>

    constructor (n: nat)
      ensures fresh(procs) && procs.Length == n
    {
      procs := new Pcb[n](_ => Pcb(false, 0, 10, 0, 0));
    }

    /** One turn of scheduler(): choose, run, charge, age. */
    method Round(stays: bool) returns (best: Option<nat>)
      modifies procs
      ensures best.None? <==> forall k: nat :: k < procs.Length ==> !old(procs[k].runnable)
      ensures best.None? ==> procs[..] == old(procs[..])
      ensures best.Some? ==>
                IsBest(old(procs[..]), best.value) && procs[..] == Rounded(old(procs[..]), best.value, stays)
    {
      ghost var was := procs[..];
      best := Search(procs[..]);
      if best.None? {
        return;
      }
      var b := best.value;
      procs[b] := Charged(procs[b], stays);
      ghost var mid := procs[..];
      var i := 0;
      while i < procs.Length
        invariant i <= procs.Length
        invariant forall k: nat :: k < i ==> procs[k] == Aged(mid[k])
        invariant forall k: nat :: i <= k < procs.Length ==> procs[k] == mid[k]
      {
        procs[i] := Aged(procs[i]);
        i := i + 1;
      }
      assert procs[..] == Rounded(was, b, stays);
    }
  }

  // ------------------------------------------------------------------------- range

  predicate InRange(p: Pcb) { 1 <= p.prio <= 100 && p.usage < 5 && p.skipped < 5 }

  ghost predicate AllInRange(s: seq<Pcb>) {
    forall k: nat :: k < |s| ==> InRange(s[k])
  }

  /** A step of the system: a round, a wakeup, a new process, or a change of state. */
  ghost predicate Step(s: seq<Pcb>, s': seq<Pcb>) {
    || (exists b: nat, stays: bool :: IsBest(s, b) && s' == Rounded(s, b, stays))
    || (exists k: nat :: k < |s| && s' == s[k := Woken(s[k])])
    || (exists k: nat, pid: nat :: k < |s| && s' == s[k := Allocated(s[k], pid)])
    || (exists k: nat, b: bool :: k < |s| && s' == s[k := s[k].(runnable := b)])
  }

  /** Priorities stay within 1..100 forever. */
  lemma {:induction false} RangeForever(r: seq<seq<Pcb>>, t: nat)
    requires t < |r| && AllInRange(r[0]) && forall k: nat :: k + 1 < |r| ==> Step(r[k], r[k + 1])
    ensures AllInRange(r[t])
    decreases t
  {
    if t > 0 {
      RangeForever(r, t - 1);
      assert Step(r[t - 1], r[t - 1 + 1]);
    }
  }

  // ----------------------------------------------------------------------- waiting

  function Waited(p: Pcb, n: nat): Pcb
    decreases n
  {
    if n == 0 then p else Aged(Waited(p, n - 1))
  }

  function Min(a: int, b: int): int { if a < b then a else b }
  function Max(a: int, b: int): int { if a < b then b else a }

  /** A process that stays runnable and is not chosen gains one per five rounds, up to 100. */
  lemma {:induction false} WaitingGains(p: Pcb, n: nat)
    requires p.runnable && InRange(p) && p.prio >= 3
    ensures Waited(p, n) == p.(prio := Min(100, p.prio + (p.skipped + n) / 5), skipped := (p.skipped + n) % 5)
    decreases n
  {
    if n > 0 {
      WaitingGains(p, n - 1);
      NextFive(p.skipped + n - 1);
    }
  }

  lemma NextFive(m: nat)
    ensures (m + 1) / 5 == m / 5 + (if m % 5 == 4 then 1 else 0) && (m + 1) % 5 == (if m % 5 == 4 then 0 else m % 5 + 1)
  {
  }

  function Ran(p: Pcb, n: nat): Pcb
    decreases n
  {
    if n == 0 then p else Aged(Charged(Ran(p, n - 1), true))
  }

  /** A process that is chosen every round loses one per five rounds, down to 3. */
  lemma {:induction false} RunningLoses(p: Pcb, n: nat)
    requires p.runnable && InRange(p) && p.prio >= 3 && p.skipped <= 1
    ensures Ran(p, n) == p.(prio := Max(3, p.prio - (p.usage + n) / 5), usage := (p.usage + n) % 5,
                            skipped := if n == 0 then p.skipped else 1)
    decreases n
  {
    if n > 0 {
      RunningLoses(p, n - 1);
      NextFive(p.usage + n - 1);
    }
  }

  /** Rounds in which only i and j are runnable, with what was chosen. */
  ghost predicate TwoRun(r: seq<seq<Pcb>>, picks: seq<nat>, i: nat, j: nat) {
    && |r| == |picks| + 1 && i != j
    && (forall t: nat :: t < |r| ==> |r[t]| == |r[0]| && i < |r[t]| && j < |r[t]|)
    && (forall t: nat, k: nat :: t < |r| && k < |r[t]| ==> (r[t][k].runnable <==> k == i || k == j))
    && (forall t: nat :: t < |picks| ==> IsBest(r[t], picks[t]) && r[t + 1] == Rounded(r[t], picks[t], true))
  }

  /** As long as j is passed over, i runs and j waits. */
  lemma {:induction false} PassedOver(r: seq<seq<Pcb>>, picks: seq<nat>, i: nat, j: nat, from: nat, n: nat)
    requires TwoRun(r, picks, i, j) && from + n < |r| && (forall t: nat :: from <= t < from + n ==> picks[t] != j)
    ensures r[from + n][i] == Ran(r[from][i], n) && r[from + n][j] == Waited(r[from][j], n)
    decreases n
  {
    if n > 0 {
      PassedOver(r, picks, i, j, from, n - 1);
      var t := from + n - 1;
      assert IsBest(r[t], picks[t]) && r[t + 1] == Rounded(r[t], picks[t], true);
      assert picks[t] == i;
    }
  }

  /** After one round everyone runnable is at 3 or above. */
  lemma FirstRound(p: Pcb)
    requires p.runnable && InRange(p)
    ensures Waited(p, 1).runnable && InRange(Waited(p, 1)) && Waited(p, 1).prio >= 3
    ensures Ran(p, 1).runnable && InRange(Ran(p, 1)) && Ran(p, 1).prio >= 3 && Ran(p, 1).skipped == 1
  {
    assert Waited(p, 1) == Aged(Waited(p, 0)) && Ran(p, 1) == Aged(Charged(Ran(p, 0), true));
  }

  /** With exactly two processes, always runnable, neither waits more than 246 rounds. */
  lemma BoundedWait(r: seq<seq<Pcb>>, picks: seq<nat>, i: nat, j: nat)
    requires TwoRun(r, picks, i, j) && |picks| >= 247 && InRange(r[0][i]) && InRange(r[0][j])
    ensures exists t: nat :: t <= 246 && picks[t] == j
  {
    if forall t: nat :: t <= 246 ==> picks[t] != j {
      Overtaken(r, picks, i, j, 245);
      LastPick(r, picks, i, j, 246);
    }
  }

  lemma LastPick(r: seq<seq<Pcb>>, picks: seq<nat>, i: nat, j: nat, t: nat)
    requires TwoRun(r, picks, i, j) && t < |picks| && r[t][i].prio < r[t][j].prio
    ensures picks[t] == j
  {
    assert IsBest(r[t], picks[t]);
    assert r[t][j].runnable && Beats(r[t][picks[t]], r[t][j]);
    assert r[t][picks[t]].runnable;
  }

  /** Passed over for n + 1 rounds, j has the greater priority. */
  lemma Overtaken(r: seq<seq<Pcb>>, picks: seq<nat>, i: nat, j: nat, n: nat)
    requires TwoRun(r, picks, i, j) && |picks| >= n + 2 && InRange(r[0][i]) && InRange(r[0][j]) && n == 245
    requires forall t: nat :: t <= n ==> picks[t] != j
    ensures r[n + 1][i].prio < r[n + 1][j].prio
  {
    assert r[0][i].runnable && r[0][j].runnable;
    hide IsBest;
    hide Rounded;
    PassedOver(r, picks, i, j, 0, 1);
    PassedOver(r, picks, i, j, 1, n);
    FirstRound(r[0][i]);
    FirstRound(r[0][j]);
    hide TwoRun;
    hide Waited;
    hide Ran;
    var a, b := Ran(r[0][i], 1), Waited(r[0][j], 1);
    RunningLoses(a, n);
    WaitingGains(b, n);
    Overtakes(a, b);
  }

  lemma Overtakes(a: Pcb, b: Pcb)
    requires 3 <= a.prio <= 100 && 3 <= b.prio <= 100
    ensures Max(3, a.prio - (a.usage + 245) / 5) < Min(100, b.prio + (b.skipped + 245) / 5)
  {
  }
}
