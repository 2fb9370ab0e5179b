/**
  Capability inheritance of kernelspace/core/trap.c and include/abi/capability.h: the
  dispatcher's check, the masks of spawn and sandbox, and the tree of all processes ever
  created.
 */
module Capability {
  import opened Wrappers

  type Mask = bv64

  const CAP_FS_READ: Mask := 0x1
  const CAP_FS_WRITE: Mask := 0x2
  const CAP_FS_DIR: Mask := 0x4
  const CAP_FS_CWD: Mask := 0x8
  const CAP_FS_RENAME: Mask := 0x10
  const CAP_PROC_BASIC: Mask := 0x100
  const CAP_PROC_PS: Mask := 0x200
  const CAP_PROC_KILL: Mask := 0x400
  const CAP_PROC_SLEEP: Mask := 0x800
  const CAP_PROC_TRACE: Mask := 0x1000
  const CAP_PROC_SANDBOX: Mask := 0x2000
  const CAP_MEM_SBRK: Mask := 0x1_0000
  const CAP_SYS_TIME: Mask := 0x100_0000
  const CAP_SYS_POWER: Mask := 0x200_0000
  const PROC_CAP_ENABLE: Mask := 0x8000_0000_0000_0000

  const CAP_ALL: Mask :=
    CAP_FS_READ | CAP_FS_WRITE | CAP_FS_DIR | CAP_FS_CWD | CAP_FS_RENAME
    | CAP_PROC_BASIC | CAP_PROC_PS | CAP_PROC_KILL | CAP_PROC_SLEEP | CAP_PROC_TRACE | CAP_PROC_SANDBOX
    | CAP_MEM_SBRK | CAP_SYS_TIME | CAP_SYS_POWER
  const USER_DEFAULT: Mask :=
    CAP_FS_READ | CAP_FS_WRITE | CAP_FS_DIR | CAP_FS_CWD | CAP_FS_RENAME
    | CAP_PROC_BASIC | CAP_PROC_SLEEP | CAP_MEM_SBRK | CAP_SYS_TIME
  const SHELL_NORMAL: Mask := USER_DEFAULT | CAP_PROC_PS | CAP_PROC_KILL | CAP_PROC_TRACE | CAP_PROC_SANDBOX
  const SHELL_MAINT: Mask := SHELL_NORMAL | CAP_SYS_POWER

  /** a is a subset of b. */
  predicate Sub(a: Mask, b: Mask) { a & !b == 0 }

  predicate HasCapability(caps: Mask, cap: Mask) { caps & cap == cap }

  /** resolve_child_caps. */
  function ChildCaps(caps: Mask, mask: Mask, custom: bool): Option<Mask> {
    if custom then
      (if HasCapability(caps, CAP_PROC_SANDBOX) then Some(caps & (mask & !PROC_CAP_ENABLE)) else None)
    else Some(caps & USER_DEFAULT)
  }

  /** syscall_caps; 0 for calls that need none. */
  function Needs(num: nat): Mask {
    match num
    case 11 => CAP_SYS_TIME
    case 12 => CAP_PROC_BASIC
    case 15 => CAP_FS_WRITE
    case 16 => CAP_FS_READ
    case 17 => CAP_FS_WRITE
    case 19 => CAP_PROC_BASIC
    case 20 => CAP_FS_DIR
    case 21 => CAP_SYS_POWER
    case 22 => CAP_SYS_POWER
    case 23 => CAP_SYS_POWER
    case 24 => CAP_FS_DIR
    case 25 => CAP_FS_CWD
    case 26 => CAP_FS_WRITE
    case 27 => CAP_FS_CWD
    case 28 => CAP_FS_RENAME
    case 29 => CAP_PROC_PS
    case 30 => CAP_MEM_SBRK
    case 31 => CAP_PROC_KILL
    case 32 => CAP_PROC_SLEEP
    case 33 => CAP_PROC_TRACE
    case 34 => CAP_PROC_BASIC | CAP_PROC_SANDBOX
    case _ => 0
  }

  predicate Known(num: nat) { 1 <= num <= 3 || 10 <= num <= 34 }

  const SYS_SPAWN: nat := 12
  const SYS_WRITE_FILE: nat := 17
  const SYS_SANDBOX: nat := 34

  /** panic, poweroff and reboot. */
  predicate IsPower(num: nat) { num == 21 || num == 22 || num == 23 }

  datatype Outcome = Unknown | Denied | Runs

  /** What a call needs: writing to the standard handles needs nothing. */
  function Needed(num: nat, a0: int): Mask {
    if num == SYS_WRITE_FILE && (a0 == 1 || a0 == 2) then 0 else Needs(num)
  }

  /** syscall_dispatcher. */
  function Dispatch(caps: Mask, num: nat, a0: int): Outcome {
    if !Known(num) then Unknown
    else if Needed(num, a0) != 0 && !HasCapability(caps, Needed(num, a0)) then Denied
    else Runs
  }

  // ----------------------------------------------------------------- mask algebra

  /** Whatever the mask, a child gets no capability its parent lacks, and never the
      control bit. */
  lemma ChildWithin(caps: Mask, mask: Mask, custom: bool)
    ensures ChildCaps(caps, mask, custom).Some? ==> Sub(ChildCaps(caps, mask, custom).value, caps)
    ensures ChildCaps(caps, mask, custom).None? <==> custom && !HasCapability(caps, CAP_PROC_SANDBOX)
    ensures custom && ChildCaps(caps, mask, custom).Some? ==> ChildCaps(caps, mask, custom).value & PROC_CAP_ENABLE == 0
    ensures !custom ==> Sub(ChildCaps(caps, mask, custom).value, USER_DEFAULT)
  {
  }

  lemma BothBits(caps: Mask)
    ensures HasCapability(caps, CAP_PROC_BASIC | CAP_PROC_SANDBOX)
            <==> HasCapability(caps, 0x100) && HasCapability(caps, 0x2000)
  {
  }

  /** Which calls run, by number and bit: a process that is entitled to a call can make it. */
  lemma Entitled(caps: Mask, num: nat, a0: int)
    ensures Dispatch(caps, num, a0) == Runs <==>
            || num in {1, 2, 3, 10, 13, 14, 18}
            || (num == 16 && HasCapability(caps, 0x1))
            || (num in {15, 17, 26} && HasCapability(caps, 0x2))
            || (num == 17 && a0 in {1, 2})
            || (num in {20, 24} && HasCapability(caps, 0x4))
            || (num in {25, 27} && HasCapability(caps, 0x8))
            || (num == 28 && HasCapability(caps, 0x10))
            || (num in {12, 19, 34} && HasCapability(caps, 0x100) && (num == 34 ==> HasCapability(caps, 0x2000)))
            || (num == 29 && HasCapability(caps, 0x200))
            || (num == 31 && HasCapability(caps, 0x400))
            || (num == 32 && HasCapability(caps, 0x800))
            || (num == 33 && HasCapability(caps, 0x1000))
            || (num == 30 && HasCapability(caps, 0x1_0000))
            || (num == 11 && HasCapability(caps, 0x100_0000))
            || (num in {21, 22, 23} && HasCapability(caps, 0x200_0000))
    ensures Dispatch(caps, num, a0) == Unknown <==> num == 0 || 4 <= num <= 9 || 34 < num
  {
    BothBits(caps);
    hide HasCapability;
  }

  lemma SubTrans(a: Mask, b: Mask, c: Mask)
    requires Sub(a, b) && Sub(b, c)
    ensures Sub(a, c)
  {
  }

  /** A missing capability stays missing in every subset. */
  lemma LackInherited(a: Mask, b: Mask, cap: Mask)
    requires Sub(a, b) && HasCapability(a, cap)
    ensures HasCapability(b, cap)
  {
  }

  lemma Profiles()
    ensures Sub(USER_DEFAULT, SHELL_NORMAL) && Sub(SHELL_NORMAL, SHELL_MAINT) && SHELL_MAINT == CAP_ALL
    ensures !HasCapability(SHELL_NORMAL, CAP_SYS_POWER) && HasCapability(SHELL_NORMAL, CAP_PROC_SANDBOX)
    ensures !HasCapability(USER_DEFAULT, CAP_PROC_SANDBOX)
    ensures USER_DEFAULT == 0x101_091F && SHELL_NORMAL == 0x101_3F1F && CAP_ALL == 0x301_3F1F
  {
  }

  // ------------------------------------------------------------- the process tree

  /** A process ever created: who spawned it, and its capabilities. */
  datatype Node = Node(parent: Option<nat>, caps: Mask)

  /** An executed system call: who made it, its number and first argument. */
  datatype Call = Call(who: nat, num: nat, a0: int)

  /** `nodes` in order of creation, the processes that exist, and the system calls that
      were executed. */
  datatype State = State(nodes: seq<Node>, alive: set<nat>, ran: seq<Call>)

  /** The syscalls spawn and sandbox, once let through, may create a child. */
  ghost predicate Creates(s: State, s': State, p: nat, num: nat, mask: Mask)
    requires p < |s.nodes|
  {
    && (num == SYS_SPAWN || num == SYS_SANDBOX)
    && var child := ChildCaps(s.nodes[p].caps, mask, num == SYS_SANDBOX || mask & PROC_CAP_ENABLE != 0);
       && child.Some?
       && s'.nodes == s.nodes + [Node(Some(p), child.value)] && s'.alive == s.alive + {|s.nodes|}
  }

  /** Process p makes system call num. */
  ghost predicate Calls(s: State, s': State, p: nat, num: nat, a0: int, mask: Mask) {
    && p in s.alive && p < |s.nodes|
    && match Dispatch(s.nodes[p].caps, num, a0)
       case Unknown => s' == s
       case Denied => s' == s
       case Runs =>
         && s'.ran == s.ran + [Call(p, num, a0)]
         && ((s'.nodes == s.nodes && s'.alive <= s.alive) || Creates(s, s', p, num, mask))
  }

  ghost predicate Next(s: State, s': State) {
    || (exists p: nat, num: nat, a0: int, mask: Mask :: Calls(s, s', p, num, a0, mask))
    || (exists dead: set<nat> :: s' == s.(alive := s.alive - dead))
  }

  /** Boot: userinit spawns sysctl with every capability. */
  ghost predicate Init(s: State) {
    s == State([Node(None, CAP_ALL)], {0}, [])
  }

  ghost predicate IsRun(r: seq<State>) {
    |r| > 0 && Init(r[0]) && forall i :: 0 <= i < |r| - 1 ==> Next(r[i], r[i + 1])
  }

  ghost predicate NodeOk(nodes: seq<Node>, k: nat)
    requires k < |nodes|
  {
    && Sub(nodes[k].caps, CAP_ALL)
    && (nodes[k].parent.Some? ==> nodes[k].parent.value < k && Sub(nodes[k].caps, nodes[nodes[k].parent.value].caps))
  }

  /** An executed call was allowed. */
  ghost predicate RanOk(nodes: seq<Node>, e: Call) {
    e.who < |nodes| && HasCapability(nodes[e.who].caps, Needed(e.num, e.a0))
  }

  ghost predicate Inv(s: State) {
    && (forall k: nat :: k < |s.nodes| ==> NodeOk(s.nodes, k))
    && (forall k: nat :: k < |s.ran| ==> RanOk(s.nodes, s.ran[k]))
  }

  /** Who gets what: spawn without the control bit gives the default, spawn with it and sandbox give
      the mask asked for, which takes CAP_PROC_SANDBOX; all of it within the parent's. */
  lemma ChildGets(s: State, s': State, p: nat, num: nat, mask: Mask)
    requires p < |s.nodes| && Creates(s, s', p, num, mask)
    ensures |s'.nodes| == |s.nodes| + 1 && s'.nodes[..|s.nodes|] == s.nodes && s'.alive == s.alive + {|s.nodes|}
    ensures var caps, child := s.nodes[p].caps, s'.nodes[|s.nodes|];
            && child.parent == Some(p)
            && if num == 12 && mask & 0x8000_0000_0000_0000 == 0 then child.caps == caps & USER_DEFAULT
               else child.caps == caps & (mask & !0x8000_0000_0000_0000) && HasCapability(caps, 0x2000)
    ensures num == 12 || num == 34
  {
    hide HasCapability;
  }

  /** A child is within its parent, and with it within CAP_ALL. */
  lemma ChildNode(s: State, s': State, p: nat, num: nat, mask: Mask)
    requires Inv(s) && p < |s.nodes| && Creates(s, s', p, num, mask)
    ensures |s'.nodes| == |s.nodes| + 1 && s'.nodes[..|s.nodes|] == s.nodes && s'.nodes[|s.nodes|].parent == Some(p)
    ensures var c := s'.nodes[|s.nodes|].caps; Sub(c, s.nodes[p].caps) && Sub(c, CAP_ALL)
  {
    hide Sub;
    hide HasCapability;
    hide ChildCaps;
    ChildWithin(s.nodes[p].caps, mask, num == SYS_SANDBOX || mask & PROC_CAP_ENABLE != 0);
    assert NodeOk(s.nodes, p);
    hide Inv;
    var c := s'.nodes[|s.nodes|].caps;
    assert Sub(c, s.nodes[p].caps);
    SubTrans(c, s.nodes[p].caps, CAP_ALL);
  }

  /** All nodes stay in order. */
  lemma NodesKeep(s: State, s': State, p: nat, num: nat, mask: Mask)
    requires Inv(s) && p < |s.nodes| && (s'.nodes == s.nodes || Creates(s, s', p, num, mask))
    ensures s.nodes <= s'.nodes && forall k: nat :: k < |s'.nodes| ==> NodeOk(s'.nodes, k)
  {
    hide Sub;
    hide RanOk;
    hide Creates;
    if s'.nodes != s.nodes {
      ChildNode(s, s', p, num, mask);
      forall k: nat | k < |s'.nodes|
        ensures NodeOk(s'.nodes, k)
      {
        assert k < |s.nodes| ==> NodeOk(s.nodes, k) && s'.nodes[..|s.nodes|][k] == s.nodes[k];
      }
    }
  }

  /** The call just made was allowed, and all earlier ones still were. */
  lemma RanKeeps(s: State, s': State, e: Call)
    requires Inv(s) && s.nodes <= s'.nodes && s'.ran == s.ran + [e] && RanOk(s.nodes, e)
    ensures forall k: nat :: k < |s'.ran| ==> RanOk(s'.nodes, s'.ran[k])
  {
    hide HasCapability;
    hide Needed;
    hide NodeOk;
    forall k: nat | k < |s'.ran|
      ensures RanOk(s'.nodes, s'.ran[k])
    {
      assert k < |s.ran| ==> RanOk(s.nodes, s.ran[k]);
    }
  }

  lemma CallKeeps(s: State, s': State, p: nat, num: nat, a0: int, mask: Mask)
    requires Inv(s) && Calls(s, s', p, num, a0, mask)
    ensures Inv(s') && s.nodes <= s'.nodes
  {
    if Dispatch(s.nodes[p].caps, num, a0) == Runs {
      assert HasCapability(s.nodes[p].caps, Needed(num, a0));
      hide Needed;
      hide Dispatch;
      hide HasCapability;
      hide Creates;
      NodesKeep(s, s', p, num, mask);
      RanKeeps(s, s', Call(p, num, a0));
    }
  }

  lemma NextKeeps(s: State, s': State)
    requires Inv(s) && Next(s, s')
    ensures Inv(s') && s.nodes <= s'.nodes
  {
    hide Calls;
    if exists p: nat, num: nat, a0: int, mask: Mask :: Calls(s, s', p, num, a0, mask) {
      var p: nat, num: nat, a0: int, mask: Mask :| Calls(s, s', p, num, a0, mask);
      hide Inv;
      CallKeeps(s, s', p, num, a0, mask);
    }
  }

  lemma {:induction false} RunInv(r: seq<State>, i: nat)
    requires IsRun(r) && i < |r|
    ensures Inv(r[i])
    decreases i
  {
    if i > 0 {
      hide Inv;
      hide Next;
      RunInv(r, i - 1);
      assert Next(r[i - 1], r[i - 1 + 1]);
      NextKeeps(r[i - 1], r[i]);
    }
  }

  // --------------------------------------------------------------------- theorems

  /** Capabilities never change after creation. */
  lemma {:induction false} CapsFixed(r: seq<State>, i: nat, j: nat)
    requires IsRun(r) && i <= j < |r|
    ensures r[i].nodes <= r[j].nodes
    decreases j
  {
    if i < j {
      hide Inv;
      hide Next;
      CapsFixed(r, i, j - 1);
      RunInv(r, j - 1);
      assert Next(r[j - 1], r[j - 1 + 1]);
      NextKeeps(r[j - 1], r[j]);
    }
  }

  /** d is a, or was spawned by a descendant of a. */
  ghost predicate Descends(nodes: seq<Node>, a: nat, d: nat)
    requires d < |nodes|
    decreases d
  {
    d == a || (nodes[d].parent.Some? && nodes[d].parent.value < d && Descends(nodes, a, nodes[d].parent.value))
  }

  lemma {:induction false} DescendantWithin(s: State, a: nat, d: nat)
    requires Inv(s) && a < |s.nodes| && d < |s.nodes| && Descends(s.nodes, a, d)
    ensures Sub(s.nodes[d].caps, s.nodes[a].caps)
    decreases d
  {
    if d != a {
      var p := s.nodes[d].parent.value;
      DescendantWithin(s, a, p);
      assert NodeOk(s.nodes, d);
      SubTrans(s.nodes[d].caps, s.nodes[p].caps, s.nodes[a].caps);
    }
  }

  /** Over every run: what a process executes, all its ancestors were entitled to. */
  lemma AncestorsEntitled(r: seq<State>, i: nat, a: nat, k: nat)
    requires IsRun(r) && i < |r| && a < |r[i].nodes| && k < |r[i].ran|
    requires r[i].ran[k].who < |r[i].nodes| && Descends(r[i].nodes, a, r[i].ran[k].who)
    ensures HasCapability(r[i].nodes[a].caps, Needed(r[i].ran[k].num, r[i].ran[k].a0))
    ensures Sub(r[i].nodes[a].caps, CAP_ALL)
  {
    var s := r[i];
    RunInv(r, i);
    assert RanOk(s.nodes, s.ran[k]) && NodeOk(s.nodes, a);
    DescendantWithin(s, a, s.ran[k].who);
    LackInherited(s.nodes[s.ran[k].who].caps, s.nodes[a].caps, Needed(s.ran[k].num, s.ran[k].a0));
  }

  /** No descendant of a normal shell ever executes panic, poweroff or reboot, whatever
      masks it or they ask for. */
  lemma NoPowerBelowShell(r: seq<State>, i: nat, a: nat, k: nat)
    requires IsRun(r) && i < |r| && a < |r[i].nodes| && r[i].nodes[a].caps == SHELL_NORMAL
    requires k < |r[i].ran| && r[i].ran[k].who < |r[i].nodes| && Descends(r[i].nodes, a, r[i].ran[k].who)
    ensures !IsPower(r[i].ran[k].num)
  {
    Profiles();
    AncestorsEntitled(r, i, a, k);
  }
}
