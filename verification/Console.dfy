/**
  The console input queue of kernelspace/drivers/uart.c: a 128-byte ring with wrapping
  32-bit read, commit and edit counters, filled by uart_intr and drained by console_read.
 */
module Console {

  const WRAP: nat := 0x1_0000_0000
  const RING_SIZE: nat := 128

  /** What the ring stands for: committed bytes, then the line being edited; `log` is every
      byte ever committed and `taken` every byte a reader has consumed. */
  datatype Queue = Queue(committed: seq<nat>, line: seq<nat>, log: seq<nat>, taken: seq<nat>)

  function Total(q: Queue): nat { |q.committed| + |q.line| }

  // ------------------------------------------------------------- the abstract queue

  /** uart_intr on one received byte. */
  function Received(q: Queue, c: nat): Queue {
    var d := if c == 13 then 10 else c;
    if c == 127 || c == 8 then
      Erased(q)
    else if d != 0 && Total(q) < RING_SIZE then
      Pushed(q, d)
    else q
  }

  /** The last byte of the line goes; committed bytes stay. */
  function Erased(q: Queue): Queue {
    if q.line == [] then q else q.(line := q.line[..|q.line| - 1])
  }

  /** A byte joins the line; newline, Ctrl-D and a full ring commit it. */
  function Pushed(q: Queue, d: nat): Queue {
    if d == 10 || d == 4 || Total(q) + 1 == RING_SIZE
    then q.(committed := q.committed + q.line + [d], log := q.log + q.line + [d], line := [])
    else q.(line := q.line + [d])
  }

  /** console_read on the next committed byte, when i bytes have been delivered. */
  function Took(q: Queue, i: nat): Queue
    requires q.committed != []
  {
    if q.committed[0] == 4 && i > 0 then q
    else q.(committed := q.committed[1..], taken := q.taken + [q.committed[0]])
  }

  /** Bounded, and nothing committed is lost or reordered. */
  ghost predicate Sound(q: Queue) {
    && Total(q) <= RING_SIZE && (Total(q) == RING_SIZE ==> q.line == [])
    && q.log == q.taken + q.committed
    && (forall k :: 0 <= k < |q.line| ==> q.line[k] != 10 && q.line[k] != 4 && q.line[k] != 0)
  }

  lemma ReceivedSound(q: Queue, c: nat)
    requires Sound(q)
    ensures Sound(Received(q, c)) && Received(q, c).taken == q.taken
    ensures q.committed <= Received(q, c).committed && q.log <= Received(q, c).log
  {
  }

  lemma TookSound(q: Queue, i: nat)
    requires Sound(q) && q.committed != []
    ensures Sound(Took(q, i)) && Took(q, i).log == q.log && Took(q, i).line == q.line && q.taken <= Took(q, i).taken
  {
    assert q.taken + q.committed == q.taken + [q.committed[0]] + q.committed[1..];
  }

  datatype Event = Byte(c: nat) | Take(i: nat)

  /** Any interleaving of received bytes and readers' takes; a take on an empty queue
      sleeps. */
  function Run(q: Queue, es: seq<Event>): Queue
    decreases |es|
  {
    if es == [] then q else
      var q' := Run(q, es[..|es| - 1]);
      match es[|es| - 1]
      case Byte(c) => Received(q', c)
      case Take(i) => if q'.committed == [] then q' else Took(q', i)
  }

  /** Over every run the ring's bound holds, committed bytes are never taken back by
      editing, and what readers have consumed is, in order, a prefix of what was committed. */
  lemma {:induction false} RunSound(q: Queue, es: seq<Event>)
    requires Sound(q)
    ensures Sound(Run(q, es)) && q.log <= Run(q, es).log && q.taken <= Run(q, es).taken <= Run(q, es).log
    decreases |es|
  {
    if es != [] {
      RunSound(q, es[..|es| - 1]);
      var q' := Run(q, es[..|es| - 1]);
      match es[|es| - 1]
      case Byte(c) => ReceivedSound(q', c);
      case Take(i) => if q'.committed != [] { TookSound(q', i); }
    }
  }

  /** An ordinary byte is undone by a backspace, unless it filled the ring, which commits it. */
  lemma BackspaceUndoes(q: Queue, c: nat)
    requires Sound(q) && c !in {0, 4, 8, 10, 13, 127}
    ensures Received(Received(q, c), 127) == q <==> Total(q) + 1 != RING_SIZE
  {
    if Total(q) + 1 == RING_SIZE {
      assert |Received(q, c).committed| == |q.committed| + |q.line| + 1;
    }
  }

  /** Every byte by its class: Backspace and Delete take back the last byte of the line and nothing
      else, Return counts as newline, NUL and what finds the ring full are dropped, and newline,
      Ctrl-D and the byte that fills the ring commit the whole line. */
  lemma ByteClasses(q: Queue, c: nat)
    ensures var n := |q.committed| + |q.line|;
            var d := if c == 13 then 10 else c;
            Received(q, c)
            == if c in {8, 127}
               then Queue(q.committed, if q.line == [] then [] else q.line[..|q.line| - 1], q.log, q.taken)
               else if c == 0 || n >= 128 then q
               else if d in {4, 10} || n == 127
               then Queue(q.committed + (q.line + [d]), [], q.log + (q.line + [d]), q.taken)
               else Queue(q.committed, q.line + [d], q.log, q.taken)
  {
    var d := if c == 13 then 10 else c;
    assert q.committed + q.line + [d] == q.committed + (q.line + [d]);
    assert q.log + q.line + [d] == q.log + (q.line + [d]);
  }

  /** A byte that is neither NUL, Ctrl-D, Backspace, newline, Return nor Delete. */
  predicate Ordinary(c: nat) { c !in {0, 4, 8, 10, 13, 127} }

  function Typed(s: seq<nat>): (es: seq<Event>)
    ensures |es| == |s| && forall i :: 0 <= i < |s| ==> es[i] == Byte(s[i])
  {
    seq(|s|, i requires 0 <= i < |s| => Byte(s[i]))
  }

  function Takes(n: nat): (es: seq<Event>)
    ensures |es| == n && forall i :: 0 <= i < n ==> es[i] == Take(i)
  {
    seq(n, i requires 0 <= i < n => Take(i))
  }

  lemma {:induction false} TypeBytes(q: Queue, s: seq<nat>)
    requires |q.committed| + |q.line| + |s| < 128 && forall i :: 0 <= i < |s| ==> Ordinary(s[i])
    ensures Run(q, Typed(s)) == Queue(q.committed, q.line + s, q.log, q.taken)
    decreases |s|
  {
    if s == [] {
      assert q.line + s == q.line;
    } else {
      var n := |s| - 1;
      assert Typed(s)[..n] == Typed(s[..n]);
      TypeBytes(q, s[..n]);
      ByteClasses(Run(q, Typed(s[..n])), s[n]);
      assert q.line + s[..n] + [s[n]] == q.line + s;
    }
  }

  lemma {:induction false} TakeBytes(q: Queue, t: seq<nat>, n: nat)
    requires q.committed == t && n <= |t| && 4 !in t
    ensures Run(q, Takes(n)) == Queue(t[n..], q.line, q.log, q.taken + t[..n])
    decreases n
  {
    if n == 0 {
      assert q.taken + t[..0] == q.taken;
    } else {
      assert Takes(n)[..n - 1] == Takes(n - 1);
      TakeBytes(q, t, n - 1);
      assert t[n - 1..][0] == t[n - 1] && t[n - 1..][1..] == t[n..];
      assert q.taken + t[..n - 1] + [t[n - 1]] == q.taken + t[..n];
    }
  }

  lemma {:induction false} RunThen(q: Queue, a: seq<Event>, b: seq<Event>)
    ensures Run(q, a + b) == Run(Run(q, a), b)
    decreases |b|
  {
    if b == [] {
      assert a + b == a;
    } else {
      var n := |b| - 1;
      assert (a + b)[..|a| + n] == a + b[..n];
      RunThen(q, a, b[..n]);
    }
  }

  /** A line that is typed, ended by Return or newline, and read comes back as typed, with a
      newline at its end; nothing is left. */
  lemma TypeThenRead(s: seq<nat>, end: nat, log: seq<nat>, taken: seq<nat>)
    requires |s| < 128 && (forall i :: 0 <= i < |s| ==> Ordinary(s[i])) && end in {10, 13}
    ensures Run(Queue([], [], log, taken), Typed(s) + [Byte(end)] + Takes(|s| + 1))
            == Queue([], [], log + (s + [10]), taken + (s + [10]))
  {
    var q0 := Queue([], [], log, taken);
    var t := s + [10];
    TypeBytes(q0, s);
    assert [] + s == s;
    ByteClasses(Run(q0, Typed(s)), end);
    assert (Typed(s) + [Byte(end)])[..|s|] == Typed(s);
    var q1 := Run(q0, Typed(s) + [Byte(end)]);
    assert [] + t == t;
    assert q1 == Queue(t, [], log + t, taken);
    TakeBytes(q1, t, |t|);
    assert t[|t|..] == [] && t[..|t|] == t;
    RunThen(q0, Typed(s) + [Byte(end)], Takes(|t|));
  }

  /** A longer line is cut: 128 bytes fill the ring and are committed, and what follows is lost,
      the end of the line with it, until a reader makes room. */
  lemma {:induction false} TypeTooLong(s: seq<nat>, log: seq<nat>, taken: seq<nat>)
    requires |s| >= 128 && forall i :: 0 <= i < 128 ==> Ordinary(s[i])
    ensures Run(Queue([], [], log, taken), Typed(s)) == Queue(s[..128], [], log + s[..128], taken)
    decreases |s|
  {
    var q0, n := Queue([], [], log, taken), |s| - 1;
    assert Typed(s)[..n] == Typed(s[..n]);
    if n == 127 {
      TypeBytes(q0, s[..127]);
      assert [] + s[..127] == s[..127];
    } else {
      TypeTooLong(s[..n], log, taken);
      assert s[..n][..128] == s[..128];
    }
    var q := Run(q0, Typed(s[..n]));
    ByteClasses(q, s[n]);
    if n == 127 {
      assert s[..127] + [s[127]] == s[..128];
      assert [] + s[..128] == s[..128];
    }
  }

  // ----------------------------------------------------------------------- the ring

  /** The distance from counter a to counter b, as a 32-bit difference. */
  function Gap(a: nat, b: nat): (g: nat)
    requires a < WRAP && b < WRAP
    ensures g < WRAP
  {
    if a <= b then b - a else b + WRAP - a
  }

  /** The buffer slot of the k-th byte after counter r. */
  function Idx(r: nat, k: nat): (i: nat)
    ensures i < RING_SIZE
  {
    (r + k) % RING_SIZE
  }

  /** n bytes of the buffer from counter r on. */
  ghost function View(b: seq<nat>, r: nat, n: nat): (s: seq<nat>)
    requires |b| == RING_SIZE
    ensures |s| == n && forall k :: 0 <= k < n ==> s[k] == b[Idx(r, k)]
  {
    seq(n, k requires 0 <= k < n => b[Idx(r, k)])
  }

  lemma Slot(r: nat, k: nat)
    ensures (r + k) % WRAP % RING_SIZE == (r + k) % RING_SIZE
  {
  }

  /** Advancing a counter by one. */
  lemma Advance(a: nat, b: nat)
    requires a < WRAP && b < WRAP
    ensures Gap(a, b) + 1 < WRAP ==> Gap(a, (b + 1) % WRAP) == Gap(a, b) + 1
    ensures Gap(a, b) > 0 ==> Gap((a + 1) % WRAP, b) == Gap(a, b) - 1 && Gap(a, (b + WRAP - 1) % WRAP) == Gap(a, b) - 1
    ensures b == (a + Gap(a, b)) % WRAP && (Gap(a, b) == 0 <==> a == b)
  {
  }

  lemma ViewPush(b: seq<nat>, r: nat, n: nat, e: nat, c: nat)
    requires |b| == RING_SIZE && n < RING_SIZE && r < WRAP && e == (r + n) % WRAP
    ensures e % RING_SIZE < RING_SIZE && View(b[e % RING_SIZE := c], r, n + 1) == View(b, r, n) + [c]
  {
    Slot(r, n);
    var b' := b[e % RING_SIZE := c];
    forall k | 0 <= k < n
      ensures b'[Idx(r, k)] == b[Idx(r, k)]
    {
      SlotsDiffer(r, k, n);
    }
  }

  lemma SlotsDiffer(r: nat, k: nat, n: nat)
    requires k < n < k + RING_SIZE
    ensures (r + k) % RING_SIZE != (r + n) % RING_SIZE
  {
  }

  lemma ViewPop(b: seq<nat>, r: nat, n: nat)
    requires |b| == RING_SIZE && r < WRAP && n > 0
    ensures View(b, (r + 1) % WRAP, n - 1) == View(b, r, n)[1..] && View(b, r, n)[0] == b[r % RING_SIZE]
  {
    var r' := (r + 1) % WRAP;
    forall k | 0 <= k < n - 1
      ensures Idx(r', k) == Idx(r, k + 1)
    {
      WrapSlot(r + 1, k);
    }
  }

  lemma WrapSlot(r: nat, k: nat)
    ensures (r % WRAP + k) % RING_SIZE == (r + k) % RING_SIZE
  {
  }

  lemma ViewPrefix(b: seq<nat>, r: nat, n: nat, m: nat)
    requires |b| == RING_SIZE && n <= m
    ensures View(b, r, n) == View(b, r, m)[..n]
  {
  }

  /** The queue a ring holds. */
  ghost function Denotes(b: seq<nat>, r: nat, w: nat, e: nat, log: seq<nat>, taken: seq<nat>): Queue
    requires |b| == RING_SIZE && r < WRAP && w < WRAP && e < WRAP && Gap(r, w) <= Gap(r, e)
  {
    var all := View(b, r, Gap(r, e));
    Queue(all[..Gap(r, w)], all[Gap(r, w)..], log, taken)
  }

  // -------------------------------------------------- what counter updates denote

  lemma BackspaceDenotes(b: seq<nat>, r: nat, w: nat, e: nat, log: seq<nat>, taken: seq<nat>)
    requires |b| == RING_SIZE && r < WRAP && w < WRAP && e < WRAP && Gap(r, w) <= Gap(r, e) <= RING_SIZE
    ensures e == w <==> Denotes(b, r, w, e, log, taken).line == []
    ensures e != w ==>
              var e' := (e + WRAP - 1) % WRAP;
              var q := Denotes(b, r, w, e, log, taken);
              e' < WRAP && Gap(r, w) <= Gap(r, e') <= RING_SIZE
              && Denotes(b, r, w, e', log, taken) == q.(line := q.line[..|q.line| - 1])
  {
    Advance(r, e);
    Advance(r, w);
    if e != w {
      assert Gap(r, w) != Gap(r, e);
      ViewPrefix(b, r, Gap(r, e) - 1, Gap(r, e));
    }
  }

  lemma PushDenotes(b: seq<nat>, r: nat, w: nat, e: nat, log: seq<nat>, taken: seq<nat>, d: nat)
    requires |b| == RING_SIZE && r < WRAP && w < WRAP && e < WRAP && Gap(r, w) <= Gap(r, e) < RING_SIZE
    ensures var e' := (e + 1) % WRAP;
            var b' := b[e % RING_SIZE := d];
            var q := Denotes(b, r, w, e, log, taken);
            && Gap(r, e') == Gap(r, e) + 1 && (e' == (r + RING_SIZE) % WRAP <==> Total(q) + 1 == RING_SIZE)
            && Denotes(b', r, w, e', log, taken) == q.(line := q.line + [d])
            && Denotes(b', r, e', e', log, taken) == q.(committed := q.committed + q.line + [d], line := [])
  {
    Advance(r, e);
    ViewPush(b, r, Gap(r, e), e, d);
  }

  lemma PopDenotes(b: seq<nat>, r: nat, w: nat, e: nat, log: seq<nat>, taken: seq<nat>, taken': seq<nat>)
    requires |b| == RING_SIZE && r < WRAP && w < WRAP && e < WRAP && Gap(r, w) <= Gap(r, e) <= RING_SIZE && r != w
    ensures var r' := (r + 1) % WRAP;
            var q := Denotes(b, r, w, e, log, taken);
            && q.committed != [] && q.committed[0] == b[r % RING_SIZE] && (r' + WRAP - 1) % WRAP == r
            && r' < WRAP && Gap(r', w) == Gap(r, w) - 1 && Gap(r', e) == Gap(r, e) - 1
            && Denotes(b, r', w, e, log, taken') == q.(committed := q.committed[1..], taken := taken')
  {
    Advance(r, w);
    Advance(r, e);
    ViewPop(b, r, Gap(r, e));
  }

  class Ring {
    const buf: array<nat>
    var r: nat
    var w: nat
    var e: nat
    ghost var log: seq<nat>
    ghost var taken: seq<nat>

    ghost predicate Bounds()
      reads this
    {
      buf.Length == RING_SIZE && r < WRAP && w < WRAP && e < WRAP && Gap(r, w) <= Gap(r, e) <= RING_SIZE
    }

    ghost function Q(): Queue
      requires Bounds()
      reads this, buf
    {
      Denotes(buf[..], r, w, e, log, taken)
    }

    ghost predicate Valid()
      reads this, buf
    {
      Bounds() && Sound(Q())
    }

    constructor ()
      ensures Valid() && fresh(buf) && Q() == Queue([], [], [], [])
    {
      buf := new nat[RING_SIZE];
      r, w, e := 0, 0, 0;
      log, taken := [], [];
    }

    /** uart_intr on one byte: the abstract step, exactly.  `woke` says whether readers were
        woken, which happens iff bytes were committed. */
    method Receive(c: nat) returns (woke: bool)
      requires Valid()
      modifies this`w, this`e, this`log, buf
      ensures Valid() && Q() == Received(old(Q()), c)
      ensures woke <==> |Q().committed| > |old(Q()).committed|
    {
      ghost var q := Q();
      ReceivedSound(q, c);
      DenotesSize(buf[..], r, w, e, log, taken);
      assert Total(q) == Gap(r, e);
      hide Sound;
      hide Denotes;
      hide Gap;
      hide Pushed;
      hide Erased;
      var d := c;
      if c == 13 {
        d := 10;
      } else if c == 127 || c == 8 {
        Backspace();
        return false;
      }
      if d != 0 && Gap(r, e) < RING_SIZE {
        woke := Push(d);
      } else {
        woke := false;
      }
    }

    method Backspace()
      requires Bounds()
      modifies this`e
      ensures Bounds() && Q() == Erased(old(Q())) && Q().committed == old(Q()).committed
    {
      BackspaceDenotes(buf[..], r, w, e, log, taken);
      hide Denotes;
      hide Gap;
      if e != w {
        e := (e + WRAP - 1) % WRAP;
      }
    }

    method Push(d: nat) returns (woke: bool)
      requires Bounds() && Gap(r, e) < RING_SIZE
      modifies this`w, this`e, this`log, buf
      ensures Bounds() && Q() == Pushed(old(Q()), d)
      ensures woke <==> |Q().committed| > |old(Q()).committed|
    {
      hide Denotes;
      PushDenotes(buf[..], r, w, e, log, taken, d);
      DenotesSize(buf[..], r, w, e, log, taken);
      ghost var line := Q().line;
      ghost var b := buf[..];
      buf[e % RING_SIZE] := d;
      assert buf[..] == b[e % RING_SIZE := d];
      e := (e + 1) % WRAP;
      if d == 10 || d == 4 || e == (r + RING_SIZE) % WRAP {
        LogOnly(buf[..], r, e, e, log, taken, log + line + [d]);
        w := e;
        log := log + line + [d];
        return true;
      }
      return false;
    }

    /** The body of console_read's loop on a non-empty queue. */
    method TakeByte(i: nat) returns (c: nat)
      requires Valid() && r != w
      modifies this`r, this`taken
      ensures old(Q()).committed != [] && c == old(Q()).committed[0]
      ensures Valid() && Q() == Took(old(Q()), i)
      ensures taken == if c == 4 && i > 0 then old(taken) else old(taken) + [c]
    {
      PopDenotes(buf[..], r, w, e, log, taken, taken + [buf[r % RING_SIZE]]);
      TookSound(Q(), i);
      hide Sound;
      hide Denotes;
      hide Gap;
      c := buf[r % RING_SIZE];
      r := (r + 1) % WRAP;
      if c == 4 && i > 0 {
        r := (r + WRAP - 1) % WRAP;
      } else {
        taken := taken + [c];
      }
    }

    /** console_read: `incoming` are the bytes that arrive while it sleeps, and done is
        false if it is still asleep after the last of them.  What it delivers is the next
        stretch of committed bytes in order, up to n bytes, a newline, or a Ctrl-D; a Ctrl-D
        after other bytes stays for the next read. */
    method Read(n: int, incoming: seq<nat>) returns (out: seq<nat>, done: bool, used: nat, ghost eof: bool)
      requires Valid()
      modifies this, buf
      ensures Valid() && used <= |incoming| && old(log) <= log
      ensures taken == old(taken) + out + if eof then [4] else []
      ensures 4 !in out && (forall k :: 0 <= k < |out| - 1 ==> out[k] != 10) && (out == [] || |out| <= n)
      ensures eof ==> done && out == []
      ensures done ==>
                || |out| >= n || (out != [] && out[|out| - 1] == 10) || eof
                || (out != [] && Q().committed != [] && Q().committed[0] == 4)
      ensures !done ==> used == |incoming| && Q().committed == [] && |out| < n && 10 !in out
    {
      hide Sound;
      hide Denotes;
      hide Gap;
      hide Received;
      out, used, eof := [], 0, false;
      while |out| < n
        invariant Valid() && used <= |incoming| && old(log) <= log
        invariant taken == old(taken) + out && 4 !in out && 10 !in out && (out == [] || |out| <= n)
        decreases n - |out|
      {
        used := Sleep(incoming, used);
        EmptyIff(buf[..], r, w, e, log, taken);
        if r == w {
          return out, false, used, false;
        }
        var c := TakeByte(|out|);
        if c == 4 {
          return out, true, used, out == [];
        }
        out := out + [c];
        if c == 10 {
          return out, true, used, false;
        }
      }
      return out, true, used, false;
    }

    /** Waiting for the queue to fill, while bytes arrive. */
    method Sleep(incoming: seq<nat>, from: nat) returns (used: nat)
      requires Valid() && from <= |incoming|
      modifies this`w, this`e, this`log, buf
      ensures Valid() && from <= used <= |incoming| && old(log) <= log && taken == old(taken)
      ensures r == w ==> used == |incoming|
    {
      hide Sound;
      hide Denotes;
      hide Gap;
      hide Received;
      used := from;
      while r == w && used < |incoming|
        invariant Valid() && from <= used <= |incoming| && old(log) <= log
      {
        ReceivedSound(Q(), incoming[used]);
        DenotesSize(buf[..], r, w, e, log, taken);
        ghost var before := log;
        var woke := Receive(incoming[used]);
        DenotesSize(buf[..], r, w, e, log, taken);
        used := used + 1;
      }
    }
  }

  lemma EmptyIff(b: seq<nat>, r: nat, w: nat, e: nat, log: seq<nat>, taken: seq<nat>)
    requires |b| == RING_SIZE && r < WRAP && w < WRAP && e < WRAP && Gap(r, w) <= Gap(r, e)
    ensures Denotes(b, r, w, e, log, taken).committed == [] <==> r == w
    ensures Denotes(b, r, w, e, log, taken).log == log && Denotes(b, r, w, e, log, taken).taken == taken
  {
  }

  lemma DenotesSize(b: seq<nat>, r: nat, w: nat, e: nat, log: seq<nat>, taken: seq<nat>)
    requires |b| == RING_SIZE && r < WRAP && w < WRAP && e < WRAP && Gap(r, w) <= Gap(r, e)
    ensures Total(Denotes(b, r, w, e, log, taken)) == Gap(r, e)
    ensures |Denotes(b, r, w, e, log, taken).committed| == Gap(r, w)
    ensures Denotes(b, r, w, e, log, taken).log == log && Denotes(b, r, w, e, log, taken).taken == taken
  {
  }

  lemma LogOnly(b: seq<nat>, r: nat, w: nat, e: nat, log: seq<nat>, taken: seq<nat>, log': seq<nat>)
    requires |b| == RING_SIZE && r < WRAP && w < WRAP && e < WRAP && Gap(r, w) <= Gap(r, e)
    ensures Denotes(b, r, w, e, log', taken) == Denotes(b, r, w, e, log, taken).(log := log')
  {
  }
}
