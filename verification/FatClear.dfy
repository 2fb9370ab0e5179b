/**
  `clear_cluster_chain` as a function on the FAT, with what it frees on a
  well-formed chain and on any other FAT.
 */
module FatClear {
  import opened FatDisk
  import opened FatChain

  /** What `clear_cluster_chain` leaves behind, for any FAT whose links stay in
      range, cyclic ones included: each step that goes on has just zeroed an entry
      that was in use. */
  ghost function ClearChain(fat: seq<nat>, c: nat): (r: seq<nat>)
    requires InRange(fat) && 2 <= |fat| <= EOC_MIN && (c < |fat| || EOC_MIN <= c)
    ensures |r| == |fat| && InRange(r)
    decreases UsedCount(fat), if 2 <= c < EOC_MIN then 1 else 0
  {
    if 2 <= c < EOC_MIN then
      UsedCountUpdate(fat, c, 0);
      ClearChain(fat[c := 0], fat[c])
    else
      fat
  }

  /** One turn of the loop. */
  lemma ClearStep(fat: seq<nat>, c: nat)
    requires InRange(fat) && 2 <= c < |fat| <= EOC_MIN
    ensures InRange(fat[c := 0]) && (fat[c] < |fat| || EOC_MIN <= fat[c])
    ensures ClearChain(fat[c := 0], fat[c]) == ClearChain(fat, c)
    ensures UsedCount(fat[c := 0]) < UsedCount(fat) || (fat[c] == 0 && UsedCount(fat[c := 0]) == UsedCount(fat))
  {
    UsedCountUpdate(fat, c, 0);
  }

  /** Freeing the head, then the tail. */
  lemma FreedHead(fat: seq<nat>, cs: seq<nat>)
    requires |cs| > 0 && cs[0] < |fat|
    ensures Freed(fat[cs[0] := 0], Elements(cs[1..])) == Freed(fat, Elements(cs))
  {
    assert cs == [cs[0]] + cs[1..];
    assert Elements(cs) == {cs[0]} + Elements(cs[1..]);
  }

  lemma ChainWithoutHead(fat: seq<nat>, cs: seq<nat>)
    requires IsChain(fat, cs) && |fat| <= EOC_MIN && |cs| > 1
    ensures IsChain(fat[cs[0] := 0], cs[1..]) && fat[cs[0]] == cs[1..][0]
  {
    ChainDistinct(fat, cs);
    ChainTail(fat, cs, 1);
    ChainFrame(fat, fat[cs[0] := 0], cs[1..]);
  }

  /** On a well-formed chain, exactly that chain is freed. */
  lemma {:induction false} ClearChainFrees(fat: seq<nat>, cs: seq<nat>)
    requires InRange(fat) && 2 <= |fat| <= EOC_MIN && IsChain(fat, cs)
    ensures ClearChain(fat, cs[0]) == Freed(fat, Elements(cs))
    decreases |cs|
  {
    FreedHead(fat, cs);
    if |cs| == 1 {
      assert cs[1..] == [];
      assert fat[cs[0] := 0] == Freed(fat[cs[0] := 0], Elements(cs[1..]));
    } else {
      ChainWithoutHead(fat, cs);
      ClearChainFrees(fat[cs[0] := 0], cs[1..]);
    }
  }

  /** Following n links from c; a value that is no cluster stays put. */
  ghost function Follow(fat: seq<nat>, c: nat, n: nat): nat
    requires InRange(fat) && (c < |fat| || EOC_MIN <= c)
    decreases n
  {
    if n == 0 || !(2 <= c < |fat|) then c else Follow(fat, fat[c], n - 1)
  }

  /** Freeing changes an entry only to free, and only one that the links reach. */
  lemma {:induction false} ClearChainOnlyReached(fat: seq<nat>, c: nat, x: nat) returns (n: nat)
    requires InRange(fat) && 2 <= |fat| <= EOC_MIN && (c < |fat| || EOC_MIN <= c)
    requires x < |fat| && ClearChain(fat, c)[x] != fat[x]
    ensures ClearChain(fat, c)[x] == 0 && 2 <= x && Follow(fat, c, n) == x
    decreases UsedCount(fat), if 2 <= c < EOC_MIN then 1 else 0
  {
    UsedCountUpdate(fat, c, 0);
    if x == c {
      n := 0;
      if ClearChain(fat[c := 0], fat[c])[x] != fat[c := 0][x] {
        var m := ClearChainOnlyReached(fat[c := 0], fat[c], x);
      }
    } else {
      var m := ClearChainOnlyReached(fat[c := 0], fat[c], x);
      n := FollowUnzeroed(fat, fat[c], c, m);
      n := n + 1;
    }
  }

  /** Every cluster that the links reach is freed, whatever the shape of the FAT. */
  lemma {:induction false} ClearChainAllReached(fat: seq<nat>, c: nat, n: nat)
    requires InRange(fat) && 2 <= |fat| <= EOC_MIN && (c < |fat| || EOC_MIN <= c)
    requires 2 <= Follow(fat, c, n) < |fat|
    ensures ClearChain(fat, c)[Follow(fat, c, n)] == 0
    decreases UsedCount(fat), if 2 <= c < EOC_MIN then 1 else 0
  {
    var x := Follow(fat, c, n);
    if 2 <= c < |fat| {
      UsedCountUpdate(fat, c, 0);
      var fat' := fat[c := 0];
      if x == c {
        if ClearChain(fat', fat[c])[x] != fat'[x] {
          var m := ClearChainOnlyReached(fat', fat[c], x);
        }
      } else {
        var through, m := Detour(fat, c, fat[c], n - 1, x);
        ClearChainAllReached(fat', fat[c], m);
      }
    }
  }

  /** A walk in the FAT with c zeroed is a walk in the FAT. */
  lemma {:induction false} FollowUnzeroed(fat: seq<nat>, s: nat, c: nat, m: nat) returns (n: nat)
    requires InRange(fat) && 2 <= |fat| <= EOC_MIN && (s < |fat| || EOC_MIN <= s) && 2 <= c < |fat|
    requires Follow(fat[c := 0], s, m) >= 2
    ensures Follow(fat, s, n) == Follow(fat[c := 0], s, m)
    decreases m
  {
    if m == 0 || !(2 <= s < |fat|) || s == c {
      n := 0;
    } else {
      n := FollowUnzeroed(fat, fat[s], c, m - 1);
      n := n + 1;
    }
  }

  /** A walk to x can be cut so that it does not pass c: it starts at s or, if it
      did pass c, right after the last visit. */
  lemma {:induction false} Detour(fat: seq<nat>, c: nat, s: nat, n: nat, x: nat) returns (through: bool, m: nat)
    requires InRange(fat) && 2 <= |fat| <= EOC_MIN && (s < |fat| || EOC_MIN <= s) && 2 <= c < |fat|
    requires Follow(fat, s, n) == x && x != c
    ensures Follow(fat[c := 0], if through then fat[c] else s, m) == x
    decreases n
  {
    if n == 0 || !(2 <= s < |fat|) {
      through, m := false, 0;
    } else {
      through, m := Detour(fat, c, fat[s], n - 1, x);
      if s == c {
        through := true;
      } else if !through {
        m := m + 1;
      }
    }
  }
}
