/**
  `to_fat_name`: from a C string to the 11 bytes of a directory record, and which
  strings give a name that a live record can carry.
 */
module FatName {
  import opened FatDisk
  import opened FatEntry
  import opened FatMatch
  import FatRun
  import opened FatTree

  const SPACE: Byte := 32
  const PERIOD: Byte := 46

  /** A C string, without its terminator. */
  ghost predicate IsCString(s: seq<Byte>) {
    forall i :: 0 <= i < |s| ==> s[i] != 0
  }

  function Upper(c: Byte): Byte {
    if 97 <= c <= 122 then c - 32 else c
  }

  /** How many bytes precede the first period. */
  function StemLength(s: seq<Byte>): (n: nat)
    ensures n <= |s| && (n < |s| ==> s[n] == PERIOD) && forall i :: 0 <= i < n ==> s[i] != PERIOD
  {
    if |s| == 0 || s[0] == PERIOD then 0 else 1 + StemLength(s[1..])
  }

  /** Field byte j: the j-th source byte in upper case, or padding. */
  function FieldByte(s: seq<Byte>, j: nat): Byte {
    if j < |s| then Upper(s[j]) else SPACE
  }

  /** The name: 8 bytes of the stem and 3 of what follows the first period. */
  function FatNameByte(s: seq<Byte>, j: nat): Byte {
    var n := StemLength(s);
    if j < 8 then FieldByte(s[..n], j)
    else if n < |s| then FieldByte(s[n + 1..], j - 8)
    else SPACE
  }

  function FatName(s: seq<Byte>): Name {
    if s == [PERIOD] then DOT
    else if s == [PERIOD, PERIOD] then DOTDOT
    else seq(11, j requires 0 <= j < 11 => FatNameByte(s, j))
  }

  /** `to_fat_name` as the source writes it: pad, then copy two fields. */
  method ToFatName(src: seq<Byte>) returns (dst: Name)
    requires IsCString(src)
    ensures dst == FatName(src)
  {
    if src == [PERIOD] {
      return DOT;
    }
    if src == [PERIOD, PERIOD] {
      return DOTDOT;
    }
    ghost var n := StemLength(src);
    var buf: seq<Byte> := seq(11, _ => SPACE);
    var i, j := 0, 0;
    while i < |src| && j < 8 && src[i] != PERIOD
      invariant i == j <= n && j <= 8 && |buf| == 11
      invariant forall x :: 0 <= x < 11 ==> buf[x] == if x < j then Upper(src[x]) else SPACE
    {
      buf := buf[j := Upper(src[i])];
      i, j := i + 1, j + 1;
    }
    while i < |src| && src[i] != PERIOD
      invariant i <= n
    {
      i := i + 1;
    }
    assert i == n;
    if i < |src| {
      i := i + 1;
      var k := 8;
      while i < |src| && k < 11
        invariant n + 1 <= i <= |src| && k == 8 + (i - n - 1) <= 11 && |buf| == 11
        invariant forall x :: 0 <= x < 8 ==> buf[x] == FieldByte(src[..n], x)
        invariant forall x :: 8 <= x < 11 ==> buf[x] == if x < k then Upper(src[n + 1 + x - 8]) else SPACE
      {
        buf := buf[k := Upper(src[i])];
        i, k := i + 1, k + 1;
      }
    }
    dst := buf;
    assert forall x :: 0 <= x < 11 ==> dst[x] == FatNameByte(src, x);
  }

  /** The name field by field: up to 8 bytes before the first period and up to 3 behind it, small
      letters as capitals, padded with spaces; `.` and `..` stay as they are. */
  lemma NameFields(stem: seq<Byte>, ext: seq<Byte>, period: bool, i: nat)
    requires 46 !in stem && (period || ext == []) && i < 11
    ensures var src := stem + (if period then [46] else []) + ext;
            var field: seq<Byte> := if i < 8 then stem else ext;
            var k := if i < 8 then i else i - 8;
            FatName(src)[i]
            == if src == [46] || src == [46, 46] then (if i < |src| then 46 else 32)
               else if k >= |field| then 32
               else if 97 <= field[k] <= 122 then field[k] - 32
               else field[k]
  {
    var src := stem + (if period then [46] else []) + ext;
    StemIs(stem, ext, period);
    assert src[..|stem|] == stem;
    if period {
      assert src[|stem| + 1..] == ext;
    }
    if src != [46] && src != [46, 46] {
      assert FatName(src)[i] == FatNameByte(src, i);
    }
  }

  lemma StemIs(stem: seq<Byte>, ext: seq<Byte>, period: bool)
    requires 46 !in stem && (period || ext == [])
    ensures StemLength(stem + (if period then [46] else []) + ext) == |stem|
  {
    var src := stem + (if period then [46] else []) + ext;
    var n := StemLength(src);
    assert |stem| < |src| ==> src[|stem|] == 46;
    assert forall i :: 0 <= i < |stem| ==> src[i] == stem[i];
  }

  /** Names that differ in a field, as far as it is stored, stay apart. */
  lemma NamesApart(stem: seq<Byte>, ext: seq<Byte>, stem': seq<Byte>, ext': seq<Byte>)
    requires 46 !in stem && 46 !in stem' && FatName(stem + [46] + ext) == FatName(stem' + [46] + ext')
    requires stem != [] && stem' != [] && 32 !in stem && 32 !in ext && 32 !in stem' && 32 !in ext'
    requires |stem| <= 8 && |stem'| <= 8 && |ext| <= 3 && |ext'| <= 3
    ensures |stem| == |stem'| && forall i :: 0 <= i < |stem| ==> Upper(stem[i]) == Upper(stem'[i])
    ensures |ext| == |ext'| && forall i :: 0 <= i < |ext| ==> Upper(ext[i]) == Upper(ext'[i])
  {
    var a, b := FatName(stem + [46] + ext), FatName(stem' + [46] + ext');
    assert (stem + [46] + ext)[0] == stem[0] && (stem' + [46] + ext')[0] == stem'[0];
    forall i: nat | i < 11
      ensures a[i] == FieldByte(if i < 8 then stem else ext, if i < 8 then i else i - 8)
      ensures b[i] == FieldByte(if i < 8 then stem' else ext', if i < 8 then i else i - 8)
    {
      NameFields(stem, ext, true, i);
      NameFields(stem', ext', true, i);
    }
    forall i: nat | i < 8
      ensures FieldByte(stem, i) == FieldByte(stem', i)
    {
      assert a[i] == b[i];
    }
    forall i: nat | i < 3
      ensures FieldByte(ext, i) == FieldByte(ext', i)
    {
      assert a[8 + i] == b[8 + i];
    }
    SameField(stem, stem', 8);
    SameField(ext, ext', 3);
  }

  lemma SameField(s: seq<Byte>, t: seq<Byte>, n: nat)
    requires |s| <= n && |t| <= n && 32 !in s && 32 !in t
    requires forall i: nat :: i < n ==> FieldByte(s, i) == FieldByte(t, i)
    ensures |s| == |t| && forall i :: 0 <= i < |s| ==> Upper(s[i]) == Upper(t[i])
  {
    assert |s| < |t| ==> FieldByte(s, |s|) == FieldByte(t, |s|);
    assert |t| < |s| ==> FieldByte(s, |t|) == FieldByte(t, |t|);
    forall i: nat | i < |s| && i < |t|
      ensures Upper(s[i]) == Upper(t[i])
    {
      assert FieldByte(s, i) == FieldByte(t, i);
    }
  }

  /** The name can be created, found again and unlinked exactly when the string is
      neither `.` nor `..` and does not begin with the deleted-record byte. */
  lemma UsableNames(src: seq<Byte>)
    requires IsCString(src)
    ensures GoodName(FatName(src)) <==> src != [PERIOD] && src != [PERIOD, PERIOD] && (|src| > 0 ==> src[0] != DELETED)
    ensures FatName(src)[0] != 0
  {
    if src != [PERIOD] && src != [PERIOD, PERIOD] {
      assert FatName(src)[0] == FatNameByte(src, 0);
      assert DOT[0] == PERIOD && DOTDOT[0] == PERIOD;
    }
  }

  /** Lookup ignores case: names that differ only in the case of letters collide. */
  lemma CaseIgnored(a: seq<Byte>, b: seq<Byte>)
    requires |a| == |b| && forall i :: 0 <= i < |a| ==> Upper(a[i]) == Upper(b[i])
    ensures FatName(a) == FatName(b)
  {
    assert forall i :: 0 <= i < |a| ==> (a[i] == PERIOD <==> b[i] == PERIOD);
    SameStem(a, b);
    if a == [PERIOD] || a == [PERIOD, PERIOD] {
      assert a == b;
    } else {
      forall j | 0 <= j < 11
        ensures FatNameByte(a, j) == FatNameByte(b, j)
      {
      }
      assert FatName(a) == FatName(b);
    }
  }

  lemma SameStem(a: seq<Byte>, b: seq<Byte>)
    requires |a| == |b| && forall i :: 0 <= i < |a| ==> (a[i] == PERIOD <==> b[i] == PERIOD)
    ensures StemLength(a) == StemLength(b)
  {
    var m, n := StemLength(a), StemLength(b);
    assert !(m < n) && !(n < m);
  }

  /** The loss is real: on a freshly formatted volume, creating a file whose name begins with
      byte 0xE5, or one named `.` in the root, leaves a cluster that nobody owns. */
  lemma LostName(src: seq<Byte>) returns (v: FatRun.Vol)
    requires src == [DELETED, 65] || src == [PERIOD]
    ensures IsCString(src) && FatRun.Ok(v) && |v.fat| == 4 && v.fat[3] == 0 && v.root in v.dirs
    ensures |v.dirs[v.root]| > 0 && Absent(v.dirs[v.root], FatName(src))
    ensures !TreeOk(v.fat[3 := EOC], v.ch[3 := [3]],
                    SetSlot(v.dirs, v.root, 0, NewEntry(FatName(src), ATTR_ARCHIVE, 3)), v.root)
  {
    v := FatRun.Vol([0, 0, EOC, 0], map[2 := [2]], map[2 := Grown([], 16)], 2);
    FatRun.FormattedOk(v, 16);
    UsableNames(src);
    var es := v.dirs[v.root];
    assert forall i :: 0 <= i < |es| ==> es[i] == ZeroEntry();
    assert !InUse(ZeroEntry());
    hide FatName;
    hide Grown;
    CreateNeedsName(v.fat, v.ch, v.dirs, v.root, v.root, 0, 3, FatName(src));
  }
}
