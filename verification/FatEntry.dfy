/**
  Directory entries: the 32-byte records of the FAT directory structure, read and
  built byte by byte as `FAT32_DirEntry` lays them out.
 */
module FatEntry {
  import opened FatDisk
  import opened FatBytes

  const ENTRY_SIZE := 32
  const DELETED := 0xE5
  const ATTR_DIRECTORY := 0x10
  const ATTR_ARCHIVE := 0x20
  const ATTR_LONG_NAME := 0x0F

  /** A FAT name: 8 + 3 bytes, padded with spaces. */
  type Name = s: seq<Byte> | |s| == 11 witness seq(11, _ => 32)

  const DOT: Name := [46, 32, 32, 32, 32, 32, 32, 32, 32, 32, 32]
  const DOTDOT: Name := [46, 46, 32, 32, 32, 32, 32, 32, 32, 32, 32]

  type Entry = s: seq<Byte> | |s| == ENTRY_SIZE witness seq(ENTRY_SIZE, _ => 0)

  function ZeroEntry(): (e: Entry)
    ensures forall i :: 0 <= i < ENTRY_SIZE ==> e[i] == 0
  {
    seq(ENTRY_SIZE, _ => 0)
  }

  // -------------------------------------------------------------------- fields

  function NameOf(e: Entry): Name {
    e[..11]
  }

  /** Neither end marker nor deleted. */
  predicate InUse(e: Entry) {
    e[0] != 0 && e[0] != DELETED
  }

  /** What `find_dir_entry` looks at: long-name records are skipped. */
  predicate Live(e: Entry) {
    InUse(e) && e[11] != ATTR_LONG_NAME
  }

  /** `attr & ATTR_DIRECTORY` */
  predicate IsDir(e: Entry) {
    e[11] / 16 % 2 == 1
  }

  predicate IsDot(e: Entry) {
    NameOf(e) == DOT || NameOf(e) == DOTDOT
  }

  /** `(first_cluster_hi << 16) | first_cluster_lo` */
  function FirstCluster(e: Entry): nat {
    (e[26] as int) + 0x100 * (e[27] as int) + 0x1_0000 * (e[20] as int) + 0x100_0000 * (e[21] as int)
  }

  function SizeOf(e: Entry): nat {
    (e[28] as int) + 0x100 * (e[29] as int) + 0x1_0000 * (e[30] as int) + 0x100_0000 * (e[31] as int)
  }

  /** The entry owns a chain: it is live, not `.` or `..`, and has a first cluster. */
  predicate Owns(e: Entry) {
    Live(e) && !IsDot(e) && FirstCluster(e) != 0
  }

  // ------------------------------------------------------------------ building

  function WithCluster(e: Entry, c: nat): (r: Entry)
    requires c < 0x1_0000_0000
  {
    e[26 := WordBytes(c)[0]][27 := WordBytes(c)[1]][20 := WordBytes(c)[2]][21 := WordBytes(c)[3]]
  }

  function WithSize(e: Entry, n: nat): (r: Entry)
    requires n < 0x1_0000_0000
  {
    e[28 := WordBytes(n)[0]][29 := WordBytes(n)[1]][30 := WordBytes(n)[2]][31 := WordBytes(n)[3]]
  }

  function WithName(e: Entry, n: Name): (r: Entry) {
    n + e[11..]
  }

  function Deleted(e: Entry): (r: Entry) {
    e[0 := DELETED]
  }

  /** A cleared record with name, attributes and first cluster filled in. */
  function NewEntry(n: Name, attr: Byte, c: nat): (r: Entry)
    requires c < 0x1_0000_0000
  {
    WithCluster(WithName(ZeroEntry(), n)[11 := attr], c)
  }

  lemma WithClusterFields(e: Entry, c: nat)
    requires c < 0x1_0000_0000
    ensures FirstCluster(WithCluster(e, c)) == c
    ensures NameOf(WithCluster(e, c)) == NameOf(e) && WithCluster(e, c)[11] == e[11]
    ensures SizeOf(WithCluster(e, c)) == SizeOf(e)
  {
    WordSum(c);
  }

  lemma WithSizeFields(e: Entry, n: nat)
    requires n < 0x1_0000_0000
    ensures SizeOf(WithSize(e, n)) == n
    ensures NameOf(WithSize(e, n)) == NameOf(e) && WithSize(e, n)[11] == e[11]
    ensures FirstCluster(WithSize(e, n)) == FirstCluster(e)
  {
    WordSum(n);
  }

  lemma WithNameFields(e: Entry, n: Name)
    ensures NameOf(WithName(e, n)) == n && WithName(e, n)[11] == e[11]
    ensures FirstCluster(WithName(e, n)) == FirstCluster(e) && SizeOf(WithName(e, n)) == SizeOf(e)
  {
  }

  lemma NewEntryFields(n: Name, attr: Byte, c: nat)
    requires c < 0x1_0000_0000
    ensures NameOf(NewEntry(n, attr, c)) == n && NewEntry(n, attr, c)[11] == attr
    ensures FirstCluster(NewEntry(n, attr, c)) == c && SizeOf(NewEntry(n, attr, c)) == 0
  {
    WithNameFields(ZeroEntry(), n);
    var e := WithName(ZeroEntry(), n)[11 := attr];
    assert NameOf(e) == n;
    WithClusterFields(e, c);
  }

  // --------------------------------------------------------------------- slots

  /** A byte string cut into records. */
  function Slots(b: seq<Byte>): (es: seq<Entry>)
    ensures |es| == |b| / ENTRY_SIZE
  {
    seq(|b| / ENTRY_SIZE, j requires 0 <= j < |b| / ENTRY_SIZE => SlotAt(b, j))
  }

  function SlotAt(b: seq<Byte>, j: nat): Entry
    requires j < |b| / ENTRY_SIZE
  {
    b[ENTRY_SIZE * j..ENTRY_SIZE * j + ENTRY_SIZE]
  }

  /** Writing one record over its slot replaces that record only. */
  lemma SlotsSplice(b: seq<Byte>, j: nat, e: Entry)
    requires j < |b| / ENTRY_SIZE
    ensures Slots(Splice(b, ENTRY_SIZE * j, e)) == Slots(b)[j := e]
  {
    var b' := Splice(b, ENTRY_SIZE * j, e);
    SpliceParts(b, ENTRY_SIZE * j, e);
    forall i | 0 <= i < |b| / ENTRY_SIZE
      ensures SlotAt(b', i) == if i == j then e else SlotAt(b, i)
    {
    }
  }

  /** Zeroed space is free records. */
  lemma SlotsGrow(b: seq<Byte>, n: nat)
    requires |b| % ENTRY_SIZE == 0 && n % ENTRY_SIZE == 0
    ensures Slots(b + Zeros(n)) == Slots(b) + seq(n / ENTRY_SIZE, _ => ZeroEntry())
  {
    var l, r := Slots(b + Zeros(n)), Slots(b) + seq(n / ENTRY_SIZE, _ => ZeroEntry());
    forall j | 0 <= j < |l|
      ensures l[j] == r[j]
    {
    }
  }
}
