/** Why a host keeps its address only while no other tag maps it. */
module HostsMoves {
  import opened Util
  import opened HostNames
  import opened HostAllocation
  import opened HostsText
  import opened HostsDoc
  import opened HostsRuns
  import opened HostsSimulation
  import opened HostsTheorems

  // ---------- Two names with one hash ----------

  /** Two to the `n`. */
  function Two(n: nat): (r: nat)
    ensures r > 0
  {
    if n == 0 then 1 else 2 * Two(n - 1)
  }

  lemma {:induction false} XorWithZero(a: nat, bits: nat)
    requires a < Two(bits)
    ensures Xor(a, 0, bits) == a
  {
    if bits > 0 {
      XorWithZero(a / 2, bits - 1);
    }
  }

  /** A short operand leaves the high bits alone. */
  lemma {:induction false} XorOfShort(hi: nat, lo: nat, b: nat, bits: nat, n: nat)
    requires n <= bits && lo < Two(n) && b < Two(n) && hi < Two(bits - n)
    ensures Xor(hi * Two(n) + lo, b, bits) == hi * Two(n) + Xor(lo, b, n)
  {
    if n == 0 {
      XorWithZero(hi, bits);
    } else {
      var half := hi * Two(n - 1);
      assert hi * Two(n) == 2 * half;
      assert (2 * half + lo) / 2 == half + lo / 2 && (2 * half + lo) % 2 == lo % 2;
      XorOfShort(hi, lo / 2, b / 2, bits - 1, n - 1);
    }
  }

  lemma XorByte(hi: nat, lo: nat, b: nat)
    requires lo < 256 && b < 256 && hi < 0x100_0000
    ensures Xor(hi * 256 + lo, b, 32) == hi * 256 + Xor(lo, b, 8)
  {
    assert Two(8) == 256;
    assert Two(12) == 4096;
    assert Two(16) == 0x1_0000;
    assert Two(20) == 0x10_0000;
    assert Two(24) == 0x100_0000;
    XorOfShort(hi, lo, b, 32, 8);
  }

  // Bytes as four digits to base 4, so that exclusive ors can be read off.

  predicate Digits(x: seq<nat>) {
    |x| == 4 && forall i :: 0 <= i < 4 ==> x[i] < 4
  }

  function Byte(x: seq<nat>): nat
    requires Digits(x)
  {
    64 * x[0] + 16 * x[1] + 4 * x[2] + x[3]
  }

  function XorDigit(x: nat, y: nat): (r: nat)
    ensures x < 4 && y < 4 ==> r < 4
  {
    (if x / 2 == y / 2 then 0 else 2) + (if x % 2 == y % 2 then 0 else 1)
  }

  function XorDigits(x: seq<nat>, y: seq<nat>): (r: seq<nat>)
    requires Digits(x) && Digits(y)
    ensures Digits(r)
  {
    [XorDigit(x[0], y[0]), XorDigit(x[1], y[1]), XorDigit(x[2], y[2]), XorDigit(x[3], y[3])]
  }

  lemma LastDigit(a: nat, b: nat, n: nat, x: nat, y: nat)
    requires x < 4 && y < 4
    ensures Xor(4 * a + x, 4 * b + y, n + 2) == 4 * Xor(a, b, n) + XorDigit(x, y)
  {
    var c, d := 2 * a + x / 2, 2 * b + y / 2;
    assert (4 * a + x) / 2 == c && (4 * b + y) / 2 == d && c / 2 == a && d / 2 == b;
    assert Xor(c, d, n + 1) == 2 * Xor(a, b, n) + (if c % 2 == d % 2 then 0 else 1);
  }

  lemma TwoDigits(a: nat, b: nat, n: nat, x: nat, y: nat, x': nat, y': nat)
    requires x < 4 && y < 4 && x' < 4 && y' < 4
    ensures Xor(16 * a + 4 * x + x', 16 * b + 4 * y + y', n + 4) == 16 * Xor(a, b, n) + 4 * XorDigit(x, y) + XorDigit(x', y')
  {
    var c, d := 4 * a + x, 4 * b + y;
    LastDigit(a, b, n, x, y);
    LastDigit(c, d, n + 2, x', y');
  }

  lemma XorOfBytes(x: seq<nat>, y: seq<nat>, n: nat)
    requires Digits(x) && Digits(y) && n == 8
    ensures Xor(Byte(x), Byte(y), n) == Byte(XorDigits(x, y))
  {
    var a, b := 4 * x[0] + x[1], 4 * y[0] + y[1];
    TwoDigits(n - 8, n - 8, n - 8, x[0], y[0], x[1], y[1]);
    TwoDigits(a, b, n - 4, x[2], y[2], x[3], y[3]);
    assert Byte(x) == 16 * a + 4 * x[2] + x[3] && Byte(y) == 16 * b + 4 * y[2] + y[3];
  }

  function Mixed(hi: nat, x: seq<nat>): nat
    requires Digits(x)
  {
    (hi * 256 + Byte(x)) * 0x0100_0193 % 0x1_0000_0000
  }

  /** The hash after one more character. */
  lemma OneMoreByte(text: string, c: char, hi: nat, lo: seq<nat>, b: seq<nat>)
    requires Digits(lo) && Digits(b) && hi < 0x100_0000 && c as int == Byte(b)
    requires Fnv1a32(text) == hi * 256 + Byte(lo)
    ensures Fnv1a32(text + [c]) == Mixed(hi, XorDigits(lo, b))
  {
    var n := 8;
    XorByte(hi, Byte(lo), Byte(b));
    XorOfBytes(lo, b, n);
    assert (text + [c])[..|text|] == text;
  }

  lemma HashOfTwo(name: string, c: seq<nat>, d: seq<nat>, hi: nat, lo: seq<nat>)
    requires Digits(c) && Digits(d) && Digits(lo) && hi < 0x100_0000
    requires |name| == 2 && name[0] as int == Byte(c) && name[1] as int == Byte(d)
    requires Mixed(0x811c9d, XorDigits([3, 0, 1, 1], c)) == hi * 256 + Byte(lo)
    ensures Fnv1a32(name) == Mixed(hi, XorDigits(lo, d))
  {
    var empty := name[..0];
    OneMoreByte(empty, name[0], 0x811c9d, [3, 0, 1, 1], c);
    OneMoreByte(empty + [name[0]], name[1], hi, lo, d);
    assert empty + [name[0]] + [name[1]] == name;
  }

  lemma MixedDb()
    ensures Mixed(0x811c9d, [2, 2, 0, 1]) == 14748708 * 256 + Byte([1, 3, 0, 3]) && Mixed(14748708, [0, 1, 0, 1]) == 1461503683
  {
  }

  lemma MixedSa()
    ensures Mixed(0x811c9d, [2, 3, 1, 2]) == 16124997 * 256 + Byte([2, 0, 0, 2]) && Mixed(16124997, [3, 2, 0, 3]) == 944899161
  {
  }

  lemma HashOfDb(y: string)
    requires |y| == 2 && y[0] == 'd' && y[1] == 'b'
    ensures Fnv1a32(y) == 1461503683
  {
    assert XorDigits([3, 0, 1, 1], [1, 2, 1, 0]) == [2, 2, 0, 1];
    assert XorDigits([1, 3, 0, 3], [1, 2, 0, 2]) == [0, 1, 0, 1];
    MixedDb();
    HashOfTwo(y, [1, 2, 1, 0], [1, 2, 0, 2], 14748708, [1, 3, 0, 3]);
  }

  lemma HashOfSa(x: string)
    requires |x| == 2 && x[0] == 's' && x[1] == 'a'
    ensures Fnv1a32(x) == 944899161
  {
    assert XorDigits([3, 0, 1, 1], [1, 3, 0, 3]) == [2, 3, 1, 2];
    assert XorDigits([2, 0, 0, 2], [1, 2, 0, 1]) == [3, 2, 0, 3];
    MixedSa();
    HashOfTwo(x, [1, 3, 0, 3], [1, 2, 0, 1], 16124997, [2, 0, 0, 2]);
  }

  // ---------- Plain names ----------

  lemma ShortNameIsMappable(n: string)
    requires |n| == 2 && 'a' <= n[0] <= 'z' && 'a' <= n[1] <= 'z'
    ensures MappableName(n)
  {
    TrimOfTight(n);
    assert forall i :: 0 <= i < 2 ==> LowerChar(n[i]) == n[i];
    assert Lower(n) == n;
    LabelsWithoutDot(n);
  }

  lemma Differ(names: seq<string>, i: nat, j: nat)
    requires Distinct(names) && i < j < |names|
    ensures names[i] != names[j]
  {
  }

  lemma OnlyOne(names: seq<string>, x: string)
    requires Distinct(names) && forall k :: 0 <= k < |names| ==> names[k] == x
    ensures |names| <= 1
  {
    if |names| > 1 {
      Differ(names, 0, 1);
    }
  }

  lemma OnlyTwo(names: seq<string>, x: string, y: string)
    requires Distinct(names) && forall k :: 0 <= k < |names| ==> names[k] == x || names[k] == y
    ensures |names| <= 2
  {
    if |names| > 2 {
      Differ(names, 0, 1);
      Differ(names, 0, 2);
      Differ(names, 1, 2);
    }
  }

  lemma OneName(x: string)
    requires MappableName(x)
    ensures SortedNames([x]) == [x]
  {
    var names := SortedNames([x]);
    SortedNamesAreNames([x]);
    assert x in names;
    var i :| 0 <= i < |names| && names[i] == x;
    forall j | 0 <= j < |names| ensures names[j] == x {
      assert names[j] in names;
    }
    OnlyOne(names, x);
  }

  lemma TwoNames(x: string, y: string)
    requires MappableName(x) && MappableName(y) && Less(y, x)
    ensures SortedNames([x, y]) == [y, x]
  {
    var names := SortedNames([x, y]);
    SortedNamesAreNames([x, y]);
    LessIrreflexive(x);
    assert x in names && y in names;
    var i :| 0 <= i < |names| && names[i] == x;
    var j :| 0 <= j < |names| && names[j] == y;
    forall k | 0 <= k < |names| ensures names[k] == x || names[k] == y {
      assert names[k] in names;
    }
    if i < j {
      LessTransitive(x, y, x);
    }
    OnlyTwo(names, x, y);
  }

  // ---------- The host moves ----------

  /** With no record to keep, the first name gets the first slot tried for it. */
  lemma FirstTakesItsHash(hosts: seq<string>, existing: map<string, string>, result: map<string, string>)
    requires IsAllocation(hosts, existing, result) && SortedNames(hosts) != []
    requires Kept(SortedNames(hosts), existing) == map[]
    ensures SortedNames(hosts)[0] in result && result[SortedNames(hosts)[0]] == SlotAddress(HashSlot(SortedNames(hosts)[0]))
  {
    var names := SortedNames(hosts);
    AllocationProbes(hosts, existing, result, 0);
    FirstProbe(names, Kept(names, existing), result);
    ProbeFromHash(names[0]);
  }

  lemma FirstProbe(names: seq<string>, kept: map<string, string>, result: map<string, string>)
    requires names != [] && kept == map[] && names[0] in result && TookFirst(LOOPBACK, kept, names, result, 0)
    ensures result[names[0]] == LOOPBACK(names[0], 0)
  {
    assert !TakenBefore(kept, names, result, 0, LOOPBACK(names[0], 0));
  }

  lemma ProbeFromHash(n: string)
    ensures LOOPBACK(n, 0) == SlotAddress(HashSlot(n))
  {
  }

  /** No entry of the tag is in force. */
  ghost predicate AllHidden(doc: Doc, tag: string) {
    forall ip, n :: Entry(tag, None, ip, n) !in doc
  }

  lemma HiddenIsForgotten(text: string, doc: Doc, tag: string, names: seq<string>)
    requires Represents(text, doc) && ValidTag(tag) && AllHidden(doc, tag)
    ensures Kept(names, ExistingEntries(text, tag)) == map[]
  {
    var existing := ExistingEntries(text, tag);
    RecordedEntries(text, doc, tag);
    KeptFacts(names, existing);
    forall n | n in Kept(names, existing) ensures false {
      UsableRecordsAreEntries(doc, tag, NewlineOf(text), map[], n);
    }
  }

  /** Only entries of `tag` that map `x`, and nothing disabled. */
  ghost predicate OnlyMaps(doc: Doc, tag: string, x: string) {
    forall e :: e in doc && e.Entry? ==> e.tag == tag && e.name == x && e.mark == None
  }

  lemma FirstBlockOnlyMaps(tag: string, x: string, addresses: map<string, string>)
    requires x in addresses
    ensures OnlyMaps(Merged([], tag, [x], addresses), tag, x)
  {
    assert EntryElements(tag, [x], addresses) == [Entry(tag, None, addresses[x], x)];
  }

  /** Mapping the name under another tag hides the entry. */
  lemma OtherTagHides(doc: Doc, tag: string, other: string, x: string, order: seq<string>, addresses: map<string, string>)
    requires OnlyMaps(doc, tag, x) && tag != other && order == [x] && Covers(order, addresses)
    ensures AllHidden(Merged(doc, other, order, addresses), tag)
  {
    assert x in order;
    var base := Cleared(doc, other);
    ClearedMembers(doc, other);
    var over := Override(base, other, addresses.Keys);
    assert forall e :: e in base && e.Entry? ==> e.name == x;
    forall i | 0 <= i < |over| ensures over[i].Entry? ==> over[i].mark != None {
      assert base[i] in base;
    }
  }

  /** Some apply with replacement, and the file it leaves. */
  lemma SomeApply(text: string, doc: Doc, tag: string, hosts: seq<string>) returns (op: Op)
    requires Represents(text, doc) && ValidTag(tag) && hosts != [] && |SortedNames(hosts)| <= SLOTS
    ensures op.Apply? && op.tag == tag && op.hosts == hosts && Fits(text, op) && Covers(SortedNames(hosts), op.addresses)
    ensures Represents(After(text, op), Merged(doc, tag, SortedNames(hosts), op.addresses))
  {
    FewHostsHaveRoom(hosts, ExistingEntries(text, tag));
    var addresses := AllocationExists(hosts, ExistingEntries(text, tag));
    AllocationIsSound(hosts, ExistingEntries(text, tag), addresses);
    op := Apply(tag, hosts, true, addresses);
    ApplyShows(text, doc, op);
    StepShows(text, doc, op);
  }

  lemma EmptyShows()
    ensures Pristine("") && Represents("", [])
  {
    assert Lines([]) == [] && Core([]) == [];
  }

  lemma FirstAddress(op: Op, x: string)
    requires Fits("", op) && op.Apply? && SortedNames(op.hosts) == [x]
    ensures x in op.addresses && op.addresses[x] == SlotAddress(HashSlot(x))
  {
    EmptyShows();
    HiddenIsForgotten("", [], op.tag, [x]);
    FirstTakesItsHash(op.hosts, ExistingEntries("", op.tag), op.addresses);
  }

  /** After the entry was hidden, a name before `x` with the same hash takes the slot. */
  lemma LastAddress(text: string, doc: Doc, op: Op, x: string, y: string)
    requires Represents(text, doc) && Fits(text, op) && op.Apply? && AllHidden(doc, op.tag)
    requires SortedNames(op.hosts) == [y, x] && x != y && HashSlot(x) == HashSlot(y)
    ensures x in op.addresses && op.addresses[x] != SlotAddress(HashSlot(x))
  {
    HiddenIsForgotten(text, doc, op.tag, [y, x]);
    FirstTakesItsHash(op.hosts, ExistingEntries(text, op.tag), op.addresses);
    AllocationIsSound(op.hosts, ExistingEntries(text, op.tag), op.addresses);
    assert x in [y, x];
  }

  lemma ThreeFit(text: string, a: Op, b: Op, c: Op)
    requires Fits(text, a) && Fits(After(text, a), b) && Fits(After(After(text, a), b), c)
    ensures AllFit(text, [a, b, c])
  {
    assert [a, b, c][1..] == [b, c] && [b, c][1..] == [c] && [c][1..] == [];
    assert AllFit(After(After(text, a), b), [c]);
    assert AllFit(After(text, a), [b, c]);
  }

  /** One tag maps the host on an empty file. */
  lemma FirstTag(tag: string, x: string) returns (first: Op, doc: Doc)
    requires ValidTag(tag) && MappableName(x)
    ensures first.Apply? && first.tag == tag && Fits("", first)
    ensures x in first.addresses && first.addresses[x] == SlotAddress(HashSlot(x))
    ensures Represents(After("", first), doc) && OnlyMaps(doc, tag, x)
  {
    OneName(x);
    EmptyShows();
    first := SomeApply("", [], tag, [x]);
    FirstAddress(first, x);
    doc := Merged([], tag, [x], first.addresses);
    FirstBlockOnlyMaps(tag, x, first.addresses);
  }

  /** Then another tag maps it too. */
  lemma SecondTag(text: string, doc: Doc, tag: string, other: string, x: string) returns (between: Op, hidden: Doc)
    requires Represents(text, doc) && OnlyMaps(doc, tag, x) && ValidTag(other) && tag != other && MappableName(x)
    ensures between.Apply? && between.tag == other && Fits(text, between)
    ensures Represents(After(text, between), hidden) && AllHidden(hidden, tag)
  {
    OneName(x);
    between := SomeApply(text, doc, other, [x]);
    hidden := Merged(doc, other, SortedNames([x]), between.addresses);
    OtherTagHides(doc, tag, other, x, SortedNames([x]), between.addresses);
  }

  /** A host moves when another tag maps it and a host before it has the same hash. */
  lemma ColliderMoves(tag: string, other: string, x: string, y: string) returns (first: Op, between: Op, last: Op)
    requires ValidTag(tag) && ValidTag(other) && tag != other
    requires MappableName(x) && MappableName(y) && Less(y, x) && HashSlot(x) == HashSlot(y)
    ensures AllFit("", [first, between, last])
    ensures first.Apply? && last.Apply? && first.tag == last.tag == tag && between.Apply? && between.tag == other
    ensures x in first.addresses && x in last.addresses && first.addresses[x] != last.addresses[x]
  {
    var doc, hidden;
    first, doc := FirstTag(tag, x);
    between, hidden := SecondTag(After("", first), doc, tag, other, x);
    var text := After(After("", first), between);
    TwoNames(x, y);
    LessIrreflexive(x);
    last := SomeApply(text, hidden, tag, [x, y]);
    LastAddress(text, hidden, last, x, y);
    ThreeFit("", first, between, last);
  }

  /**
    A run on an empty file in which host "sa" moves: the other tag disables its entry, which is then not
    read back, and "db", which starts at the same slot, comes before it in the next allocation.
  */
  lemma HostCanMove(tag: string, other: string, x: string, y: string) returns (first: Op, between: Op, last: Op)
    requires ValidTag(tag) && ValidTag(other) && tag != other && x == "sa" && y == "db"
    ensures Pristine("") && AllFit("", [first, between, last])
    ensures first.Apply? && last.Apply? && first.tag == last.tag == tag && between.Apply? && between.tag == other
    ensures x in first.addresses && x in last.addresses && first.addresses[x] != last.addresses[x]
  {
    ShortNameIsMappable(x);
    ShortNameIsMappable(y);
    HashOfSa(x);
    HashOfDb(y);
    assert Less(y, x);
    EmptyShows();
    first, between, last := ColliderMoves(tag, other, x, y);
  }
}
